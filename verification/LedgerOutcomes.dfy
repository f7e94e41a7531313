/**
 * The ledger's operations as their callers see them: exactly when each is accepted and which fields it stores, spelt
 * from the stored rows, with days of 86 400 000 milliseconds and no other member of the model.
 */
module LedgerOutcomes {
  import opened Billing
  import opened LedgerModel
  import opened LedgerRuns
  import opened Options

  // ---------------------------------------------------------------- what the stored fields say

  /** Calendar days from one moment to a later one. */
  function Days(from: int, to: int): nat {
    if to / 86_400_000 > from / 86_400_000 then to / 86_400_000 - from / 86_400_000 else 0
  }

  /** The date a late penalty counts from. */
  function Start(inv: Invoice): int {
    if inv.penaltyStart.Some? then inv.penaltyStart.value else inv.due
  }

  /** The penalty that has accrued at a moment. */
  function Accrued(inv: Invoice, t: int): int { Days(Start(inv), t) * inv.rate }

  predicate Unsettled(inv: Invoice) { inv.status == Pending || inv.status == Overdue }

  /** A payment of the invoice begun at most half an hour ago is undecided. */
  ghost predicate Busy(l: Ledger, id: nat, now: int) {
    exists t :: 0 <= t < |l.txs| && l.txs[t].invoice == id && l.txs[t].status == Initiated
                && now - l.txs[t].created <= 1_800_000
  }

  /** The penalty lines among the items. */
  function PenaltyLines(items: seq<Item>): int {
    if items == [] then 0
    else PenaltyLines(items[1..]) + if items[0].kind == CarriedPenalty then items[0].amount else 0
  }

  function LineTotal(items: seq<Item>): int { if items == [] then 0 else items[0].amount + LineTotal(items[1..]) }

  /** One row is replaced, and nothing else. */
  ghost predicate Stores(l: Ledger, after: Ledger, id: nat, row: Invoice) {
    && after.txs == l.txs && |after.invoices| == |l.invoices| && id < |l.invoices| && after.invoices[id] == row
    && forall i :: 0 <= i < |l.invoices| && i != id ==> after.invoices[i] == l.invoices[i]
  }

  // ---------------------------------------------------------------- the vocabulary of the model

  lemma BusyIff(l: Ledger, id: nat, now: int)
    ensures PaymentInFlight(l.txs, id, now) <==> Busy(l, id, now)
  {
  }

  lemma {:induction false} LineTotalIs(items: seq<Item>)
    ensures SumItems(items) == LineTotal(items)
    decreases |items|
  {
    if |items| > 1 {
      var n := |items| - 1;
      LineTotalIs(items[..n]);
      LineTotalIs(items[1..]);
      LineTotalIs(items[1..][..n - 1]);
      assert items[..n][1..] == items[1..][..n - 1];
    }
  }

  lemma {:induction false} PenaltyLinesAre(items: seq<Item>)
    ensures CarriedTotal(items) == PenaltyLines(items)
    decreases |items|
  {
    if items != [] {
      var first := items[..1];
      assert items == first + items[1..];
      SelectConcat(first, items[1..], true);
      PenaltyLinesAre(items[1..]);
      assert first[..0] == [];
      SumOfTwo(Carried(first), Carried(items[1..]));
    }
  }

  lemma {:induction false} SumOfTwo(a: seq<Item>, b: seq<Item>)
    ensures SumItems(a + b) == SumItems(a) + SumItems(b)
  {
    if b == [] {
      assert a + b == a;
    } else {
      assert (a + b)[..|a + b| - 1] == a + b[..|b| - 1];
      SumOfTwo(a, b[..|b| - 1]);
    }
  }

  lemma DaysAre(anchor: int, asOf: int)
    ensures DaysLate(anchor, asOf) == Days(anchor, asOf)
  {
  }

  /** What an unsettled invoice costs at a moment: its total and the penalty accrued; a settled one keeps what was
      frozen, and a cancelled one costs no penalty. */
  lemma SettlementIs(inv: Invoice, t: int)
    ensures var s := Settle(inv, t);
      && s.base == inv.total && s.payable == inv.total + s.latePenalty
      && (Unsettled(inv) ==> s.lateDays == Days(Start(inv), t) && s.latePenalty == Accrued(inv, t))
      && (inv.status == Cancelled ==> s.lateDays == 0 && s.latePenalty == 0)
      && (!Unsettled(inv) && inv.status != Cancelled ==>
            s.lateDays == (if inv.lateDays < 0 then 0 else inv.lateDays) && s.latePenalty == inv.latePenalty)
      && (s.overdue <==> inv.status == Overdue || (inv.status == Pending && Days(inv.due, t) > 0))
  {
    DaysAre(Start(inv), t);
    DaysAre(inv.due, t);
  }

  // ---------------------------------------------------------------- one row

  lemma DiscountOutcome(l: Ledger, id: nat, discount: int, now: int)
    requires RefersToInvoices(l) && id < |l.invoices|
    ensures var (after, reply) := Apply(l, OpDiscount(id, discount), now);
      var inv := l.invoices[id];
      && reply == (if !Unsettled(inv) || Busy(l, id, now) then Refused(Conflict)
                   else if 0 <= discount <= inv.amount + inv.tax - PenaltyLines(inv.items) then Accepted
                   else Refused(BadRequest))
      && (reply != Accepted ==> after == l)
      && (reply == Accepted ==>
            Stores(l, after, id, inv.(discount := discount, total := inv.amount + inv.tax - discount)))
  {
    BusyIff(l, id, now);
    PenaltyLinesAre(l.invoices[id].items);
  }

  lemma CancelOutcome(l: Ledger, id: nat, now: int)
    requires RefersToInvoices(l) && id < |l.invoices|
    ensures var (after, reply) := Apply(l, OpCancel(id), now);
      && reply == (if Unsettled(l.invoices[id]) && !Busy(l, id, now) then Accepted else Refused(Conflict))
      && (reply != Accepted ==> after == l)
      && (reply == Accepted ==> Stores(l, after, id, l.invoices[id].(status := Cancelled)))
  {
    BusyIff(l, id, now);
  }

  /** The penalty start beside a new due date: none before anything accrued, none when the date is moved back to where
      the penalty counts from or before, and otherwise where it counted from already. */
  function StartBeside(inv: Invoice, due: int, now: int): Option<int> {
    if Days(Start(inv), now) > 0 && due > Start(inv) then Some(Start(inv)) else None
  }

  lemma StartBesideIs(inv: Invoice, due: int, now: int)
    ensures PreservedPenaltyStart(inv, due, now) == StartBeside(inv, due, now)
  {
    DaysAre(Start(inv), now);
  }

  lemma ExtendOutcome(l: Ledger, id: nat, due: int, now: int)
    requires RefersToInvoices(l) && id < |l.invoices|
    ensures var (after, reply) := Apply(l, OpExtend(id, due), now);
      var inv := l.invoices[id];
      && reply == (if !Unsettled(inv) || Busy(l, id, now) then Refused(Conflict)
                   else if Days(due, now) == 0 && due > inv.due then Accepted
                   else Refused(BadRequest))
      && (reply != Accepted ==> after == l)
      && (reply == Accepted ==>
            Stores(l, after, id, inv.(due := due, penaltyStart := StartBeside(inv, due, now), status := Pending)))
  {
    BusyIff(l, id, now);
    DaysAre(due, now);
    StartBesideIs(l.invoices[id], due, now);
  }

  lemma ListOutcome(l: Ledger, listed: set<nat>, now: int)
    requires RefersToInvoices(l)
    ensures var (after, reply) := Apply(l, OpList(listed), now);
      && reply == Accepted && after.txs == l.txs && |after.invoices| == |l.invoices|
      && forall i :: 0 <= i < |l.invoices| ==>
           after.invoices[i]
           == if i in listed && l.invoices[i].status == Pending && Days(l.invoices[i].due, now) > 0
              then l.invoices[i].(status := Overdue) else l.invoices[i]
  {
    forall i | 0 <= i < |l.invoices| ensures DaysLate(l.invoices[i].due, now) == Days(l.invoices[i].due, now) {
      DaysAre(l.invoices[i].due, now);
    }
  }

  // ---------------------------------------------------------------- creating and editing

  /** A line of a new invoice: of a kind the issuer may bill, positive, and titled where the kind says nothing. */
  predicate Enterable(item: Item, category: Category) {
    && (if category == Platform then item.kind in {EntranceFee, MonthlyMembership, PlatformOther}
        else item.kind in {Water, Sewage, RenovationShare, ShareDebt, ChargeOther})
    && 0 < item.amount <= 999_999_999_999_999
    && (item.kind in {ChargeOther, PlatformOther} ==> item.titled)
  }

  predicate AllEnterable(items: seq<Item>, category: Category) {
    1 <= |items| <= 20 && forall i :: 0 <= i < |items| ==> Enterable(items[i], category)
  }

  lemma EnterableIff(items: seq<Item>, category: Category)
    ensures WellFormedItems(items, category) <==> AllEnterable(items, category)
  {
    forall i | 0 <= i < |items| ensures WellFormedItem(items[i], category) <==> Enterable(items[i], category) {}
  }

  lemma CreateOutcome(l: Ledger, category: Category, items: seq<Item>, amount: int, tax: int, rate: int, due: int,
                      now: int)
    requires RefersToInvoices(l)
    ensures var (after, reply) := Apply(l, OpCreate(category, items, amount, tax, rate, due), now);
      var sum := if items == [] then amount else LineTotal(items);
      && reply == (if (items == [] || AllEnterable(items, category)) && sum > 0 && tax >= 0 && rate >= 0
                      && sum + tax <= 999_999_999_999_999
                   then Accepted else Refused(BadRequest))
      && (reply != Accepted ==> after == l)
      && (reply == Accepted ==>
            && after.txs == l.txs && |after.invoices| == |l.invoices| + 1
            && (forall i :: 0 <= i < |l.invoices| ==> after.invoices[i] == l.invoices[i])
            && after.invoices[|l.invoices|]
               == Invoice(sum, tax, 0, sum + tax, rate, 0, 0, now, due, None, Pending, Unpaid, None, category, items,
                          None))
  {
    EnterableIff(items, category);
    LineTotalIs(items);
  }

  /** The lines that are, or are not, penalties a split carried over, in order. */
  function LinesThat(items: seq<Item>, carried: bool): seq<Item> {
    if items == [] then []
    else (if (items[0].kind == CarriedPenalty) == carried then [items[0]] else []) + LinesThat(items[1..], carried)
  }

  lemma {:induction false} SelectIs(items: seq<Item>, carried: bool)
    ensures Select(items, carried) == LinesThat(items, carried)
    decreases |items|
  {
    if items != [] {
      var first := items[..1];
      assert items == first + items[1..];
      SelectConcat(first, items[1..], carried);
      SelectIs(items[1..], carried);
      assert first[..0] == [];
    }
  }

  /** The lines an edit leaves: those entered, but for penalties, and then the penalties already carried. */
  function LinesAfter(inv: Invoice, edit: Edit): seq<Item> {
    if edit.items.Some? then LinesThat(edit.items.value, false) + LinesThat(inv.items, true) else inv.items
  }

  function Given<T>(entered: Option<T>, stored: T): T { if entered.Some? then entered.value else stored }

  function AmountAfter(inv: Invoice, edit: Edit): int {
    if edit.items.Some? then LineTotal(LinesAfter(inv, edit)) else Given(edit.amount, inv.amount)
  }

  /** An edit enters something, no amount beside lines, and lines, amounts and a rate that are in order; and a penalty
      that has started keeps at least its rate. */
  predicate Amends(inv: Invoice, edit: Edit, now: int) {
    var amount, tax, rate := AmountAfter(inv, edit), Given(edit.tax, inv.tax), Given(edit.rate, inv.rate);
    && (edit.items.Some? ==> AllEnterable(LinesThat(edit.items.value, false), inv.category))
    && (edit.items.None? && edit.amount.Some? ==> inv.items == [])
    && amount > 0 && tax >= 0 && rate >= 0 && amount + tax <= 999_999_999_999_999
    && inv.discount <= amount + tax - PenaltyLines(LinesAfter(inv, edit))
    && (Days(Start(inv), now) > 0 ==> rate >= inv.rate)
  }

  predicate EntersSomething(edit: Edit) {
    edit.amount.Some? || edit.tax.Some? || edit.rate.Some? || edit.due.Some? || edit.status.Some? || edit.items.Some?
    || edit.describes
  }

  /** The status asked for, or else the present one; a pending invoice past its date is overdue, and an overdue one
      whose date was moved is pending again. */
  function StatusAfter(inv: Invoice, edit: Edit, now: int): Status {
    var asked, late := Given(edit.status, inv.status), Days(Given(edit.due, inv.due), now) > 0;
    if asked == Pending && late then Overdue
    else if asked == Overdue && !late && edit.status.None? then Pending
    else asked
  }

  lemma EditAmounts(inv: Invoice, edit: Edit)
    ensures EditedItems(inv, edit) == LinesAfter(inv, edit) && EditedAmount(inv, edit) == AmountAfter(inv, edit)
    ensures CarriedTotal(EditedItems(inv, edit)) == PenaltyLines(LinesAfter(inv, edit))
  {
    if edit.items.Some? { SelectIs(edit.items.value, false); }
    SelectIs(inv.items, true);
    LineTotalIs(LinesAfter(inv, edit));
    PenaltyLinesAre(LinesAfter(inv, edit));
  }

  lemma AmendsIff(inv: Invoice, edit: Edit, now: int)
    ensures Amends(inv, edit, now) <==> EditAllowed(inv, edit, now)
  {
    EditAmounts(inv, edit);
    DaysAre(Start(inv), now);
    if edit.items.Some? {
      SelectIs(edit.items.value, false);
      EnterableIff(LinesThat(edit.items.value, false), inv.category);
    }
  }

  ghost predicate RowAfter(inv: Invoice, edit: Edit, now: int, row: Invoice) {
    && row.amount == AmountAfter(inv, edit) && row.tax == Given(edit.tax, inv.tax)
    && row.rate == Given(edit.rate, inv.rate) && row.due == Given(edit.due, inv.due)
    && row.items == LinesAfter(inv, edit) && row.total == row.amount + row.tax - inv.discount
    && row.penaltyStart == (if edit.due.Some? then StartBeside(inv, edit.due.value, now) else inv.penaltyStart)
    && row.status == StatusAfter(inv, edit, now)
    && row.discount == inv.discount && row.lateDays == inv.lateDays && row.latePenalty == inv.latePenalty
    && row.issued == inv.issued && row.paidBy == inv.paidBy && row.paidAt == inv.paidAt
    && row.category == inv.category && row.parent == inv.parent
  }

  lemma RowAfterIs(inv: Invoice, edit: Edit, now: int)
    ensures RowAfter(inv, edit, now, EditedRow(inv, edit, now))
  {
    EditAmounts(inv, edit);
    DaysAre(Given(edit.due, inv.due), now);
    if edit.due.Some? { StartBesideIs(inv, edit.due.value, now); }
  }

  lemma UpdateOutcome(l: Ledger, id: nat, edit: Edit, now: int)
    requires RefersToInvoices(l) && id < |l.invoices|
    ensures var (after, reply) := Apply(l, OpUpdate(id, edit), now);
      && reply == (if !Unsettled(l.invoices[id]) && l.invoices[id].status != Cancelled then Refused(Conflict)
                   else if !EntersSomething(edit) then Refused(BadRequest)
                   else if Busy(l, id, now) then Refused(Conflict)
                   else if Amends(l.invoices[id], edit, now) then Accepted
                   else Refused(BadRequest))
      && (reply != Accepted ==> after == l)
      && (reply == Accepted ==>
            id < |after.invoices| && Stores(l, after, id, after.invoices[id])
            && RowAfter(l.invoices[id], edit, now, after.invoices[id]))
  {
    BusyIff(l, id, now);
    AmendsIff(l.invoices[id], edit, now);
    RowAfterIs(l.invoices[id], edit, now);
  }

  // ---------------------------------------------------------------- splitting

  /** The shares of an even split: whole Rials of a hundred, and the rest in the last. */
  function EvenShare(base: int, count: int, i: int): int
    requires count > 0
  {
    var share := base / (100 * count) * 100;
    if i == count - 1 then base - (count - 1) * share else share
  }

  /** The installments a plan asks for: its own, or even shares due at the interval, thirty days unless given. */
  ghost predicate Schedules(plan: Plan, base: int, parts: seq<Part>) {
    match plan
    case Custom(own) => parts == own
    case Even(count, first, interval) =>
      && count > 0 && |parts| == count
      && forall i :: 0 <= i < count ==>
           parts[i].amount == EvenShare(base, count, i)
           && parts[i].due == first + i * (if interval == 0 then 30 else interval) * 86_400_000
  }

  /** Between two and 36 even shares, or at least two parts that add up; each positive, due today or later, in order. */
  ghost predicate Splits(plan: Plan, base: int, now: int, parts: seq<Part>) {
    && Schedules(plan, base, parts)
    && (plan.Custom? ==> |parts| >= 2 && AmountsOf(parts) == base)
    && (plan.Even? ==> 2 <= |parts| <= 36)
    && (forall i :: 0 <= i < |parts| ==> parts[i].amount > 0 && Days(parts[i].due, now) == 0)
    && (forall i, j :: 0 <= i < j < |parts| ==> parts[i].due <= parts[j].due)
  }

  function AmountsOf(parts: seq<Part>): int { if parts == [] then 0 else parts[0].amount + AmountsOf(parts[1..]) }

  lemma {:induction false} AmountsAre(parts: seq<Part>)
    ensures Sum(Amounts(parts)) == AmountsOf(parts)
    decreases |parts|
  {
    if parts != [] {
      AmountsAre(parts[1..]);
      SumFront(parts[0].amount, Amounts(parts[1..]));
      assert Amounts(parts) == [parts[0].amount] + Amounts(parts[1..]);
    }
  }

  lemma {:induction false} SumFront(first: int, rest: seq<int>)
    ensures Sum([first] + rest) == first + Sum(rest)
  {
    if rest == [] {
      assert [first] + rest == [first] && [first][..0] == [];
    } else {
      assert ([first] + rest)[..|rest|] == [first] + rest[..|rest| - 1];
      SumFront(first, rest[..|rest| - 1]);
    }
  }

  lemma EvenShareIs(base: int, count: int, i: int)
    requires 0 <= i < count
    ensures EvenShares(base, count)[i] == EvenShare(base, count, i)
  {
    assert BaseShare(base, count) == base / (100 * count) * 100;
  }

  lemma DateIs(first: int, days: int)
    ensures AddDays(first, days) == first + days * 86_400_000
  {
  }

  lemma EvenPartIs(plan: Plan, base: int, i: nat)
    requires plan.Even? && i < plan.count
    ensures var part := Schedule(plan, base)[i];
      && part.amount == EvenShare(base, plan.count, i)
      && part.due == plan.first + i * (if plan.interval == 0 then 30 else plan.interval) * 86_400_000
  {
    EvenShareIs(base, plan.count, i);
    DateIs(plan.first, i * if plan.interval == 0 then 30 else plan.interval);
  }

  /** A plan asks for one schedule. */
  lemma ScheduleIs(plan: Plan, base: int, parts: seq<Part>)
    requires plan.Even? ==> plan.count > 0
    ensures Schedules(plan, base, parts) <==> parts == Schedule(plan, base)
  {
    if plan.Even? {
      forall i | 0 <= i < plan.count ensures Schedule(plan, base)[i].amount == EvenShare(base, plan.count, i)
        && Schedule(plan, base)[i].due
           == plan.first + i * (if plan.interval == 0 then 30 else plan.interval) * 86_400_000
      {
        EvenPartIs(plan, base, i);
      }
      if Schedules(plan, base, parts) {
        forall i | 0 <= i < plan.count ensures parts[i] == Schedule(plan, base)[i] {}
      }
    }
  }

  lemma {:induction false} DatesAscend(parts: seq<Part>, i: nat, j: nat)
    requires i <= j < |parts| && forall k :: 0 < k < |parts| ==> parts[k - 1].due <= parts[k].due
    ensures parts[i].due <= parts[j].due
    decreases j
  {
    if i < j { DatesAscend(parts, i, j - 1); }
  }

  lemma GoodPartsIff(parts: seq<Part>, now: int)
    ensures GoodParts(parts, now) <==>
      && (forall i :: 0 <= i < |parts| ==> parts[i].amount > 0 && Days(parts[i].due, now) == 0)
      && (forall i, j :: 0 <= i < j < |parts| ==> parts[i].due <= parts[j].due)
  {
    forall i | 0 <= i < |parts| ensures DaysLate(parts[i].due, now) == Days(parts[i].due, now) {
      DaysAre(parts[i].due, now);
    }
    if GoodParts(parts, now) {
      forall i, j | 0 <= i < j < |parts| ensures parts[i].due <= parts[j].due { DatesAscend(parts, i, j); }
    }
  }

  lemma ScheduleSplits(plan: Plan, base: int, now: int)
    requires plan.Even? ==> plan.count > 0
    ensures PlanOk(plan, base, now) <==> Splits(plan, base, now, Schedule(plan, base))
  {
    var parts := Schedule(plan, base);
    ScheduleIs(plan, base, parts);
    GoodPartsIff(parts, now);
    AmountsAre(parts);
  }

  lemma SplitsIff(plan: Plan, base: int, now: int)
    ensures PlanOk(plan, base, now) <==> exists parts :: Splits(plan, base, now, parts)
    ensures PlanOk(plan, base, now) ==> Splits(plan, base, now, Schedule(plan, base))
  {
    if plan.Custom? || plan.count > 0 {
      ScheduleSplits(plan, base, now);
      forall parts | Splits(plan, base, now, parts) ensures parts == Schedule(plan, base) {
        ScheduleIs(plan, base, parts);
      }
    }
  }

  /** Installment `i`: its part, and on the first the penalty accrued so far as a line of its own; its share of the
      daily rate, rounded to a cent; issued now, and pending. */
  ghost predicate IsInstallment(inv: Invoice, id: nat, part: Part, i: nat, now: int, row: Invoice)
    requires inv.total > 0
  {
    var penalty := if i == 0 then Accrued(inv, now) else 0;
    && row.items == [Item(if inv.category == Platform then PlatformOther else ChargeOther, true, part.amount)]
                    + (if penalty > 0 then [Item(CarriedPenalty, true, penalty)] else [])
    && row.amount == row.total == part.amount + (if penalty > 0 then penalty else 0)
    && row.tax == row.discount == row.lateDays == row.latePenalty == 0
    && row.rate == (2 * inv.rate * part.amount + inv.total) / (2 * inv.total)
    && row.issued == now && row.due == part.due && row.penaltyStart == None && row.status == Pending
    && row.paidBy == Unpaid && row.paidAt == None && row.category == inv.category && row.parent == Some(id)
  }

  lemma ChildLines(category: Category, part: Part, i: nat, carried: int)
    ensures SumItems(ChildItems(category, part, i, carried))
      == part.amount + if i == 0 && carried > 0 then carried else 0
  {
    var items := ChildItems(category, part, i, carried);
    LineTotalIs(items);
    if i == 0 && carried > 0 {
      assert items[1..][1..] == [] && items[1..][0] == items[1];
      assert LineTotal(items[1..]) == carried;
    } else {
      assert items[1..] == [];
    }
  }

  lemma ChildIs(inv: Invoice, id: nat, part: Part, i: nat, now: int)
    requires inv.total > 0 && Unsettled(inv)
    ensures IsInstallment(inv, id, part, i, now, Child(inv, id, part, i, now))
  {
    SettlementIs(inv, now);
    ChildLines(inv.category, part, i, Accrued(inv, now));
    assert 2 * (inv.rate * part.amount) == 2 * inv.rate * part.amount;
  }

  /** The parent keeps what had accrued and is split; the installments follow all other rows. */
  ghost predicate SplitInto(l: Ledger, id: nat, parts: seq<Part>, now: int, after: Ledger)
    requires id < |l.invoices| && l.invoices[id].total > 0
  {
    var inv, n := l.invoices[id], |l.invoices|;
    && after.txs == l.txs && |after.invoices| == n + |parts|
    && after.invoices[id]
       == inv.(status := Installments, lateDays := Days(Start(inv), now), latePenalty := Accrued(inv, now))
    && (forall i :: 0 <= i < n && i != id ==> after.invoices[i] == l.invoices[i])
    && (forall i :: 0 <= i < |parts| ==> IsInstallment(inv, id, parts[i], i, now, after.invoices[n + i]))
  }

  lemma ChildrenAre(l: Ledger, id: nat, parts: seq<Part>, now: int)
    requires id < |l.invoices| && l.invoices[id].total > 0 && Unsettled(l.invoices[id])
    ensures SplitInto(l, id, parts, now,
      l.(invoices := l.invoices[id := SplitParent(l.invoices[id], now)] + Children(l.invoices[id], id, parts, now)))
  {
    var inv := l.invoices[id];
    SettlementIs(inv, now);
    forall i | 0 <= i < |parts| ensures IsInstallment(inv, id, parts[i], i, now, Children(inv, id, parts, now)[i]) {
      ChildIs(inv, id, parts[i], i, now);
    }
  }

  lemma SplitOutcome(l: Ledger, id: nat, plan: Plan, now: int)
    requires RefersToInvoices(l) && id < |l.invoices|
    ensures var (after, reply) := Apply(l, OpSplit(id, plan), now);
      var inv := l.invoices[id];
      && reply == (if !Unsettled(inv) then Refused(Conflict)
                   else if inv.parent.Some? then Refused(BadRequest)
                   else if Busy(l, id, now) then Refused(Conflict)
                   else if inv.total > 0 && exists parts :: Splits(plan, inv.total, now, parts) then Accepted
                   else Refused(BadRequest))
      && (reply != Accepted ==> after == l)
      && (reply == Accepted ==>
            inv.total > 0
            && exists parts :: Splits(plan, inv.total, now, parts) && SplitInto(l, id, parts, now, after))
  {
    var inv := l.invoices[id];
    BusyIff(l, id, now);
    SplitsIff(plan, inv.total, now);
    if Split(inv, plan, PaymentInFlight(l.txs, id, now), now).Change? {
      ChildrenAre(l, id, Schedule(plan, inv.total), now);
    }
  }

  /** An operation on a row or a payment that is not there changes nothing. */
  lemma UnknownIsNotFound(l: Ledger, op: Op, now: int)
    requires RefersToInvoices(l)
    requires if op.OpVerifyPayment? then op.t >= |l.txs| else op.OnInvoice() && op.id >= |l.invoices|
    ensures Apply(l, op, now) == (l, Refused(NotFound))
  {
  }
}
