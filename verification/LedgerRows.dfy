/**
 * What every operation keeps of an invoice: the books balance, carried penalty lines survive, an
 * accrued penalty is never erased, and closed invoices stay closed.
 */
module LedgerRows {
  import opened Billing
  import opened LedgerModel
  import opened Options

  /** The books of one invoice balance, and no discount reaches the carried penalty. */
  ghost predicate InBooks(inv: Invoice) {
    && inv.total == inv.amount + inv.tax - inv.discount
    && inv.amount > 0 && inv.tax >= 0 && inv.discount >= 0 && inv.rate >= 0 && inv.latePenalty >= 0
    && (inv.items != [] ==> inv.amount == SumItems(inv.items))
    && AllPositive(inv.items)
    && inv.discount <= inv.amount + inv.tax - CarriedTotal(inv.items)
  }

  /** The carried penalty can be neither discounted nor edited away. */
  lemma TotalAboveCarried(inv: Invoice)
    requires InBooks(inv)
    ensures inv.total >= CarriedTotal(inv.items) >= 0
  {
    SelectPositive(inv.items, true);
  }

  /** A penalty that has started keeps its start and its rate. */
  ghost predicate PenaltyKept(before: Invoice, after: Invoice, now: int) {
    DaysLate(Anchor(before), now) > 0 ==> Day(Anchor(after)) <= Day(Anchor(before)) && after.rate >= before.rate
  }

  /** What any one operation may do to an invoice it does not create. */
  ghost predicate Evolves(before: Invoice, after: Invoice, now: int) {
    && after.parent == before.parent && after.category == before.category && after.issued == before.issued
    && Carried(after.items) == Carried(before.items)
    && PenaltyKept(before, after, now)
    && (before.status.Paid? ==> after == before)
    && (before.status.Awaiting? ==> after == before || after == before.(status := Paid))
    && (before.status.Installments? ==>
          after == before || after == before.(status := Paid, paidAt := Some(now), paidBy := ByInstallments))
    && (before.status.Cancelled? ==> after.status.Cancelled? || IsOpen(after.status))
    && (after.status.Installments? ==> before.status.Installments? || (IsOpen(before.status) && before.parent.None?))
  }

  /** The penalty as if the invoice were open. */
  function OpenPenalty(inv: Invoice, t: int): int { Times(DaysLate(Anchor(inv), t), inv.rate) }

  /** At the moment of the step the penalty does not drop; once late it is never behind afterwards. */
  lemma PenaltyNeverDrops(before: Invoice, after: Invoice, now: int, t: int)
    requires before.rate >= 0 && after.rate >= 0 && PenaltyKept(before, after, now) && now <= t
    ensures OpenPenalty(after, now) >= OpenPenalty(before, now)
    ensures DaysLate(Anchor(before), now) > 0 ==> OpenPenalty(after, t) >= OpenPenalty(before, t)
    ensures DaysLate(Anchor(before), now) > 0 ==> DaysLate(Anchor(after), t) >= DaysLate(Anchor(before), t) > 0
  {
    DayMonotone(now, t);
    if DaysLate(Anchor(before), now) > 0 {
      TimesMonotone(DaysLate(Anchor(before), now), before.rate, DaysLate(Anchor(after), now), after.rate);
      TimesMonotone(DaysLate(Anchor(before), t), before.rate, DaysLate(Anchor(after), t), after.rate);
    } else {
      TimesMonotone(0, 0, DaysLate(Anchor(after), now), after.rate);
      assert Times(0, before.rate) == 0;
    }
  }

  lemma SettlePenalty(inv: Invoice, t: int)
    requires InBooks(inv)
    ensures Settle(inv, t).latePenalty >= 0 && Settle(inv, t).payable == inv.total + Settle(inv, t).latePenalty >= 0
  {
    TimesMonotone(0, 0, DaysLate(Anchor(inv), t), inv.rate);
    TotalAboveCarried(inv);
  }

  // ---------------------------------------------------------------- operation by operation

  lemma CreateInBooks(category: Category, items: seq<Item>, amount: int, tax: int, rate: int, due: int, now: int)
    ensures match Create(category, items, amount, tax, rate, due, now)
      case Change(row) => InBooks(row) && row.status.Pending? && row.parent.None? && row.paidBy.Unpaid?
      case Refuse(_) => true
  {
    if WellFormedItems(items, category) { EnteredCarriesNothing(items, category); }
  }

  /** Lines a caller may enter are positive, and none is a carried penalty. */
  lemma {:induction false} NothingCarried(items: seq<Item>)
    requires forall i :: 0 <= i < |items| ==> !items[i].kind.CarriedPenalty?
    ensures Carried(items) == []
  {
    if items != [] { NothingCarried(items[..|items| - 1]); }
  }

  lemma EnteredCarriesNothing(items: seq<Item>, category: Category)
    requires WellFormedItems(items, category)
    ensures AllPositive(items) && Carried(items) == []
  {
    forall i | 0 <= i < |items| ensures !items[i].kind.CarriedPenalty? && items[i].amount > 0 {
      assert WellFormedItem(items[i], category);
    }
    NothingCarried(items);
  }

  lemma EditedItemsCarry(inv: Invoice, edit: Edit)
    requires AllPositive(inv.items)
    requires edit.items.Some? ==> WellFormedItems(Editable(edit.items.value), inv.category)
    ensures Carried(EditedItems(inv, edit)) == Carried(inv.items) && AllPositive(EditedItems(inv, edit))
    ensures edit.items.Some? ==> EditedItems(inv, edit) != []
  {
    if edit.items.Some? {
      CarriedSurvives(edit.items.value, inv.items);
      EnteredCarriesNothing(Editable(edit.items.value), inv.category);
      SelectPositive(inv.items, true);
    }
  }

  /** `preservedPenaltyStart`: a started penalty keeps counting from its start, unless the new date is earlier. */
  lemma StartIsPreserved(inv: Invoice, due: int, now: int)
    ensures DaysLate(Anchor(inv), now) > 0 ==>
      var after := inv.(due := due, penaltyStart := PreservedPenaltyStart(inv, due, now));
      Anchor(after) == if due <= Anchor(inv) then due else Anchor(inv)
  {
  }

  lemma UpdateEvolves(inv: Invoice, edit: Edit, inFlight: bool, now: int)
    requires InBooks(inv) && edit.Valid() && Update(inv, edit, inFlight, now).Change?
    ensures var row := Update(inv, edit, inFlight, now).row;
      InBooks(row) && Evolves(inv, row, now) && !inFlight && row.paidBy == inv.paidBy && !row.status.Paid?
  {
    var row := Update(inv, edit, inFlight, now).row;
    EditedItemsCarry(inv, edit);
    StartIsPreserved(inv, row.due, now);
    if row.due <= Anchor(inv) { DayMonotone(row.due, Anchor(inv)); }
  }

  lemma DiscountEvolves(inv: Invoice, discount: int, inFlight: bool, now: int)
    requires InBooks(inv) && Discount(inv, discount, inFlight).Change?
    ensures var row := Discount(inv, discount, inFlight).row;
      InBooks(row) && Evolves(inv, row, now) && !inFlight && row.paidBy == inv.paidBy && !row.status.Paid?
  {
  }

  lemma CancelEvolves(inv: Invoice, inFlight: bool, now: int)
    requires InBooks(inv) && Cancel(inv, inFlight).Change?
    ensures var row := Cancel(inv, inFlight).row;
      InBooks(row) && Evolves(inv, row, now) && row.total == inv.total && row.paidBy == inv.paidBy && !row.status.Paid?
  {
  }

  lemma ExtendEvolves(inv: Invoice, due: int, inFlight: bool, now: int)
    requires InBooks(inv) && Extend(inv, due, inFlight, now).Change?
    ensures var row := Extend(inv, due, inFlight, now).row;
      InBooks(row) && Evolves(inv, row, now) && row.total == inv.total && row.paidBy == inv.paidBy && !row.status.Paid?
  {
    StartIsPreserved(inv, due, now);
    if due <= Anchor(inv) { DayMonotone(due, Anchor(inv)); }
  }

  lemma SettleEvolves(inv: Invoice, paidAt: Option<int>, inFlight: bool, now: int)
    requires InBooks(inv) && SettleManually(inv, paidAt, inFlight, now).Change?
    ensures var row := SettleManually(inv, paidAt, inFlight, now).row;
      InBooks(row) && Evolves(inv, row, now) && row.total == inv.total && row.status.Paid? && row.paidBy.Manual?
      && row.total + row.latePenalty == Settle(inv, Or(paidAt, now)).payable
  {
    SettlePenalty(inv, Or(paidAt, now));
  }

  lemma ConfirmEvolves(inv: Invoice, now: int)
    requires InBooks(inv) && Confirm(inv).Change?
    ensures var row := Confirm(inv).row;
      InBooks(row) && Evolves(inv, row, now) && row.total == inv.total && row.status.Paid? && row.paidBy == inv.paidBy
  {
  }

  lemma SweptEvolves(inv: Invoice, now: int)
    requires InBooks(inv)
    ensures InBooks(Swept(inv, now)) && Evolves(inv, Swept(inv, now), now) && Swept(inv, now).total == inv.total
    ensures Swept(inv, now).paidBy == inv.paidBy
      && (Swept(inv, now).status == inv.status || Swept(inv, now).status.Overdue?)
    ensures IsOpen(Swept(inv, now).status) == IsOpen(inv.status)
  {
  }

  lemma ClaimedEvolves(inv: Invoice, tx: Tx, now: int)
    requires InBooks(inv)
    ensures InBooks(Claimed(inv, tx, now)) && Evolves(inv, Claimed(inv, tx, now), now)
      && Claimed(inv, tx, now).total == inv.total
    ensures !IsOpen(inv.status) ==> Claimed(inv, tx, now) == inv
    ensures IsOpen(inv.status) ==> Claimed(inv, tx, now).status.Awaiting? && Claimed(inv, tx, now).paidBy.Gateway?
  {
  }

  lemma SplitEvolves(inv: Invoice, plan: Plan, inFlight: bool, now: int)
    requires InBooks(inv) && Split(inv, plan, inFlight, now).Change?
    ensures var row := Split(inv, plan, inFlight, now).row;
      InBooks(row) && Evolves(inv, row, now) && row.total == inv.total && row.status.Installments?
        && row.paidBy == inv.paidBy
      && row.parent.None?
  {
    SettlePenalty(inv, now);
  }

  /** What a verified payment freezes is exactly what was charged, if and only if the total is still the base it was
      started on, or that base was zero and the total is at most the charge. */
  lemma FrozenEqualsCharged(inv: Invoice, tx: Tx, now: int)
    requires IsOpen(inv.status) && tx.amount >= tx.base >= 0
    ensures var after := Claimed(inv, tx, now);
      after.total + after.latePenalty == tx.amount
      <==> inv.total == tx.base || (tx.base == 0 && inv.total <= tx.amount)
  {
  }

  // ---------------------------------------------------------------- splitting conserves the debt

  function Totals(rows: seq<Invoice>): int {
    if rows == [] then 0 else Totals(rows[..|rows| - 1]) + rows[|rows| - 1].total
  }

  function Rates(rows: seq<Invoice>): int {
    if rows == [] then 0 else Rates(rows[..|rows| - 1]) + rows[|rows| - 1].rate
  }

  function Payables(rows: seq<Invoice>, now: int): int {
    if rows == [] then 0 else Payables(rows[..|rows| - 1], now) + Settle(rows[|rows| - 1], now).payable
  }

  /** The `i`th installment carries its share and, if it is the first, the accrued penalty. */
  lemma ChildTotal(inv: Invoice, id: nat, part: Part, i: nat, now: int)
    requires InBooks(inv) && inv.total > 0 && part.amount > 0 && DaysLate(part.due, now) == 0
    ensures var c := Child(inv, id, part, i, now);
      var carried := Settle(inv, now).latePenalty;
      && InBooks(c) && c.status.Pending? && c.parent == Some(id) && c.paidBy.Unpaid?
      && c.total == part.amount + (if i == 0 then carried else 0)
      && Settle(c, now).payable == c.total
      && CarriedTotal(c.items) == (if i == 0 then carried else 0)
  {
    var carried := Settle(inv, now).latePenalty;
    SettlePenalty(inv, now);
    var share, penalty := Item(ShareKind(inv.category), true, part.amount), Item(CarriedPenalty, true, carried);
    ShareLine(share);
    if i == 0 && carried > 0 { PenaltyLine(share, penalty); }
    assert Times(0, Child(inv, id, part, i, now).rate) == 0;
  }

  lemma ShareLine(share: Item)
    requires !share.kind.CarriedPenalty?
    ensures SumItems([share]) == share.amount && Carried([share]) == [] && [share] + [] == [share]
  {
    NothingCarried([share]);
    assert [share][..|[share]| - 1] == [];
  }

  lemma PenaltyLine(share: Item, penalty: Item)
    requires !share.kind.CarriedPenalty? && penalty.kind.CarriedPenalty?
    ensures SumItems([share] + [penalty]) == share.amount + penalty.amount
    ensures Carried([share] + [penalty]) == [penalty] && SumItems([penalty]) == penalty.amount
  {
    ShareLine(share);
    assert ([share] + [penalty])[..1] == [share] && [penalty][..0] == [];
  }

  predicate PayableParts(parts: seq<Part>, now: int) {
    forall i :: 0 <= i < |parts| ==> parts[i].amount > 0 && DaysLate(parts[i].due, now) == 0
  }

  lemma {:induction false} ChildrenTotals(inv: Invoice, id: nat, parts: seq<Part>, now: int)
    requires InBooks(inv) && inv.total > 0 && PayableParts(parts, now)
    ensures Totals(Children(inv, id, parts, now))
      == Sum(Amounts(parts)) + (if parts != [] then Settle(inv, now).latePenalty else 0)
  {
    if parts != [] {
      var init, last := parts[..|parts| - 1], parts[|parts| - 1];
      ChildrenTotals(inv, id, init, now);
      ChildTotal(inv, id, last, |parts| - 1, now);
      assert Children(inv, id, parts, now)[..|init|] == Children(inv, id, init, now);
      assert Amounts(parts)[..|init|] == Amounts(init);
    }
  }

  lemma {:induction false} ChildrenPayables(inv: Invoice, id: nat, parts: seq<Part>, now: int)
    requires InBooks(inv) && inv.total > 0 && PayableParts(parts, now)
    ensures Payables(Children(inv, id, parts, now), now) == Totals(Children(inv, id, parts, now))
  {
    if parts != [] {
      var init, last := parts[..|parts| - 1], parts[|parts| - 1];
      ChildrenPayables(inv, id, init, now);
      ChildTotal(inv, id, last, |parts| - 1, now);
      assert Children(inv, id, parts, now)[..|init|] == Children(inv, id, init, now);
    }
  }

  lemma {:induction false} ChildrenRates(inv: Invoice, id: nat, parts: seq<Part>, now: int)
    requires inv.total > 0
    ensures Rates(Children(inv, id, parts, now)) == Sum(RateShares(inv.rate, Amounts(parts), inv.total))
  {
    if parts != [] {
      var init := parts[..|parts| - 1];
      ChildrenRates(inv, id, init, now);
      assert Children(inv, id, parts, now)[..|init|] == Children(inv, id, init, now);
      assert RateShares(inv.rate, Amounts(parts), inv.total)[..|init|]
        == RateShares(inv.rate, Amounts(init), inv.total);
    }
  }

  /** Every accepted schedule adds up to the base. */
  lemma ScheduleAddsUp(plan: Plan, base: int, now: int)
    requires base > 0 && PlanOk(plan, base, now)
    ensures Sum(Amounts(Schedule(plan, base))) == base && |Schedule(plan, base)| >= 2
  {
    if plan.Even? {
      EvenSplitConserves(base, plan.count);
      assert Amounts(Schedule(plan, base)) == EvenShares(base, plan.count);
    }
  }

  /** Splitting conserves the debt: the installments add up to what was payable, and their daily rates to the
      original rate within half a cent each. */
  lemma SplitConserves(inv: Invoice, id: nat, plan: Plan, inFlight: bool, now: int)
    requires InBooks(inv) && Split(inv, plan, inFlight, now).Change?
    ensures var rows := Children(inv, id, Schedule(plan, inv.total), now);
      && |rows| >= 2
      && Totals(rows) == Settle(inv, now).payable == Payables(rows, now)
      && -|rows| <= 2 * (Rates(rows) - inv.rate) <= |rows|
  {
    var parts := Schedule(plan, inv.total);
    ScheduleAddsUp(plan, inv.total, now);
    ChildrenTotals(inv, id, parts, now);
    ChildrenPayables(inv, id, parts, now);
    ChildrenRates(inv, id, parts, now);
    RatesNearlyConserved(inv.rate, Amounts(parts), inv.total);
  }

  /** An accepted split's installments together accrue no more than the original rate exactly when the leftovers of the
      rounding are at least half a cent for each installment. */
  lemma SplitRatesWithin(inv: Invoice, id: nat, plan: Plan, inFlight: bool, now: int)
    requires InBooks(inv) && Split(inv, plan, inFlight, now).Change?
    ensures var parts := Schedule(plan, inv.total);
      Rates(Children(inv, id, parts, now)) <= inv.rate
      <==> Leftovers(inv.rate, Amounts(parts), inv.total) >= inv.total * |parts|
  {
    var parts := Schedule(plan, inv.total);
    ScheduleAddsUp(plan, inv.total, now);
    ChildrenRates(inv, id, parts, now);
    RatesWithin(inv.rate, Amounts(parts), inv.total);
  }

  /** One Rial at a cent a day, split in halves: accepted, and accruing two cents a day. */
  lemma SplitCanAccrueMore(id: nat)
    ensures var inv := NewInvoice(Charge, [], 100, 0, 1, DAY, None, 0);
      var plan := Custom([Part(50, DAY), Part(50, DAY)]);
      InBooks(inv) && Split(inv, plan, false, 0).Change? && Rates(Children(inv, id, Schedule(plan, 100), 0)) == 2
  {
    var inv := NewInvoice(Charge, [], 100, 0, 1, DAY, None, 0);
    var parts := [Part(50, DAY), Part(50, DAY)];
    RatesCanExceed();
    assert Amounts(parts) == [50, 50];
    assert PlanOk(Custom(parts), 100, 0);
    ChildrenRates(inv, id, parts, 0);
  }
}
