/**
 * The ledger over every run: books, penalties, quotes and split families, after any sequence of
 * operations at non-decreasing times.
 */
module LedgerRuns {
  import opened Billing
  import opened LedgerModel
  import opened LedgerRows
  import opened Options

  ghost predicate RefersToInvoices(l: Ledger) {
    forall t :: 0 <= t < |l.txs| ==> l.txs[t].invoice < |l.invoices|
  }

  ghost predicate QuoteOk(tx: Tx) { tx.amount >= tx.base >= 0 }

  /** All books balance, and every payment was started on a base no larger than its amount. */
  ghost predicate Sound(l: Ledger) {
    && RefersToInvoices(l)
    && (forall i :: 0 <= i < |l.invoices| ==> InBooks(l.invoices[i]))
    && (forall t :: 0 <= t < |l.txs| ==> QuoteOk(l.txs[t]))
  }

  /** A payment moves only from initiated to failed or verified, and from failed to verified or failed. */
  ghost predicate TxEvolves(before: Tx, after: Tx) {
    after == before
    || (!before.status.Verified? && !after.status.Initiated? && after == before.(status := after.status))
  }

  /** What one operation does to the rows that were there before it. */
  ghost predicate Steps(l: Ledger, after: Ledger, now: int) {
    && |l.invoices| <= |after.invoices| && |l.txs| <= |after.txs|
    && (forall i :: 0 <= i < |l.invoices| ==> Evolves(l.invoices[i], after.invoices[i], now))
    && (forall i :: 0 <= i < |l.invoices| && PaymentInFlight(l.txs, i, now) ==>
          after.invoices[i].total == l.invoices[i].total)
    && (forall t :: 0 <= t < |l.txs| ==> TxEvolves(l.txs[t], after.txs[t]))
    && (forall t :: |l.txs| <= t < |after.txs| ==>
          after.txs[t].invoice < |after.invoices| && after.txs[t].base == after.invoices[after.txs[t].invoice].total)
  }

  /** The books balance after the operation, and every row has evolved. */
  ghost predicate Kept(l: Ledger, after: Ledger, now: int) { Sound(after) && Steps(l, after, now) }

  lemma StepsSelf(l: Ledger, now: int)
    requires Sound(l)
    ensures Kept(l, l, now)
  {
  }

  /** One row evolves, the rest stay. */
  lemma RowSteps(l: Ledger, id: nat, row: Invoice, now: int)
    requires Sound(l) && id < |l.invoices| && InBooks(row) && Evolves(l.invoices[id], row, now)
    requires PaymentInFlight(l.txs, id, now) ==> row.total == l.invoices[id].total
    ensures Kept(l, l.(invoices := l.invoices[id := row]), now)
  {
  }

  lemma AppendSteps(l: Ledger, rows: seq<Invoice>, now: int)
    requires Sound(l) && forall i :: 0 <= i < |rows| ==> InBooks(rows[i])
    ensures Kept(l, l.(invoices := l.invoices + rows), now)
  {
  }

  /** One row after another. */
  lemma StepsCompose(l: Ledger, mid: Ledger, after: Ledger, now: int)
    requires Kept(l, mid, now) && Kept(mid, after, now) && l.txs == mid.txs
    requires forall i :: 0 <= i < |l.invoices| ==>
      mid.invoices[i] == l.invoices[i] || after.invoices[i] == mid.invoices[i]
    ensures Kept(l, after, now)
  {
  }

  lemma CompletedEvolves(inv: Invoice, now: int)
    requires InBooks(inv) && inv.status.Installments?
    ensures var paid := inv.(status := Paid, paidAt := Some(now), paidBy := ByInstallments);
      InBooks(paid) && Evolves(inv, paid, now) && paid.total == inv.total
  {
  }

  lemma ParentSteps(l: Ledger, parent: Option<nat>, now: int)
    requires Sound(l)
    ensures Kept(l, l.(invoices := CompleteParent(l.invoices, parent, now)), now)
  {
    StepsSelf(l, now);
    if parent.Some? && parent.value < |l.invoices| && l.invoices[parent.value].status.Installments? {
      var inv := l.invoices[parent.value];
      CompletedEvolves(inv, now);
      RowSteps(l, parent.value, inv.(status := Paid, paidAt := Some(now), paidBy := ByInstallments), now);
    }
    assert CompleteParent(l.invoices, parent, now) == l.invoices ==> l.(invoices := l.invoices) == l;
  }

  lemma CompleteSteps(l: Ledger, id: nat, row: Invoice, now: int)
    requires Sound(l) && id < |l.invoices| && InBooks(row) && row.status.Paid? && Evolves(l.invoices[id], row, now)
    requires row.total == l.invoices[id].total
    ensures Kept(l, l.(invoices := CompleteParent(l.invoices[id := row], row.parent, now)), now)
  {
    var mid := l.(invoices := l.invoices[id := row]);
    RowSteps(l, id, row, now);
    ParentSteps(mid, row.parent, now);
    StepsCompose(l, mid, mid.(invoices := CompleteParent(mid.invoices, row.parent, now)), now);
  }

  /** What a decision about a row may do. */
  ghost predicate DecisionOk(l: Ledger, id: nat, decision: Decision, now: int)
    requires id < |l.invoices|
  {
    decision.Change? ==>
      && InBooks(decision.row) && Evolves(l.invoices[id], decision.row, now)
      && (PaymentInFlight(l.txs, id, now) ==> decision.row.total == l.invoices[id].total)
  }

  lemma OnRowSteps(l: Ledger, id: nat, decision: Decision, now: int)
    requires Sound(l) && id < |l.invoices| && DecisionOk(l, id, decision, now)
    ensures Kept(l, OnRow(l, id, decision).0, now)
  {
    match decision
    case Change(row) => RowSteps(l, id, row, now);
    case Refuse(_) => StepsSelf(l, now);
  }

  lemma OnPaidRowSteps(l: Ledger, id: nat, decision: Decision, now: int)
    requires Sound(l) && id < |l.invoices| && DecisionOk(l, id, decision, now)
    requires decision.Change? ==> decision.row.status.Paid? && decision.row.total == l.invoices[id].total
    ensures Kept(l, OnPaidRow(l, id, decision, now).0, now)
  {
    match decision
    case Change(row) => CompleteSteps(l, id, row, now);
    case Refuse(_) => StepsSelf(l, now);
  }

  lemma CreateSteps(l: Ledger, op: Op, now: int)
    requires Sound(l) && op.OpCreate?
    ensures Kept(l, Apply(l, op, now).0, now)
  {
    CreateInBooks(op.category, op.items, op.amount, op.tax, op.rate, op.due, now);
    var decision := Create(op.category, op.items, op.amount, op.tax, op.rate, op.due, now);
    match decision
    case Change(row) => AppendSteps(l, [row], now);
    case Refuse(_) => StepsSelf(l, now);
  }

  lemma UpdateSteps(l: Ledger, id: nat, edit: Edit, now: int)
    requires Sound(l) && id < |l.invoices| && edit.Valid()
    ensures Kept(l, Apply(l, OpUpdate(id, edit), now).0, now)
  {
    var inv, inFlight := l.invoices[id], PaymentInFlight(l.txs, id, now);
    if Update(inv, edit, inFlight, now).Change? { UpdateEvolves(inv, edit, inFlight, now); }
    OnRowSteps(l, id, Update(inv, edit, inFlight, now), now);
  }

  lemma DiscountSteps(l: Ledger, id: nat, discount: int, now: int)
    requires Sound(l) && id < |l.invoices|
    ensures Kept(l, Apply(l, OpDiscount(id, discount), now).0, now)
  {
    var inv, inFlight := l.invoices[id], PaymentInFlight(l.txs, id, now);
    if Discount(inv, discount, inFlight).Change? { DiscountEvolves(inv, discount, inFlight, now); }
    OnRowSteps(l, id, Discount(inv, discount, inFlight), now);
  }

  lemma CancelSteps(l: Ledger, id: nat, now: int)
    requires Sound(l) && id < |l.invoices|
    ensures Kept(l, Apply(l, OpCancel(id), now).0, now)
  {
    var inv, inFlight := l.invoices[id], PaymentInFlight(l.txs, id, now);
    if Cancel(inv, inFlight).Change? { CancelEvolves(inv, inFlight, now); }
    OnRowSteps(l, id, Cancel(inv, inFlight), now);
  }

  lemma ExtendSteps(l: Ledger, id: nat, due: int, now: int)
    requires Sound(l) && id < |l.invoices|
    ensures Kept(l, Apply(l, OpExtend(id, due), now).0, now)
  {
    var inv, inFlight := l.invoices[id], PaymentInFlight(l.txs, id, now);
    if Extend(inv, due, inFlight, now).Change? { ExtendEvolves(inv, due, inFlight, now); }
    OnRowSteps(l, id, Extend(inv, due, inFlight, now), now);
  }

  lemma SettleSteps(l: Ledger, id: nat, paidAt: Option<int>, now: int)
    requires Sound(l) && id < |l.invoices|
    ensures Kept(l, Apply(l, OpSettle(id, paidAt), now).0, now)
  {
    var inv, inFlight := l.invoices[id], PaymentInFlight(l.txs, id, now);
    if SettleManually(inv, paidAt, inFlight, now).Change? { SettleEvolves(inv, paidAt, inFlight, now); }
    OnPaidRowSteps(l, id, SettleManually(inv, paidAt, inFlight, now), now);
  }

  lemma ConfirmSteps(l: Ledger, id: nat, now: int)
    requires Sound(l) && id < |l.invoices|
    ensures Kept(l, Apply(l, OpConfirm(id), now).0, now)
  {
    if Confirm(l.invoices[id]).Change? { ConfirmEvolves(l.invoices[id], now); }
    OnPaidRowSteps(l, id, Confirm(l.invoices[id]), now);
  }

  ghost predicate NewChild(row: Invoice, id: nat) {
    InBooks(row) && row.status.Pending? && row.parent == Some(id) && row.paidBy.Unpaid?
  }

  lemma ChildrenInBooks(inv: Invoice, id: nat, plan: Plan, inFlight: bool, now: int)
    requires InBooks(inv) && Split(inv, plan, inFlight, now).Change?
    ensures var rows := Children(inv, id, Schedule(plan, inv.total), now);
      forall i :: 0 <= i < |rows| ==> NewChild(rows[i], id)
  {
    var parts := Schedule(plan, inv.total);
    forall i | 0 <= i < |parts| ensures NewChild(Children(inv, id, parts, now)[i], id) {
      ChildTotal(inv, id, parts[i], i, now);
    }
  }

  lemma SplitSteps(l: Ledger, id: nat, plan: Plan, now: int)
    requires Sound(l) && id < |l.invoices|
    ensures Kept(l, Apply(l, OpSplit(id, plan), now).0, now)
  {
    var inv, inFlight := l.invoices[id], PaymentInFlight(l.txs, id, now);
    if Split(inv, plan, inFlight, now).Change? {
      SplitEvolves(inv, plan, inFlight, now);
      SplitRowsStep(l, id, SplitParent(inv, now), Children(inv, id, Schedule(plan, inv.total), now), now) by {
        ChildrenInBooks(inv, id, plan, inFlight, now);
      }
    } else {
      StepsSelf(l, now);
    }
  }

  lemma SplitRowsStep(l: Ledger, id: nat, parent: Invoice, rows: seq<Invoice>, now: int)
    requires Sound(l) && id < |l.invoices| && InBooks(parent) && Evolves(l.invoices[id], parent, now)
    requires PaymentInFlight(l.txs, id, now) ==> parent.total == l.invoices[id].total
    requires forall i :: 0 <= i < |rows| ==> NewChild(rows[i], id)
    ensures Kept(l, l.(invoices := l.invoices[id := parent] + rows), now)
  {
    var mid := l.(invoices := l.invoices[id := parent]);
    RowSteps(l, id, parent, now);
    AppendSteps(mid, rows, now);
    StepsCompose(l, mid, mid.(invoices := mid.invoices + rows), now);
  }

  /** A payment is recorded on the total it finds. */
  lemma RecordSteps(l: Ledger, tx: Tx, now: int)
    requires Sound(l) && tx.invoice < |l.invoices| && QuoteOk(tx) && tx.base == l.invoices[tx.invoice].total
    ensures Kept(l, l.(txs := l.txs + [tx]), now)
  {
    StepsSelf(l, now);
  }

  lemma SweptSteps(l: Ledger, id: nat, now: int)
    requires Sound(l) && id < |l.invoices|
    ensures Kept(l, l.(invoices := l.invoices[id := Swept(l.invoices[id], now)]), now)
    ensures Swept(l.invoices[id], now).total == l.invoices[id].total
  {
    SweptEvolves(l.invoices[id], now);
    RowSteps(l, id, Swept(l.invoices[id], now), now);
  }

  lemma StartSteps(l: Ledger, op: Op, now: int)
    requires Sound(l) && op.OpStartPayment? && op.id < |l.invoices|
    ensures Kept(l, Apply(l, op, now).0, now)
  {
    var inv := l.invoices[op.id];
    var s := Settle(inv, now);
    var marked := l.(invoices := l.invoices[op.id := Swept(inv, now)]);
    StepsSelf(l, now);
    SweptSteps(l, op.id, now);
    if Apply(l, op, now).0.txs != l.txs {
      var tx := Apply(l, op, now).0.txs[|l.txs|];
      QuotePayable(inv, now);
      RecordSteps(marked, tx, now);
      StepsCompose(l, marked, marked.(txs := l.txs + [tx]), now);
    }
  }

  lemma QuotePayable(inv: Invoice, now: int)
    requires InBooks(inv)
    ensures Settle(inv, now).payable >= Settle(inv, now).base == inv.total >= 0
  {
    SettlePenalty(inv, now);
    TotalAboveCarried(inv);
  }

  /** A payment not yet verified is decided. */
  lemma DecideSteps(l: Ledger, t: nat, status: TxStatus, now: int)
    requires Sound(l) && t < |l.txs| && !l.txs[t].status.Verified? && !status.Initiated?
    ensures Kept(l, l.(txs := l.txs[t := l.txs[t].(status := status)]), now)
  {
    StepsSelf(l, now);
  }

  lemma VerifySteps(l: Ledger, op: Op, now: int)
    requires Sound(l) && op.OpVerifyPayment? && op.t < |l.txs|
    ensures Kept(l, Apply(l, op, now).0, now)
  {
    var tx := l.txs[op.t];
    if tx.status.Verified? {
      StepsSelf(l, now);
    } else if !op.ok || !op.confirmed {
      DecideSteps(l, op.t, Failed, now);
    } else {
      var mid := l.(invoices := l.invoices[tx.invoice := Claimed(l.invoices[tx.invoice], tx, now)]);
      ClaimedEvolves(l.invoices[tx.invoice], tx, now);
      RowSteps(l, tx.invoice, Claimed(l.invoices[tx.invoice], tx, now), now);
      DecideSteps(mid, op.t, Verified, now);
      StepsCompose(l, mid, mid.(txs := mid.txs[op.t := tx.(status := Verified)]), now);
    }
  }

  lemma ListSteps(l: Ledger, op: Op, now: int)
    requires Sound(l) && op.OpList?
    ensures Kept(l, Apply(l, op, now).0, now)
  {
    forall i | 0 <= i < |l.invoices|
      ensures var row := Sweep(l, op.listed, now).invoices[i];
        InBooks(row) && Evolves(l.invoices[i], row, now) && row.total == l.invoices[i].total
    {
      SweptEvolves(l.invoices[i], now);
    }
  }

  lemma ApplyKept(l: Ledger, op: Op, now: int)
    requires Sound(l) && op.Valid()
    ensures Kept(l, Apply(l, op, now).0, now)
  {
    if (op.OnInvoice() && op.id >= |l.invoices|) || (op.OpVerifyPayment? && op.t >= |l.txs|) {
      StepsSelf(l, now);
    } else {
      match op
      case OpCreate(_, _, _, _, _, _) => CreateSteps(l, op, now);
      case OpUpdate(id, edit) => UpdateSteps(l, id, edit, now);
      case OpDiscount(id, discount) => DiscountSteps(l, id, discount, now);
      case OpCancel(id) => CancelSteps(l, id, now);
      case OpExtend(id, due) => ExtendSteps(l, id, due, now);
      case OpSplit(id, plan) => SplitSteps(l, id, plan, now);
      case OpSettle(id, paidAt) => SettleSteps(l, id, paidAt, now);
      case OpStartPayment(_, _, _, _) => StartSteps(l, op, now);
      case OpVerifyPayment(_, _, _) => VerifySteps(l, op, now);
      case OpConfirm(id) => ConfirmSteps(l, id, now);
      case OpList(_) => ListSteps(l, op, now);
    }
  }

  /** Every operation keeps the books and evolves every row. */
  lemma ApplySteps(l: Ledger, op: Op, now: int)
    requires Sound(l) && op.Valid()
    ensures var (after, _) := Apply(l, op, now); Sound(after) && Steps(l, after, now)
  {
    ApplyKept(l, op, now);
  }

  // ---------------------------------------------------------------- runs

  datatype Event = Event(now: int, op: Op)

  /** Requests of the right shape, at non-decreasing times. */
  ghost predicate WellTimed(events: seq<Event>) {
    && (forall i :: 0 <= i < |events| ==> events[i].op.Valid())
    && (forall i, j :: 0 <= i < j < |events| ==> events[i].now <= events[j].now)
  }

  const EMPTY := Ledger([], [])

  /** The ledger after a run of operations. */
  ghost function After(l: Ledger, events: seq<Event>): Ledger
    requires Sound(l) && WellTimed(events)
    ensures Sound(After(l, events))
  {
    if events == [] then l
    else
      var before, e := After(l, events[..|events| - 1]), events[|events| - 1];
      ApplySteps(before, e.op, e.now);
      Apply(before, e.op, e.now).0
  }

  /** No operation lowers the penalty at its own moment. */
  lemma PenaltyNeverDropsNow(l: Ledger, op: Op, now: int, id: nat)
    requires Sound(l) && op.Valid() && id < |l.invoices|
    ensures var after := Apply(l, op, now).0;
      id < |after.invoices| && OpenPenalty(after.invoices[id], now) >= OpenPenalty(l.invoices[id], now)
  {
    ApplySteps(l, op, now);
    PenaltyNeverDrops(l.invoices[id], Apply(l, op, now).0.invoices[id], now, now);
  }

  /** An accrued penalty is never erased: over any further run of operations its start and its rate are kept, so at
      every later time it is at least what it would have been. */
  lemma {:induction false} PenaltyNeverErased(l: Ledger, more: seq<Event>, id: nat, from: int, t: int)
    requires Sound(l) && WellTimed(more) && id < |l.invoices|
    requires forall i :: 0 <= i < |more| ==> from <= more[i].now <= t
    requires from <= t && DaysLate(Anchor(l.invoices[id]), from) > 0
    ensures id < |After(l, more).invoices|
    ensures Day(Anchor(After(l, more).invoices[id])) <= Day(Anchor(l.invoices[id]))
      && After(l, more).invoices[id].rate >= l.invoices[id].rate
    ensures OpenPenalty(After(l, more).invoices[id], t) >= OpenPenalty(l.invoices[id], t)
  {
    DayMonotone(from, t);
    if more != [] {
      var init, e := more[..|more| - 1], more[|more| - 1];
      PenaltyNeverErased(l, init, id, from, t);
      ApplySteps(After(l, init), e.op, e.now);
      DayMonotone(from, e.now);
    }
    TimesMonotone(DaysLate(Anchor(l.invoices[id]), t), l.invoices[id].rate,
                  DaysLate(Anchor(After(l, more).invoices[id]), t), After(l, more).invoices[id].rate);
  }

  /** Carried penalty lines survive every run, and the total never falls below them. */
  lemma {:induction false} CarriedSurvivesRuns(l: Ledger, more: seq<Event>, id: nat)
    requires Sound(l) && WellTimed(more) && id < |l.invoices|
    ensures id < |After(l, more).invoices|
    ensures var inv := After(l, more).invoices[id];
      Carried(inv.items) == Carried(l.invoices[id].items) && inv.total >= CarriedTotal(l.invoices[id].items) >= 0
  {
    if more != [] {
      CarriedSurvivesRuns(l, more[..|more| - 1], id);
      ApplySteps(After(l, more[..|more| - 1]), more[|more| - 1].op, more[|more| - 1].now);
    }
    TotalAboveCarried(After(l, more).invoices[id]);
  }

  /** A paid invoice never changes again. */
  lemma {:induction false} PaidIsTerminal(l: Ledger, more: seq<Event>, id: nat)
    requires Sound(l) && WellTimed(more) && id < |l.invoices| && l.invoices[id].status.Paid?
    ensures id < |After(l, more).invoices| && After(l, more).invoices[id] == l.invoices[id]
  {
    if more != [] {
      PaidIsTerminal(l, more[..|more| - 1], id);
      ApplySteps(After(l, more[..|more| - 1]), more[|more| - 1].op, more[|more| - 1].now);
    }
  }

  /** A split parent stays split until it is paid, and changes in nothing else. */
  lemma {:induction false} SplitOnlyGetsPaid(l: Ledger, more: seq<Event>, id: nat)
    requires Sound(l) && WellTimed(more) && id < |l.invoices| && l.invoices[id].status.Installments?
    ensures id < |After(l, more).invoices|
    ensures var before, inv := l.invoices[id], After(l, more).invoices[id];
      inv == before
      || (inv.paidAt.Some? && inv == before.(status := Paid, paidAt := inv.paidAt, paidBy := ByInstallments))
  {
    if more != [] {
      SplitOnlyGetsPaid(l, more[..|more| - 1], id);
      ApplySteps(After(l, more[..|more| - 1]), more[|more| - 1].op, more[|more| - 1].now);
    }
  }

  // ---------------------------------------------------------------- frozen equals charged

  /** While a payment is fresh and undecided, its invoice still has the total it was started on. */
  ghost predicate QuotesHold(l: Ledger, now: int)
    requires RefersToInvoices(l)
  {
    forall t :: 0 <= t < |l.txs| && l.txs[t].status.Initiated? && l.txs[t].created >= now - HALF_HOUR ==>
      l.invoices[l.txs[t].invoice].total == l.txs[t].base
  }

  lemma StepKeepsQuotes(l: Ledger, op: Op, before: int, now: int)
    requires Sound(l) && op.Valid() && before <= now && QuotesHold(l, before)
    ensures var (after, _) := Apply(l, op, now); Sound(after) && QuotesHold(after, now)
  {
    ApplySteps(l, op, now);
    var after := Apply(l, op, now).0;
    forall t | 0 <= t < |after.txs| && after.txs[t].status.Initiated? && after.txs[t].created >= now - HALF_HOUR
      ensures after.invoices[after.txs[t].invoice].total == after.txs[t].base
    {
      if t < |l.txs| {
        assert TxEvolves(l.txs[t], after.txs[t]);
        assert PaymentInFlight(l.txs, l.txs[t].invoice, now);
      }
    }
  }

  lemma {:induction false} RunKeepsQuotes(events: seq<Event>, now: int)
    requires WellTimed(events) && forall i :: 0 <= i < |events| ==> events[i].now <= now
    ensures QuotesHold(After(EMPTY, events), now)
  {
    if events != [] {
      var init, e := events[..|events| - 1], events[|events| - 1];
      RunKeepsQuotes(init, e.now);
      StepKeepsQuotes(After(EMPTY, init), e.op, e.now, e.now);
    }
  }

  /** A confirmed callback of an undecided payment less than half an hour old freezes on its open invoice exactly what
      was charged; a closed invoice it leaves alone. */
  lemma FrozenIsCharged(events: seq<Event>, t: nat, now: int)
    requires WellTimed(events) && forall i :: 0 <= i < |events| ==> events[i].now <= now
    ensures var l := After(EMPTY, events);
      t < |l.txs| && l.txs[t].status.Initiated? && l.txs[t].created >= now - HALF_HOUR ==> ChargesExactly(l, t, now)
  {
    RunKeepsQuotes(events, now);
  }

  /** What a confirmed callback does: the invoice's frozen payable is what was charged, or the invoice was closed and is
      left alone for review. */
  ghost predicate ChargesExactly(l: Ledger, t: nat, now: int)
    requires RefersToInvoices(l) && t < |l.txs|
  {
    var (after, reply) := Apply(l, OpVerifyPayment(t, true, true), now);
    var id := l.txs[t].invoice;
    && |after.invoices| == |l.invoices| && |after.txs| == |l.txs| && after.txs[t].status.Verified?
    && if IsOpen(l.invoices[id].status)
       then reply.Accepted? && after.invoices[id].status.Awaiting?
            && after.invoices[id].total + after.invoices[id].latePenalty == l.txs[t].amount
       else reply.NeedsReview? && after.invoices == l.invoices
  }

  /** When that is, for any payment not yet verified whose invoice is open: the total is still the one the payment was
      started on, or it was started on a total of zero and the total is now at most the charge. */
  lemma ChargesExactlyIff(l: Ledger, t: nat, now: int)
    requires Sound(l) && t < |l.txs| && !l.txs[t].status.Verified? && IsOpen(l.invoices[l.txs[t].invoice].status)
    ensures ChargesExactly(l, t, now) <==>
            var tx := l.txs[t];
            var total := l.invoices[tx.invoice].total;
            total == tx.base || (tx.base == 0 && total <= tx.amount)
  {
    var tx := l.txs[t];
    assert QuoteOk(tx);
    FrozenEqualsCharged(l.invoices[tx.invoice], tx, now);
  }

  lemma AfterOne(l: Ledger, events: seq<Event>, e: Event)
    requires Sound(l) && WellTimed(events) && e.op.Valid() && forall i :: 0 <= i < |events| ==> events[i].now <= e.now
    ensures WellTimed(events + [e]) && After(l, events + [e]) == Apply(After(l, events), e.op, e.now).0
  {
    assert (events + [e])[..|events|] == events;
  }

  /** Without freshness it can fail: 100 Rials are charged, the payment is reported failed, the invoice is discounted by
      40, and then the same payment is confirmed. */
  lemma FailedPaymentCanDiffer() returns (events: seq<Event>)
    ensures WellTimed(events) && After(EMPTY, events) == Ledger([Discounted()], [Charged(Failed)])
    ensures !ChargesExactly(Ledger([Discounted()], [Charged(Failed)]), 0, 0) && IsOpen(Discounted().status)
  {
    ExampleCreate();
    ExampleStart();
    ExampleFail();
    ExampleDiscount();
    var ops := [OpCreate(Charge, [], 10_000, 0, 0, DAY), OpStartPayment(0, 0, None, true),
      OpVerifyPayment(0, false, false), OpDiscount(0, 4_000)];
    events := [];
    for i := 0 to 4
      invariant WellTimed(events) && forall k :: 0 <= k < |events| ==> events[k].now == 0
      invariant i == 0 ==> After(EMPTY, events) == EMPTY
      invariant i == 1 ==> After(EMPTY, events) == Ledger([Issued()], [])
      invariant i == 2 ==> After(EMPTY, events) == Ledger([Issued()], [Charged(Initiated)])
      invariant i == 3 ==> After(EMPTY, events) == Ledger([Issued()], [Charged(Failed)])
      invariant i == 4 ==> After(EMPTY, events) == Ledger([Discounted()], [Charged(Failed)])
    {
      AfterOne(EMPTY, events, Event(0, ops[i]));
      events := events + [Event(0, ops[i])];
    }
  }

  function Issued(): Invoice { NewInvoice(Charge, [], 10_000, 0, 0, DAY, None, 0) }

  function Discounted(): Invoice { Issued().(discount := 4_000, total := 6_000) }

  function Charged(status: TxStatus): Tx { Tx(0, 10_000, 10_000, 0, 0, Derived(0, 0, 10_000, 0), status) }

  lemma ExampleCreate()
    ensures Apply(EMPTY, OpCreate(Charge, [], 10_000, 0, 0, DAY), 0).0 == Ledger([Issued()], [])
  {
  }

  lemma ExampleStart()
    ensures Apply(Ledger([Issued()], []), OpStartPayment(0, 0, None, true), 0).0
      == Ledger([Issued()], [Charged(Initiated)])
  {
    assert Settle(Issued(), 0) == Settlement(10_000, 0, 0, 10_000, false);
    assert Swept(Issued(), 0) == Issued();
  }

  lemma ExampleFail()
    ensures Apply(Ledger([Issued()], [Charged(Initiated)]), OpVerifyPayment(0, false, false), 0).0
      == Ledger([Issued()], [Charged(Failed)])
  {
  }

  lemma ExampleDiscount()
    ensures Apply(Ledger([Issued()], [Charged(Failed)]), OpDiscount(0, 4_000), 0).0
      == Ledger([Discounted()], [Charged(Failed)])
    ensures !ChargesExactly(Ledger([Discounted()], [Charged(Failed)]), 0, 0)
  {
  }
}
