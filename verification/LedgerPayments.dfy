/**
 * Payments as their callers see them: what one costs and records, what a callback may do, and over every run which
 * callbacks an invoice paid through the gateway must have had.
 */
module LedgerPayments {
  import opened LedgerModel
  import opened LedgerOutcomes
  import opened LedgerRuns
  import opened Options

  // ---------------------------------------------------------------- paying a row

  /** A row is paid, and the invoice it is an installment of with it, if that one is split and its others are paid. */
  ghost predicate Pays(l: Ledger, after: Ledger, id: nat, row: Invoice, now: int) {
    && after.txs == l.txs && |after.invoices| == |l.invoices| && id < |l.invoices| && after.invoices[id] == row
    && forall i: nat :: i < |l.invoices| && i != id ==> after.invoices[i] == OtherRow(l, id, row, i, now)
  }

  ghost function OtherRow(l: Ledger, id: nat, row: Invoice, i: nat, now: int): Invoice
    requires i < |l.invoices|
  {
    if row.parent == Some(i) && l.invoices[i].status == Installments && OthersPaid(l, id, i)
    then l.invoices[i].(status := Paid, paidAt := Some(now), paidBy := ByInstallments)
    else l.invoices[i]
  }

  ghost predicate OthersPaid(l: Ledger, id: nat, parent: nat) {
    forall k :: 0 <= k < |l.invoices| && k != id && l.invoices[k].parent == Some(parent) ==>
                  l.invoices[k].status == Paid
  }

  lemma OthersPaidIff(l: Ledger, id: nat, row: Invoice, parent: nat)
    requires id < |l.invoices| && row.status == Paid
    ensures AllChildrenPaid(l.invoices[id := row], parent) <==> OthersPaid(l, id, parent)
  {
    var rows := l.invoices[id := row];
    if OthersPaid(l, id, parent) {
      forall i | 0 <= i < |rows| && rows[i].parent == Some(parent) ensures rows[i].status.Paid? {
        if i != id { assert rows[i] == l.invoices[i]; }
      }
    }
    if AllChildrenPaid(rows, parent) {
      forall k | 0 <= k < |l.invoices| && k != id && l.invoices[k].parent == Some(parent)
        ensures l.invoices[k].status == Paid
      {
        assert rows[k] == l.invoices[k];
      }
    }
  }

  lemma PaidRowPays(l: Ledger, id: nat, row: Invoice, now: int)
    requires id < |l.invoices| && row.status == Paid
    ensures Pays(l, OnPaidRow(l, id, Change(row), now).0, id, row, now)
  {
    if row.parent.Some? { OthersPaidIff(l, id, row, row.parent.value); }
  }

  /** A settlement by hand: paid at the given moment or now, with the penalty accrued until that moment. */
  lemma SettleOutcome(l: Ledger, id: nat, paidAt: Option<int>, now: int)
    requires RefersToInvoices(l) && id < |l.invoices|
    ensures var (after, reply) := Apply(l, OpSettle(id, paidAt), now);
      var inv, paid := l.invoices[id], Given(paidAt, now);
      && reply == (if !Unsettled(inv) || Busy(l, id, now) then Refused(Conflict)
                   else if paid > now + 300_000 || Days(paid, inv.issued) > 0 then Refused(BadRequest)
                   else Accepted)
      && (reply != Accepted ==> after == l)
      && (reply == Accepted ==>
            Pays(l, after, id,
                 inv.(status := Paid, paidAt := Some(paid), paidBy := Manual,
                      lateDays := Days(Start(inv), paid), latePenalty := Accrued(inv, paid)), now))
  {
    var inv, paid := l.invoices[id], Given(paidAt, now);
    BusyIff(l, id, now);
    DaysAre(paid, inv.issued);
    SettlementIs(inv, paid);
    var decision := SettleManually(inv, paidAt, PaymentInFlight(l.txs, id, now), now);
    if decision.Change? { PaidRowPays(l, id, decision.row, now); }
  }

  lemma ConfirmOutcome(l: Ledger, id: nat, now: int)
    requires RefersToInvoices(l) && id < |l.invoices|
    ensures var (after, reply) := Apply(l, OpConfirm(id), now);
      && reply == (if l.invoices[id].status == Awaiting then Accepted else Refused(BadRequest))
      && (reply != Accepted ==> after == l)
      && (reply == Accepted ==> Pays(l, after, id, l.invoices[id].(status := Paid), now))
  {
    if l.invoices[id].status.Awaiting? { PaidRowPays(l, id, l.invoices[id].(status := Paid), now); }
  }

  // ---------------------------------------------------------------- starting a payment

  /** The key the caller gave, or else one made of the invoice, the payer and what is to be paid. */
  function PaymentKey(inv: Invoice, id: nat, actor: nat, supplied: Option<string>, now: int): Key {
    if supplied.Some? && supplied.value != "" then Supplied(supplied.value)
    else Derived(id, actor, inv.total + Accrued(inv, now), Days(Start(inv), now))
  }

  ghost predicate Known(l: Ledger, key: Key) { exists t :: 0 <= t < |l.txs| && l.txs[t].key == key }

  /** What is charged: the total and the penalty accrued so far, with the days it is for. */
  function Charge(inv: Invoice, id: nat, key: Key, now: int): Tx {
    Tx(id, inv.total + Accrued(inv, now), inv.total, Days(Start(inv), now), now, key, Initiated)
  }

  lemma {:induction false} FindKeyIff(txs: seq<Tx>, key: Key)
    ensures FindKey(txs, key).Some? <==> exists t :: 0 <= t < |txs| && txs[t].key == key
  {
    if txs != [] {
      var n := |txs| - 1;
      FindKeyIff(txs[..n], key);
      if FindKey(txs[..n], key).Some? {
        var t :| 0 <= t < n && txs[..n][t].key == key;
        assert txs[t].key == key;
      }
      if t :| 0 <= t < n && txs[t].key == key { assert txs[..n][t].key == key; }
    }
  }

  lemma StartOutcome(l: Ledger, id: nat, actor: nat, supplied: Option<string>, gatewayOpens: bool, now: int)
    requires RefersToInvoices(l) && id < |l.invoices|
    ensures var (after, reply) := Apply(l, OpStartPayment(id, actor, supplied, gatewayOpens), now);
      var inv := l.invoices[id];
      var key := PaymentKey(inv, id, actor, supplied, now);
      if !Unsettled(inv) || inv.total + Accrued(inv, now) <= 0 then after == l && reply == Refused(BadRequest)
      else
        && reply == (if Known(l, key) || gatewayOpens then Accepted else Refused(BadRequest))
        && after.txs == l.txs + (if gatewayOpens && !Known(l, key) then [Charge(inv, id, key, now)] else [])
        && after.invoices
           == l.invoices[id := if Days(inv.due, now) > 0 then inv.(status := Overdue) else inv]
  {
    var inv := l.invoices[id];
    SettlementIs(inv, now);
    DaysAre(inv.due, now);
    FindKeyIff(l.txs, PaymentKey(inv, id, actor, supplied, now));
  }

  // ---------------------------------------------------------------- a callback

  /** A payment is verified by a callback that reports success and that the provider confirms, and by no other; it
      claims its invoice if that one is unsettled, with what was charged beyond the total as its penalty. */
  lemma VerifyOutcome(l: Ledger, t: nat, ok: bool, confirmed: bool, now: int)
    requires RefersToInvoices(l) && t < |l.txs|
    ensures var (after, reply) := Apply(l, OpVerifyPayment(t, ok, confirmed), now);
      var tx := l.txs[t];
      var inv := l.invoices[tx.invoice];
      if tx.status == Verified then after == l && reply == AlreadyVerified
      else if !(ok && confirmed)
      then after == Ledger(l.invoices, l.txs[t := tx.(status := Failed)]) && reply == PaymentFailed
      else
        && after.txs == l.txs[t := tx.(status := Verified)]
        && (if Unsettled(inv) then reply == Accepted && Claims(inv, tx, now, after.invoices, l.invoices)
            else reply == NeedsReview && after.invoices == l.invoices)
  {
  }

  ghost predicate Claims(inv: Invoice, tx: Tx, now: int, after: seq<Invoice>, before: seq<Invoice>) {
    var base := if tx.base > 0 then tx.base else inv.total;
    var penalty := if tx.amount > base then tx.amount - base else 0;
    && tx.invoice < |before|
    && after == before[tx.invoice := inv.(status := Awaiting, paidAt := Some(now), paidBy := Gateway,
                                          lateDays := tx.lateDays, latePenalty := penalty)]
  }

  // ---------------------------------------------------------------- over every run

  ghost predicate Verifies(op: Op, t: nat) { op == OpVerifyPayment(t, true, true) }

  /** A successful and confirmed callback reached the payment. */
  ghost predicate Confirmed(events: seq<Event>, t: nat)
    requires WellTimed(events)
  {
    exists i: nat :: Reaches(events, i, t)
  }

  ghost predicate Reaches(events: seq<Event>, i: nat, t: nat)
    requires WellTimed(events)
  {
    i < |events| && Verifies(events[i].op, t) && t < |After(EMPTY, events[..i]).txs|
  }

  /** What one operation does to the payments: at most one is begun, and only a successful and confirmed callback
      verifies one. */
  ghost predicate PaymentsStep(l: Ledger, op: Op, after: Ledger) {
    && |l.txs| <= |after.txs| <= |l.txs| + 1
    && (forall t: nat :: t < |l.txs| ==>
          after.txs[t] == l.txs[t].(status := after.txs[t].status)
          && (after.txs[t].status == Verified <==> l.txs[t].status == Verified || Verifies(op, t)))
    && (|after.txs| > |l.txs| ==>
          after.txs[|l.txs|].status == Initiated && !Known(l, after.txs[|l.txs|].key))
  }

  lemma StepsPayments(l: Ledger, op: Op, now: int)
    requires RefersToInvoices(l)
    ensures PaymentsStep(l, op, Apply(l, op, now).0)
  {
    if op.OpStartPayment? && op.id < |l.invoices| {
      StartOutcome(l, op.id, op.actor, op.supplied, op.gatewayOpens, now);
    } else if op.OpVerifyPayment? && op.t < |l.txs| {
      VerifyOutcome(l, op.t, op.ok, op.confirmed, now);
    } else {
      OthersLeavePayments(l, op, now);
    }
  }

  lemma OthersLeavePayments(l: Ledger, op: Op, now: int)
    requires RefersToInvoices(l) && !(op.OpStartPayment? && op.id < |l.invoices|)
    requires !(op.OpVerifyPayment? && op.t < |l.txs|)
    ensures Apply(l, op, now).0.txs == l.txs
  {
  }

  lemma ReachesEarlier(events: seq<Event>, i: nat, t: nat)
    requires WellTimed(events) && i < |events| - 1
    ensures Reaches(events, i, t) <==> Reaches(events[..|events| - 1], i, t)
  {
    assert events[..|events| - 1][..i] == events[..i];
  }

  lemma ConfirmedSnoc(events: seq<Event>, t: nat)
    requires WellTimed(events) && events != []
    ensures var init, e := events[..|events| - 1], events[|events| - 1];
      Confirmed(events, t) <==> Confirmed(init, t) || (Verifies(e.op, t) && t < |After(EMPTY, init).txs|)
  {
    var init := events[..|events| - 1];
    forall i: nat | i < |events| - 1 ensures Reaches(events, i, t) <==> Reaches(init, i, t) {
      ReachesEarlier(events, i, t);
    }
    assert Reaches(events, |events| - 1, t) <==>
      Verifies(events[|events| - 1].op, t) && t < |After(EMPTY, init).txs|;
  }

  lemma PaymentStepAt(l: Ledger, op: Op, after: Ledger, t: nat)
    requires PaymentsStep(l, op, after) && t < |after.txs|
    ensures after.txs[t].status == Verified <==> t < |l.txs| && (l.txs[t].status == Verified || Verifies(op, t))
  {
  }

  lemma AfterLast(events: seq<Event>)
    requires WellTimed(events) && events != []
    ensures var init, e := events[..|events| - 1], events[|events| - 1];
      After(EMPTY, events) == Apply(After(EMPTY, init), e.op, e.now).0
  {
  }

  /** Over every run a payment is verified exactly if a successful and confirmed callback reached it. */
  lemma {:induction false} VerifiedIffConfirmed(events: seq<Event>, t: nat)
    requires WellTimed(events) && t < |After(EMPTY, events).txs|
    ensures After(EMPTY, events).txs[t].status == Verified <==> Confirmed(events, t)
  {
    if events != [] {
      var init, e := events[..|events| - 1], events[|events| - 1];
      var before := After(EMPTY, init);
      AfterLast(events);
      StepsPayments(before, e.op, e.now);
      PaymentStepAt(before, e.op, After(EMPTY, events), t);
      ConfirmedSnoc(events, t);
      if t < |before.txs| { VerifiedIffConfirmed(init, t); } else { NeverBegun(init, t); }
    }
  }

  /** No callback reaches a payment that is not there yet. */
  lemma {:induction false} NeverBegun(events: seq<Event>, t: nat)
    requires WellTimed(events) && t >= |After(EMPTY, events).txs|
    ensures !Confirmed(events, t)
  {
    if events != [] {
      var init, e := events[..|events| - 1], events[|events| - 1];
      StepsPayments(After(EMPTY, init), e.op, e.now);
      ConfirmedSnoc(events, t);
      NeverBegun(init, t);
    }
  }

  /** An invoice awaits confirmation, or is paid by the gateway, only beside a verified payment of its own. */
  predicate ByGateway(inv: Invoice) { inv.status == Awaiting || inv.paidBy == Gateway }

  ghost predicate HasVerified(l: Ledger, id: nat) {
    exists t :: 0 <= t < |l.txs| && l.txs[t].invoice == id && l.txs[t].status == Verified
  }

  ghost predicate GatewayIsVerified(l: Ledger) {
    forall id: nat :: id < |l.invoices| && ByGateway(l.invoices[id]) ==> HasVerified(l, id)
  }

  lemma VerifiedStays(l: Ledger, op: Op, now: int, id: nat)
    requires RefersToInvoices(l) && HasVerified(l, id)
    ensures HasVerified(Apply(l, op, now).0, id)
  {
    StepsPayments(l, op, now);
    var t: nat :| t < |l.txs| && l.txs[t].invoice == id && l.txs[t].status == Verified;
    assert Apply(l, op, now).0.txs[t].status == Verified;
  }

  /** The rows after a split: those there before, but for the parent, and installments that are pending and unpaid. */
  ghost predicate SplitRow(l: Ledger, id: nat, k: nat, row: Invoice)
    requires id < |l.invoices|
  {
    if k >= |l.invoices| then row.penaltyStart == None && row.status == Pending && row.paidBy == Unpaid
    else if k == id then
      row == l.invoices[id].(status := Installments, lateDays := row.lateDays, latePenalty := row.latePenalty)
    else row == l.invoices[k]
  }

  lemma PartsSplitRow(l: Ledger, id: nat, parts: seq<Part>, now: int, after: Ledger, k: nat)
    requires id < |l.invoices| && l.invoices[id].total > 0 && SplitInto(l, id, parts, now, after)
    requires k < |after.invoices|
    ensures SplitRow(l, id, k, after.invoices[k])
  {
    if k >= |l.invoices| {
      var i := k - |l.invoices|;
      assert IsInstallment(l.invoices[id], id, parts[i], i, now, after.invoices[|l.invoices| + i]);
    }
  }

  lemma SplitRowIs(l: Ledger, id: nat, plan: Plan, now: int, k: nat)
    requires RefersToInvoices(l) && id < |l.invoices|
    ensures var (after, reply) := Apply(l, OpSplit(id, plan), now);
      if reply == Accepted then k < |after.invoices| ==> SplitRow(l, id, k, after.invoices[k]) else after == l
    ensures |Apply(l, OpSplit(id, plan), now).0.invoices| >= |l.invoices|
  {
    SplitOutcome(l, id, plan, now);
    var (after, reply) := Apply(l, OpSplit(id, plan), now);
    if reply == Accepted && k < |after.invoices| {
      var parts :| SplitInto(l, id, parts, now, after);
      PartsSplitRow(l, id, parts, now, after, k);
    }
  }

  /** No operation but a callback puts an invoice there. */
  lemma OthersLeaveGateway(l: Ledger, op: Op, now: int, id: nat)
    requires RefersToInvoices(l) && op.Valid() && !(op.OpVerifyPayment? && op.t < |l.txs|)
    requires id < |Apply(l, op, now).0.invoices| && ByGateway(Apply(l, op, now).0.invoices[id])
    ensures id < |l.invoices| && ByGateway(l.invoices[id])
  {
    if op.OnInvoice() && op.id >= |l.invoices| {
      UnknownIsNotFound(l, op, now);
    } else if op.OpSplit? {
      SplitRowIs(l, op.id, op.plan, now, id);
    } else if op.OpSettle? || op.OpConfirm? {
      PayingLeavesGateway(l, op, now, id);
    } else if op.OpUpdate? {
      UpdateOutcome(l, op.id, op.edit, now);
    } else {
      SmallLeavesGateway(l, op, now, id);
    }
  }

  lemma PayingLeavesGateway(l: Ledger, op: Op, now: int, id: nat)
    requires RefersToInvoices(l) && (op.OpSettle? || op.OpConfirm?) && op.id < |l.invoices|
    requires id < |Apply(l, op, now).0.invoices| && ByGateway(Apply(l, op, now).0.invoices[id])
    ensures id < |l.invoices| && ByGateway(l.invoices[id])
  {
    if op.OpSettle? { SettleOutcome(l, op.id, op.paidAt, now); } else { ConfirmOutcome(l, op.id, now); }
  }

  lemma SmallLeavesGateway(l: Ledger, op: Op, now: int, id: nat)
    requires RefersToInvoices(l) && !op.OpSplit? && !op.OpSettle? && !op.OpConfirm? && !op.OpUpdate?
    requires !(op.OnInvoice() && op.id >= |l.invoices|) && !(op.OpVerifyPayment? && op.t < |l.txs|)
    requires id < |Apply(l, op, now).0.invoices| && ByGateway(Apply(l, op, now).0.invoices[id])
    ensures id < |l.invoices| && ByGateway(l.invoices[id])
  {
    if op.OpStartPayment? { StartOutcome(l, op.id, op.actor, op.supplied, op.gatewayOpens, now); }
  }

  lemma StepKeepsGateway(l: Ledger, op: Op, now: int)
    requires RefersToInvoices(l) && op.Valid() && GatewayIsVerified(l)
    ensures GatewayIsVerified(Apply(l, op, now).0)
  {
    var after := Apply(l, op, now).0;
    forall id: nat | id < |after.invoices| && ByGateway(after.invoices[id]) ensures HasVerified(after, id) {
      if op.OpVerifyPayment? && op.t < |l.txs| {
        VerifyOutcome(l, op.t, op.ok, op.confirmed, now);
        if ByGateway(l.invoices[id]) {
          VerifiedStays(l, op, now, id);
        } else {
          assert after.txs[op.t].invoice == id && after.txs[op.t].status == Verified;
        }
      } else {
        OthersLeaveGateway(l, op, now, id);
        VerifiedStays(l, op, now, id);
      }
    }
  }

  lemma {:induction false} RunKeepsGateway(events: seq<Event>)
    requires WellTimed(events)
    ensures GatewayIsVerified(After(EMPTY, events))
  {
    if events != [] {
      RunKeepsGateway(events[..|events| - 1]);
      StepKeepsGateway(After(EMPTY, events[..|events| - 1]), events[|events| - 1].op, events[|events| - 1].now);
    }
  }

  /** Over every run an invoice awaits confirmation, or counts as paid by the gateway, only if a successful and
      confirmed callback reached one of its payments. */
  lemma GatewayNeedsConfirmation(events: seq<Event>, id: nat)
    requires WellTimed(events) && id < |After(EMPTY, events).invoices| && ByGateway(After(EMPTY, events).invoices[id])
    ensures exists t: nat :: t < |After(EMPTY, events).txs| && After(EMPTY, events).txs[t].invoice == id
                             && Confirmed(events, t)
  {
    RunKeepsGateway(events);
    var l := After(EMPTY, events);
    assert HasVerified(l, id);
    var t: nat :| t < |l.txs| && l.txs[t].invoice == id && l.txs[t].status == Verified;
    VerifiedIffConfirmed(events, t);
  }

  ghost predicate DistinctKeys(l: Ledger) {
    forall s, t :: 0 <= s < t < |l.txs| ==> l.txs[s].key != l.txs[t].key
  }

  lemma StepKeepsKeys(l: Ledger, op: Op, after: Ledger)
    requires PaymentsStep(l, op, after) && DistinctKeys(l)
    ensures DistinctKeys(after)
  {
  }

  /** Over every run no two payments share a key. */
  lemma {:induction false} KeysDiffer(events: seq<Event>)
    requires WellTimed(events)
    ensures DistinctKeys(After(EMPTY, events))
  {
    if events != [] {
      var init, e := events[..|events| - 1], events[|events| - 1];
      AfterLast(events);
      KeysDiffer(init);
      StepsPayments(After(EMPTY, init), e.op, e.now);
      StepKeepsKeys(After(EMPTY, init), e.op, After(EMPTY, events));
    }
  }

  // ---------------------------------------------------------------- what is charged is never erased

  /** What an unsettled invoice costs beyond its total never falls behind: over any further run a penalty that has
      started is charged for all the days since then, at no lower rate. */
  lemma ChargedIsNeverErased(l: Ledger, more: seq<Event>, id: nat, from: int, t: int)
    requires Sound(l) && WellTimed(more) && id < |l.invoices|
    requires forall i :: 0 <= i < |more| ==> from <= more[i].now <= t
    requires from <= t && Days(Start(l.invoices[id]), from) > 0 && Unsettled(l.invoices[id])
    ensures id < |After(l, more).invoices|
    ensures Unsettled(After(l, more).invoices[id]) ==>
              var inv := After(l, more).invoices[id];
              && Settle(inv, t).latePenalty >= Settle(l.invoices[id], t).latePenalty
              && Settle(inv, t).payable
                 >= inv.total + Days(Start(l.invoices[id]), t) * l.invoices[id].rate
  {
    var before := l.invoices[id];
    DaysAre(Start(before), from);
    DaysAre(Start(before), t);
    PenaltyNeverErased(l, more, id, from, t);
    SettlementIs(before, t);
    var inv := After(l, more).invoices[id];
    SettlementIs(inv, t);
    DaysAre(Start(inv), t);
  }

  /** The date a penalty counts from is no later than the due date beside it. */
  ghost predicate StartsInTime(inv: Invoice) { Start(inv) <= inv.due }

  ghost predicate Edits(op: Op, id: nat) { op.OpUpdate? && op.id == id }

  /** What a step does to a row's dates: without an edit the rate stays, and so does the start of a penalty that has
      started. */
  ghost predicate DatesStep(before: Invoice, after: Invoice, edited: bool, now: int) {
    StartsInTime(before) ==>
      && StartsInTime(after)
      && (!edited ==> after.rate == before.rate)
      && (!edited && Days(Start(before), now) > 0 ==> Start(after) == Start(before))
  }

  lemma StepDates(l: Ledger, op: Op, now: int, id: nat)
    requires RefersToInvoices(l) && id < |l.invoices|
    ensures var after := Apply(l, op, now).0;
      id < |after.invoices| && DatesStep(l.invoices[id], after.invoices[id], Edits(op, id), now)
  {
    if (op.OnInvoice() && op.id >= |l.invoices|) || (op.OpVerifyPayment? && op.t >= |l.txs|) {
      UnknownIsNotFound(l, op, now);
    } else if op.OpUpdate? {
      UpdateOutcome(l, op.id, op.edit, now);
    } else if op.OpExtend? {
      ExtendOutcome(l, op.id, op.due, now);
    } else if op.OpSplit? {
      SplitRowIs(l, op.id, op.plan, now, id);
    } else {
      OthersKeepDates(l, op, now, id);
    }
  }

  lemma OthersKeepDates(l: Ledger, op: Op, now: int, id: nat)
    requires RefersToInvoices(l) && id < |l.invoices| && !op.OpUpdate? && !op.OpExtend? && !op.OpSplit?
    requires (op.OnInvoice() ==> op.id < |l.invoices|) && (op.OpVerifyPayment? ==> op.t < |l.txs|)
    ensures var after := Apply(l, op, now).0;
      id < |after.invoices|
      && (var b, a := l.invoices[id], after.invoices[id];
          a.due == b.due && a.penaltyStart == b.penaltyStart && a.rate == b.rate)
  {
    if op.OpSettle? {
      SettleOutcome(l, op.id, op.paidAt, now);
    } else if op.OpConfirm? {
      ConfirmOutcome(l, op.id, now);
    } else if op.OpStartPayment? {
      StartOutcome(l, op.id, op.actor, op.supplied, op.gatewayOpens, now);
    } else if op.OpVerifyPayment? {
      VerifyOutcome(l, op.t, op.ok, op.confirmed, now);
    }
  }

  lemma NewRowsStart(l: Ledger, op: Op, now: int, id: nat)
    requires RefersToInvoices(l) && |l.invoices| <= id < |Apply(l, op, now).0.invoices|
    ensures StartsInTime(Apply(l, op, now).0.invoices[id])
  {
    if op.OpSplit? && op.id < |l.invoices| { SplitRowIs(l, op.id, op.plan, now, id); }
  }

  /** Over every run no penalty counts from a date after the due date. */
  lemma {:induction false} RunStartsInTime(events: seq<Event>, id: nat)
    requires WellTimed(events) && id < |After(EMPTY, events).invoices|
    ensures StartsInTime(After(EMPTY, events).invoices[id])
  {
    if events != [] {
      var init, e := events[..|events| - 1], events[|events| - 1];
      AfterLast(events);
      if id < |After(EMPTY, init).invoices| {
        RunStartsInTime(init, id);
        StepDates(After(EMPTY, init), e.op, e.now, id);
      } else {
        NewRowsStart(After(EMPTY, init), e.op, e.now, id);
      }
    }
  }

  lemma {:induction false} StartIsKept(l: Ledger, more: seq<Event>, id: nat, from: int)
    requires Sound(l) && WellTimed(more) && id < |l.invoices| && StartsInTime(l.invoices[id])
    requires forall i :: 0 <= i < |more| ==> from <= more[i].now && !Edits(more[i].op, id)
    requires Days(Start(l.invoices[id]), from) > 0
    ensures id < |After(l, more).invoices|
    ensures var inv := After(l, more).invoices[id];
      StartsInTime(inv) && Start(inv) == Start(l.invoices[id]) && inv.rate == l.invoices[id].rate
  {
    if more != [] {
      var init, e := more[..|more| - 1], more[|more| - 1];
      StartIsKept(l, init, id, from);
      StepDates(After(l, init), e.op, e.now, id);
    }
  }

  /** Extending, discounting, paying and splitting leave a penalty that has started as it was: whatever the run,
      unless it edits the invoice, what an unsettled invoice is charged at any later time is its total and the
      calendar days since the first due date that went late, times the rate. */
  lemma LateDaysAreCharged(events: seq<Event>, more: seq<Event>, id: nat, from: int, t: int)
    requires WellTimed(events) && WellTimed(more) && id < |After(EMPTY, events).invoices|
    requires forall i :: 0 <= i < |more| ==> from <= more[i].now && !Edits(more[i].op, id)
    requires Days(Start(After(EMPTY, events).invoices[id]), from) > 0
    ensures var l := After(EMPTY, events);
      var before, after := l.invoices[id], After(l, more);
      && id < |after.invoices|
      && (Unsettled(after.invoices[id]) ==>
            var s := Settle(after.invoices[id], t);
            && s.lateDays == Days(Start(before), t) && s.latePenalty == Days(Start(before), t) * before.rate
            && s.payable == after.invoices[id].total + Days(Start(before), t) * before.rate)
  {
    RunStartsInTime(events, id);
    StartIsKept(After(EMPTY, events), more, id, from);
    SettlementIs(After(After(EMPTY, events), more).invoices[id], t);
  }
}
