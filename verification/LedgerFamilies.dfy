/**
 * Split invoices and their installments: a parent is paid exactly when all its installments are,
 * and splits do not nest.
 */
module LedgerFamilies {
  import opened LedgerModel
  import opened LedgerRows
  import opened LedgerRuns
  import opened Options

  /** A split parent, open or completed. */
  predicate IsSplit(inv: Invoice) { inv.status.Installments? || (inv.status.Paid? && inv.paidBy.ByInstallments?) }

  predicate IsChild(invoices: seq<Invoice>, i: int, p: nat) {
    0 <= i < |invoices| && invoices[i].parent == Some(p)
  }

  ghost predicate TwoChildren(invoices: seq<Invoice>, p: nat) {
    exists i, j :: i < j && IsChild(invoices, i, p) && IsChild(invoices, j, p)
  }

  ghost predicate FamilyOk(invoices: seq<Invoice>, i: nat)
    requires i < |invoices|
  {
    var inv := invoices[i];
    && (inv.parent.Some? ==>
          inv.parent.value < |invoices| && IsSplit(invoices[inv.parent.value])
          && invoices[inv.parent.value].parent.None?)
    && (inv.paidBy.ByInstallments? ==> inv.status.Paid?)
    && (IsSplit(inv) ==>
          inv.parent.None? && TwoChildren(invoices, i) && (inv.status.Paid? <==> AllChildrenPaid(invoices, i)))
  }

  /** Installments belong to a split parent, splits do not nest, a split parent has at least two installments, and it is
      paid exactly when all of them are. */
  ghost predicate Families(invoices: seq<Invoice>) {
    forall i :: 0 <= i < |invoices| ==> FamilyOk(invoices, i)
  }

  // ---------------------------------------------------------------- steps that pay and split nothing

  predicate Quiet(before: Invoice, after: Invoice) {
    && after.parent == before.parent
    && (after.status.Paid? <==> before.status.Paid?)
    && (after.status.Installments? <==> before.status.Installments?)
    && (after.paidBy.ByInstallments? <==> before.paidBy.ByInstallments?)
  }

  lemma ChildrenSame(before: seq<Invoice>, after: seq<Invoice>, p: nat)
    requires |before| <= |after| && (forall i :: 0 <= i < |before| ==> after[i].parent == before[i].parent)
    ensures TwoChildren(before, p) ==> TwoChildren(after, p)
  {
    if TwoChildren(before, p) {
      var i, j :| i < j && IsChild(before, i, p) && IsChild(before, j, p);
      assert IsChild(after, i, p) && IsChild(after, j, p);
    }
  }

  lemma QuietKeepsFamily(before: seq<Invoice>, after: seq<Invoice>, i: nat)
    requires |before| == |after| && (forall k :: 0 <= k < |before| ==> Quiet(before[k], after[k]))
    requires i < |before| && FamilyOk(before, i)
    ensures FamilyOk(after, i)
  {
    ChildrenSame(before, after, i);
    assert AllChildrenPaid(after, i) <==> AllChildrenPaid(before, i);
  }

  lemma QuietKeepsFamilies(before: seq<Invoice>, after: seq<Invoice>)
    requires Families(before) && |before| == |after| && forall k :: 0 <= k < |before| ==> Quiet(before[k], after[k])
    ensures Families(after)
  {
    forall i | 0 <= i < |after| ensures FamilyOk(after, i) { QuietKeepsFamily(before, after, i); }
  }

  lemma RowKeepsFamilies(invoices: seq<Invoice>, id: nat, row: Invoice)
    requires Families(invoices) && id < |invoices| && Quiet(invoices[id], row)
    ensures Families(invoices[id := row])
  {
    QuietKeepsFamilies(invoices, invoices[id := row]);
  }

  // ---------------------------------------------------------------- new rows

  lemma AppendKeepsFamilies(invoices: seq<Invoice>, row: Invoice)
    requires Families(invoices) && row.parent.None? && row.status.Pending? && row.paidBy.Unpaid?
    ensures Families(invoices + [row])
  {
    var after := invoices + [row];
    forall i | 0 <= i < |after| ensures FamilyOk(after, i) {
      if i < |invoices| {
        assert FamilyOk(invoices, i);
        ChildrenSame(invoices, after, i);
      }
    }
  }

  lemma SplitKeepsFamilies(invoices: seq<Invoice>, id: nat, parent: Invoice, rows: seq<Invoice>)
    requires Families(invoices) && id < |invoices| && IsOpen(invoices[id].status) && invoices[id].parent.None?
    requires parent.status.Installments? && parent.parent.None? && parent.paidBy == invoices[id].paidBy && |rows| >= 2
    requires forall i :: 0 <= i < |rows| ==>
      rows[i].parent == Some(id) && rows[i].status.Pending? && rows[i].paidBy.Unpaid?
    ensures Families(invoices[id := parent] + rows)
  {
    var after := invoices[id := parent] + rows;
    var n := |invoices|;
    assert IsChild(after, n, id) && IsChild(after, n + 1, id);
    forall i | 0 <= i < |after| ensures FamilyOk(after, i) {
      if i < n {
        assert FamilyOk(invoices, i);
        ChildrenSame(invoices, after, i);
        if i != id && AllChildrenPaid(invoices, i) { OthersStayPaid(invoices, id, parent, rows, i); }
      }
    }
  }

  lemma OthersStayPaid(invoices: seq<Invoice>, id: nat, parent: Invoice, rows: seq<Invoice>, p: nat)
    requires id < |invoices| && parent.parent.None? && p != id && AllChildrenPaid(invoices, p)
    requires forall i :: 0 <= i < |rows| ==> rows[i].parent == Some(id)
    ensures AllChildrenPaid(invoices[id := parent] + rows, p)
  {
  }

  // ---------------------------------------------------------------- paying a row

  /** A row is paid and its parent completed in the same step. */
  lemma PayKeepsFamilies(invoices: seq<Invoice>, id: nat, row: Invoice, now: int)
    requires Families(invoices) && id < |invoices| && row.parent == invoices[id].parent
    requires row.status.Paid? && !row.paidBy.ByInstallments? && !invoices[id].status.Paid?
      && !invoices[id].status.Installments?
    ensures Families(CompleteParent(invoices[id := row], row.parent, now))
  {
    var paid := invoices[id := row];
    var after := CompleteParent(paid, row.parent, now);
    forall i | 0 <= i < |after| ensures FamilyOk(after, i) { PayKeepsFamily(invoices, id, row, now, i); }
  }

  lemma PayKeepsFamily(invoices: seq<Invoice>, id: nat, row: Invoice, now: int, i: nat)
    requires Families(invoices) && id < |invoices| && row.parent == invoices[id].parent && i < |invoices|
    requires row.status.Paid? && !row.paidBy.ByInstallments? && !invoices[id].status.Paid?
      && !invoices[id].status.Installments?
    ensures FamilyOk(CompleteParent(invoices[id := row], row.parent, now), i)
  {
    var paid := invoices[id := row];
    var after := CompleteParent(paid, row.parent, now);
    assert FamilyOk(invoices, i) && FamilyOk(invoices, id);
    ChildrenSame(invoices, after, i);
    if IsSplit(invoices[i]) {
      assert invoices[i].parent.None?;
      CompletingPaysNoChild(paid, row.parent, now, i);
      if row.parent == Some(i) {
        assert invoices[i].status.Paid? ==> AllChildrenPaid(paid, i);
      } else {
        OtherParent(invoices, id, row, i);
      }
    }
  }

  /** Completing a parent changes no installment. */
  lemma CompletingPaysNoChild(paid: seq<Invoice>, parent: Option<nat>, now: int, i: nat)
    requires parent.Some? && parent.value < |paid| ==> paid[parent.value].parent.None?
    ensures AllChildrenPaid(CompleteParent(paid, parent, now), i) <==> AllChildrenPaid(paid, i)
  {
    var after := CompleteParent(paid, parent, now);
    forall k | 0 <= k < |paid| && paid[k].parent == Some(i) ensures after[k] == paid[k] {}
    forall k | 0 <= k < |paid| && after[k].parent == Some(i) ensures after[k] == paid[k] {}
  }

  lemma OtherParent(invoices: seq<Invoice>, id: nat, row: Invoice, i: nat)
    requires id < |invoices| && row.parent == invoices[id].parent && row.parent != Some(i)
    ensures AllChildrenPaid(invoices[id := row], i) <==> AllChildrenPaid(invoices, i)
  {
    var paid := invoices[id := row];
    forall k | 0 <= k < |paid| && paid[k].parent == Some(i) ensures paid[k] == invoices[k] {}
    forall k | 0 <= k < |paid| && invoices[k].parent == Some(i) ensures paid[k] == invoices[k] {}
  }

  // ---------------------------------------------------------------- operation by operation

  lemma EditKeepsFamilies(l: Ledger, op: Op, now: int)
    requires Sound(l) && Families(l.invoices) && op.Valid()
    requires (op.OpUpdate? || op.OpDiscount? || op.OpCancel? || op.OpExtend?) && op.id < |l.invoices|
    ensures Families(Apply(l, op, now).0.invoices)
  {
    var inv, inFlight := l.invoices[op.id], PaymentInFlight(l.txs, op.id, now);
    assert FamilyOk(l.invoices, op.id);
    var decision := match op
      case OpUpdate(_, edit) => Update(inv, edit, inFlight, now)
      case OpDiscount(_, discount) => Discount(inv, discount, inFlight)
      case OpCancel(_) => Cancel(inv, inFlight)
      case OpExtend(_, due) => Extend(inv, due, inFlight, now)
      case _ => Refuse(NotFound);
    if decision.Change? {
      match op {
        case OpUpdate(_, edit) => UpdateEvolves(inv, edit, inFlight, now);
        case OpDiscount(_, discount) => DiscountEvolves(inv, discount, inFlight, now);
        case OpCancel(_) => CancelEvolves(inv, inFlight, now);
        case _ =>
      }
      RowKeepsFamilies(l.invoices, op.id, decision.row);
    }
  }

  lemma PaidKeepsFamilies(l: Ledger, op: Op, now: int)
    requires Sound(l) && Families(l.invoices) && (op.OpSettle? || op.OpConfirm?) && op.id < |l.invoices|
    ensures Families(Apply(l, op, now).0.invoices)
  {
    var inv, inFlight := l.invoices[op.id], PaymentInFlight(l.txs, op.id, now);
    assert FamilyOk(l.invoices, op.id);
    var decision := if op.OpSettle? then SettleManually(inv, op.paidAt, inFlight, now) else Confirm(inv);
    if decision.Change? { PayKeepsFamilies(l.invoices, op.id, decision.row, now); }
  }

  lemma SplitStepKeepsFamilies(l: Ledger, op: Op, now: int)
    requires Sound(l) && Families(l.invoices) && op.OpSplit? && op.id < |l.invoices|
    ensures Families(Apply(l, op, now).0.invoices)
  {
    var inv, inFlight := l.invoices[op.id], PaymentInFlight(l.txs, op.id, now);
    if Split(inv, op.plan, inFlight, now).Change? {
      ChildrenInBooks(inv, op.id, op.plan, inFlight, now);
      SplitConserves(inv, op.id, op.plan, inFlight, now);
      SplitKeepsFamilies(l.invoices, op.id, SplitParent(inv, now),
        Children(inv, op.id, Schedule(op.plan, inv.total), now));
    }
  }

  lemma PaymentKeepsFamilies(l: Ledger, op: Op, now: int)
    requires Sound(l) && Families(l.invoices)
    requires (op.OpStartPayment? && op.id < |l.invoices|) || (op.OpVerifyPayment? && op.t < |l.txs|)
    ensures Families(Apply(l, op, now).0.invoices)
  {
    if op.OpStartPayment? {
      SweptEvolves(l.invoices[op.id], now);
      RowKeepsFamilies(l.invoices, op.id, Swept(l.invoices[op.id], now));
    } else {
      var tx := l.txs[op.t];
      assert FamilyOk(l.invoices, tx.invoice);
      RowKeepsFamilies(l.invoices, tx.invoice, Claimed(l.invoices[tx.invoice], tx, now));
    }
  }

  lemma ApplyKeepsFamilies(l: Ledger, op: Op, now: int)
    requires Sound(l) && Families(l.invoices) && op.Valid()
    ensures Families(Apply(l, op, now).0.invoices)
  {
    if (op.OnInvoice() && op.id >= |l.invoices|) || (op.OpVerifyPayment? && op.t >= |l.txs|) {
    } else if op.OpCreate? {
      CreateInBooks(op.category, op.items, op.amount, op.tax, op.rate, op.due, now);
      var decision := Create(op.category, op.items, op.amount, op.tax, op.rate, op.due, now);
      if decision.Change? { AppendKeepsFamilies(l.invoices, decision.row); }
    } else if op.OpSplit? {
      SplitStepKeepsFamilies(l, op, now);
    } else if op.OpSettle? || op.OpConfirm? {
      PaidKeepsFamilies(l, op, now);
    } else if op.OpStartPayment? || op.OpVerifyPayment? {
      PaymentKeepsFamilies(l, op, now);
    } else if op.OpList? {
      QuietKeepsFamilies(l.invoices, Sweep(l, op.listed, now).invoices);
    } else {
      EditKeepsFamilies(l, op, now);
    }
  }

  /** What every operation keeps: the books balance, payments refer to invoices, and families are whole. */
  ghost predicate InOrder(l: Ledger) { Sound(l) && Families(l.invoices) }

  lemma ApplyKeepsOrder(l: Ledger, op: Op, now: int)
    requires InOrder(l) && op.Valid()
    ensures InOrder(Apply(l, op, now).0)
  {
    ApplySteps(l, op, now);
    ApplyKeepsFamilies(l, op, now);
  }

  /** After every run a split parent is paid exactly when all its installments, at least two, are paid; and no
      installment is itself split. */
  lemma {:induction false} RunKeepsFamilies(events: seq<Event>)
    requires WellTimed(events)
    ensures Families(After(EMPTY, events).invoices)
  {
    if events != [] {
      var init, e := events[..|events| - 1], events[|events| - 1];
      RunKeepsFamilies(init);
      ApplyKeepsFamilies(After(EMPTY, init), e.op, e.now);
    }
  }

  /** A gateway callback never overwrites an invoice that is not open. */
  lemma CallbackSparesClosed(l: Ledger, t: nat, ok: bool, confirmed: bool, now: int)
    requires Sound(l) && t < |l.txs|
    ensures var after := Apply(l, OpVerifyPayment(t, ok, confirmed), now).0;
      |after.invoices| == |l.invoices| && forall i :: 0 <= i < |l.invoices| ==>
        after.invoices[i] == l.invoices[i] || (IsOpen(l.invoices[i].status) && after.invoices[i].status.Awaiting?)
  {
    var tx := l.txs[t];
    ClaimedEvolves(l.invoices[tx.invoice], tx, now);
  }
}
