/**
 * The ledger as the service runs it: methods that read a row, check the request step by step and
 * write the rows, each proved to do exactly what the ledger model says.
 */
module LedgerService {
  import opened Billing
  import opened LedgerFamilies
  import opened LedgerModel
  import opened Options

  class InvoiceService {
    var invoices: seq<Invoice>
    var txs: seq<Tx>

    ghost function Value(): Ledger
      reads this
    {
      Ledger(invoices, txs)
    }

    ghost predicate Valid()
      reads this
    {
      InOrder(Value())
    }

    constructor ()
      ensures Valid() && Value() == Ledger([], [])
    {
      invoices, txs := [], [];
    }

    method CreateInvoice(category: Category, items: seq<Item>, amount: int, tax: int, rate: int, due: int, now: int)
      returns (reply: Reply)
      requires Valid()
      modifies this
      ensures Valid() && (Value(), reply) == Apply(old(Value()), OpCreate(category, items, amount, tax, rate, due), now)
    {
      ApplyKeepsOrder(Value(), OpCreate(category, items, amount, tax, rate, due), now);
      var sum := amount;
      if items != [] {
        if !WellFormedItems(items, category) { return Refused(BadRequest); }
        sum := SumItems(items);
      }
      if sum <= 0 || tax < 0 { return Refused(BadRequest); }
      if sum + tax > MAX_INVOICE_AMOUNT { return Refused(BadRequest); }
      if rate < 0 { return Refused(BadRequest); }
      invoices := invoices + [NewInvoice(category, items, sum, tax, rate, due, None, now)];
      return Accepted;
    }

    method UpdateInvoice(id: nat, edit: Edit, now: int) returns (reply: Reply)
      requires Valid() && edit.Valid()
      modifies this
      ensures Valid() && (Value(), reply) == Apply(old(Value()), OpUpdate(id, edit), now)
    {
      ApplyKeepsOrder(Value(), OpUpdate(id, edit), now);
      if id >= |invoices| { return Refused(NotFound); }
      var decision := DecideEdit(invoices[id], edit, PaymentInFlight(txs, id, now), now);
      match decision
      case Refuse(why) => return Refused(why);
      case Change(row) =>
        invoices := invoices[id := row];
        return Accepted;
    }

    method DiscountInvoice(id: nat, discount: int, now: int) returns (reply: Reply)
      requires Valid()
      modifies this
      ensures Valid() && (Value(), reply) == Apply(old(Value()), OpDiscount(id, discount), now)
    {
      ApplyKeepsOrder(Value(), OpDiscount(id, discount), now);
      if id >= |invoices| { return Refused(NotFound); }
      var existing := invoices[id];
      if !IsOpen(existing.status) || PaymentInFlight(txs, id, now) { return Refused(Conflict); }
      var base := existing.amount + existing.tax;
      var discountable := base - CarriedTotal(existing.items);
      if discount < 0 { return Refused(BadRequest); }
      if discount > discountable { return Refused(BadRequest); }
      invoices := invoices[id := existing.(discount := discount, total := base - discount)];
      return Accepted;
    }

    method CancelInvoice(id: nat, now: int) returns (reply: Reply)
      requires Valid()
      modifies this
      ensures Valid() && (Value(), reply) == Apply(old(Value()), OpCancel(id), now)
    {
      ApplyKeepsOrder(Value(), OpCancel(id), now);
      if id >= |invoices| { return Refused(NotFound); }
      var existing := invoices[id];
      if !IsOpen(existing.status) || PaymentInFlight(txs, id, now) { return Refused(Conflict); }
      invoices := invoices[id := existing.(status := Cancelled)];
      return Accepted;
    }

    method ExtendInvoiceDueDate(id: nat, due: int, now: int) returns (reply: Reply)
      requires Valid()
      modifies this
      ensures Valid() && (Value(), reply) == Apply(old(Value()), OpExtend(id, due), now)
    {
      ApplyKeepsOrder(Value(), OpExtend(id, due), now);
      if id >= |invoices| { return Refused(NotFound); }
      var existing := invoices[id];
      if !IsOpen(existing.status) || PaymentInFlight(txs, id, now) { return Refused(Conflict); }
      if DaysLate(due, now) > 0 { return Refused(BadRequest); }
      if due <= existing.due { return Refused(BadRequest); }
      var penaltyStart := PreservedPenaltyStart(existing, due, now);
      invoices := invoices[id := existing.(due := due, penaltyStart := penaltyStart, status := Pending)];
      return Accepted;
    }

    method SplitInvoice(id: nat, plan: Plan, now: int) returns (reply: Reply)
      requires Valid()
      modifies this
      ensures Valid() && (Value(), reply) == Apply(old(Value()), OpSplit(id, plan), now)
    {
      ApplyKeepsOrder(Value(), OpSplit(id, plan), now);
      if id >= |invoices| { return Refused(NotFound); }
      var existing := invoices[id];
      if !IsOpen(existing.status) { return Refused(Conflict); }
      if existing.parent.Some? { return Refused(BadRequest); }
      if PaymentInFlight(txs, id, now) { return Refused(Conflict); }
      var base := existing.total;
      if base <= 0 { return Refused(BadRequest); }
      if !PlanShapeOk(plan, base) { return Refused(BadRequest); }
      var parts := BuildSchedule(plan, base);
      if !GoodParts(parts, now) { return Refused(BadRequest); }
      var rows := BuildChildren(existing, id, parts, now);
      invoices := invoices[id := SplitParent(existing, now)] + rows;
      return Accepted;
    }

    method SettleInvoiceManually(id: nat, paidAt: Option<int>, now: int) returns (reply: Reply)
      requires Valid()
      modifies this
      ensures Valid() && (Value(), reply) == Apply(old(Value()), OpSettle(id, paidAt), now)
    {
      ApplyKeepsOrder(Value(), OpSettle(id, paidAt), now);
      if id >= |invoices| { return Refused(NotFound); }
      var existing := invoices[id];
      if !IsOpen(existing.status) || PaymentInFlight(txs, id, now) { return Refused(Conflict); }
      var paid := Or(paidAt, now);
      if paid > now + FIVE_MINUTES { return Refused(BadRequest); }
      if DaysLate(paid, existing.issued) > 0 { return Refused(BadRequest); }
      var s := Settle(existing, paid);
      invoices := invoices[id := existing.(status := Paid, paidAt := Some(paid), paidBy := Manual,
                                           lateDays := s.lateDays, latePenalty := s.latePenalty)];
      CompleteInstallmentParent(existing.parent, now);
      return Accepted;
    }

    method ConfirmInvoicePayment(id: nat, now: int) returns (reply: Reply)
      requires Valid()
      modifies this
      ensures Valid() && (Value(), reply) == Apply(old(Value()), OpConfirm(id), now)
    {
      ApplyKeepsOrder(Value(), OpConfirm(id), now);
      if id >= |invoices| { return Refused(NotFound); }
      var existing := invoices[id];
      if !existing.status.Awaiting? { return Refused(BadRequest); }
      invoices := invoices[id := existing.(status := Paid)];
      CompleteInstallmentParent(existing.parent, now);
      return Accepted;
    }

    method CompleteInstallmentParent(parent: Option<nat>, now: int)
      modifies this`invoices
      ensures invoices == CompleteParent(old(invoices), parent, now) && |invoices| == |old(invoices)|
    {
      if parent.None? || parent.value >= |invoices| { return; }
      var unpaid := 0;
      for i := 0 to |invoices|
        invariant unpaid >= 0 && invoices == old(invoices)
        invariant unpaid == 0 <==> forall k :: 0 <= k < i && invoices[k].parent == parent ==> invoices[k].status.Paid?
      {
        if invoices[i].parent == parent && !invoices[i].status.Paid? { unpaid := unpaid + 1; }
      }
      if unpaid > 0 { return; }
      var row := invoices[parent.value];
      if row.status.Installments? {
        invoices := invoices[parent.value := row.(status := Paid, paidAt := Some(now), paidBy := ByInstallments)];
      }
    }

    method StartOnlinePayment(id: nat, actor: nat, supplied: Option<string>, gatewayOpens: bool, now: int)
      returns (reply: Reply)
      requires Valid()
      modifies this
      ensures Valid() && (Value(), reply) == Apply(old(Value()), OpStartPayment(id, actor, supplied, gatewayOpens), now)
    {
      ApplyKeepsOrder(Value(), OpStartPayment(id, actor, supplied, gatewayOpens), now);
      if id >= |invoices| { return Refused(NotFound); }
      var invoice := invoices[id];
      if !IsOpen(invoice.status) { return Refused(BadRequest); }
      var s := Settle(invoice, now);
      if s.payable <= 0 { return Refused(BadRequest); }
      if invoice.status.Pending? && s.overdue { invoices := invoices[id := invoice.(status := Overdue)]; }
      assert invoices == old(invoices)[id := Swept(invoice, now)];
      var key :=
        if supplied.Some? && supplied.value != "" then Supplied(supplied.value)
        else Derived(id, actor, s.payable, s.lateDays);
      if FindKey(txs, key).Some? { return Accepted; }
      if !gatewayOpens { return Refused(BadRequest); }
      txs := txs + [Tx(id, s.payable, s.base, s.lateDays, now, key, Initiated)];
      return Accepted;
    }

    method VerifyOnlinePayment(t: nat, ok: bool, confirmed: bool, now: int) returns (reply: Reply)
      requires Valid()
      modifies this
      ensures Valid() && (Value(), reply) == Apply(old(Value()), OpVerifyPayment(t, ok, confirmed), now)
    {
      ApplyKeepsOrder(Value(), OpVerifyPayment(t, ok, confirmed), now);
      if t >= |txs| { return Refused(NotFound); }
      var tx := txs[t];
      if tx.status.Verified? { return AlreadyVerified; }
      if !ok || !confirmed {
        txs := txs[t := tx.(status := Failed)];
        return PaymentFailed;
      }
      var invoice := invoices[tx.invoice];
      var base := if tx.base > 0 then tx.base else invoice.total;
      var frozen := if tx.amount - base > 0 then tx.amount - base else 0;
      var claimed := IsOpen(invoice.status);
      if claimed {
        invoices := invoices[tx.invoice := invoice.(status := Awaiting, paidAt := Some(now), paidBy := Gateway,
                                                    lateDays := tx.lateDays, latePenalty := frozen)];
      }
      txs := txs[t := tx.(status := Verified)];
      assert invoices == old(invoices)[tx.invoice := Claimed(invoice, tx, now)];
      return if claimed then Accepted else NeedsReview;
    }

    /** Listing stores what it shows: pending invoices past their due day become overdue. */
    method ListInvoices(listed: set<nat>, now: int)
      requires Valid()
      modifies this
      ensures Valid() && Value() == Apply(old(Value()), OpList(listed), now).0
    {
      ApplyKeepsOrder(Value(), OpList(listed), now);
      for i := 0 to |invoices|
        invariant |invoices| == |old(invoices)| && txs == old(txs)
        invariant forall k :: 0 <= k < i ==> invoices[k] == Sweep(old(Value()), listed, now).invoices[k]
        invariant forall k :: i <= k < |invoices| ==> invoices[k] == old(invoices)[k]
      {
        if i in listed && invoices[i].status.Pending? && DaysLate(invoices[i].due, now) > 0 {
          invoices := invoices[i := invoices[i].(status := Overdue)];
        }
      }
      assert invoices == Sweep(old(Value()), listed, now).invoices;
    }
  }

  /** The checks of an edit, in order, and the row they allow. */
  method DecideEdit(existing: Invoice, edit: Edit, inFlight: bool, now: int) returns (decision: Decision)
    ensures decision == Update(existing, edit, inFlight, now)
  {
    if existing.status.Paid? || existing.status.Installments? || existing.status.Awaiting? { return Refuse(Conflict); }
    if edit.Empty() { return Refuse(BadRequest); }
    if inFlight { return Refuse(Conflict); }
    var items := existing.items;
    var amount := Or(edit.amount, existing.amount);
    if edit.items.Some? {
      var editable := Editable(edit.items.value);
      if !WellFormedItems(editable, existing.category) { return Refuse(BadRequest); }
      items := editable + Carried(existing.items);
      amount := SumItems(items);
    } else if edit.amount.Some? && existing.items != [] {
      return Refuse(BadRequest);
    }
    var tax, rate := Or(edit.tax, existing.tax), Or(edit.rate, existing.rate);
    if amount <= 0 || tax < 0 { return Refuse(BadRequest); }
    if amount + tax > MAX_INVOICE_AMOUNT { return Refuse(BadRequest); }
    if rate < 0 { return Refuse(BadRequest); }
    if existing.discount > amount + tax - CarriedTotal(items) { return Refuse(BadRequest); }
    var penaltyStarted := DaysLate(Anchor(existing), now) > 0;
    if penaltyStarted && rate < existing.rate { return Refuse(BadRequest); }
    var due, penaltyStart := existing.due, existing.penaltyStart;
    if edit.due.Some? {
      due := edit.due.value;
      penaltyStart := PreservedPenaltyStart(existing, due, now);
    }
    var status := Or(edit.status, existing.status);
    if status.Pending? && DaysLate(due, now) > 0 { status := Overdue; }
    if status.Overdue? && DaysLate(due, now) == 0 && edit.status.None? { status := Pending; }
    var row := existing.(amount := amount, tax := tax, total := amount + tax - existing.discount, rate := rate,
                         due := due, penaltyStart := penaltyStart, status := status, items := items);
    assert row == EditedRow(existing, edit, now);
    decision := Change(row);
  }

  /** The schedule of a split: the caller's own, or equal shares at a fixed interval. */
  method BuildSchedule(plan: Plan, base: int) returns (parts: seq<Part>)
    requires PlanShapeOk(plan, base)
    ensures parts == Schedule(plan, base)
  {
    match plan
    case Custom(custom) => parts := custom;
    case Even(count, first, interval) =>
      var days := if interval == 0 then 30 else interval;
      var amounts := SplitEvenly(base, count);
      parts := [];
      for i := 0 to count
        invariant |parts| == i && forall k :: 0 <= k < i ==> parts[k] == Part(amounts[k], AddDays(first, k * days))
      {
        parts := parts + [Part(amounts[i], AddDays(first, i * days))];
      }
      assert forall k :: 0 <= k < count ==> amounts[k] == EvenShares(base, count)[k];
      assert parts == Schedule(plan, base);
  }

  /** The installments of a split, one row at a time. */
  method BuildChildren(inv: Invoice, id: nat, parts: seq<Part>, now: int) returns (rows: seq<Invoice>)
    requires inv.total > 0
    ensures rows == Children(inv, id, parts, now)
  {
    rows := [];
    var carried := Settle(inv, now).latePenalty;
    for i := 0 to |parts|
      invariant |rows| == i && forall k :: 0 <= k < i ==> rows[k] == Children(inv, id, parts, now)[k]
    {
      var items := [Item(ShareKind(inv.category), true, parts[i].amount)];
      if i == 0 && carried > 0 { items := items + [Item(CarriedPenalty, true, carried)]; }
      assert items == ChildItems(inv.category, parts[i], i, carried);
      rows := rows + [NewInvoice(inv.category, items, SumItems(items), 0,
                                 RateShare(inv.rate, parts[i].amount, inv.total), parts[i].due, Some(id), now)];
    }
  }
}
