/**
 * The invoice ledger: what each operation does to the rows, as the service decides it.
 * Every operation is one atomic step at a given time; access rights and texts are left out.
 */
module LedgerModel {
  import opened Billing
  import opened Options

  datatype Status = Pending | Awaiting | Paid | Overdue | Cancelled | Installments

  /** How an invoice was paid. */
  datatype Method = Unpaid | Gateway | Manual | ByInstallments

  datatype Invoice = Invoice(
    amount: int, tax: int, discount: int, total: int, rate: int, lateDays: int, latePenalty: int,
    issued: int, due: int, penaltyStart: Option<int>, status: Status, paidBy: Method, paidAt: Option<int>,
    category: Category, items: seq<Item>, parent: Option<nat>)

  datatype TxStatus = Initiated | Verified | Failed

  /** A gateway payment, with the settlement it was started on. */
  datatype Tx = Tx(invoice: nat, amount: int, base: int, lateDays: int, created: int, key: Key, status: TxStatus)

  datatype Key = Supplied(key: string) | Derived(invoice: nat, actor: nat, payable: int, lateDays: int)

  datatype Ledger = Ledger(invoices: seq<Invoice>, txs: seq<Tx>)

  datatype Refusal = NotFound | Conflict | BadRequest

  datatype Reply = Accepted | Refused(why: Refusal) | PaymentFailed | AlreadyVerified | NeedsReview

  /** What an operation on one row decides. */
  datatype Decision = Change(row: Invoice) | Refuse(why: Refusal)

  const HALF_HOUR: int := 30 * 60_000
  const FIVE_MINUTES: int := 5 * 60_000

  // ---------------------------------------------------------------- settlement

  predicate IsOpen(status: Status) { status.Pending? || status.Overdue? }

  predicate LateFrozen(status: Status) { status.Paid? || status.Awaiting? || status.Installments? }

  function Anchor(inv: Invoice): int {
    match inv.penaltyStart case Some(t) => t case None => inv.due
  }

  datatype Settlement = Settlement(base: int, lateDays: int, latePenalty: int, payable: int, overdue: bool)

  function Settle(inv: Invoice, asOf: int): Settlement {
    var lateDays :=
      if LateFrozen(inv.status) then (if inv.lateDays > 0 then inv.lateDays else 0)
      else if inv.status.Cancelled? then 0
      else DaysLate(Anchor(inv), asOf);
    var penalty :=
      if LateFrozen(inv.status) then inv.latePenalty
      else if inv.status.Cancelled? then 0
      else Times(lateDays, inv.rate);
    Settlement(inv.total, lateDays, penalty, inv.total + penalty,
               inv.status.Overdue? || (inv.status.Pending? && DaysLate(inv.due, asOf) > 0))
  }

  predicate PaymentInFlight(txs: seq<Tx>, id: nat, now: int) {
    exists i :: 0 <= i < |txs| && txs[i].invoice == id && txs[i].status.Initiated? && txs[i].created >= now - HALF_HOUR
  }

  /** The penalty start to store beside a new due date: the present anchor, unless nothing has accrued or the new date
      is no later. */
  function PreservedPenaltyStart(inv: Invoice, nextDue: int, now: int): Option<int> {
    if DaysLate(Anchor(inv), now) == 0 then None
    else if nextDue <= Anchor(inv) then None
    else Some(Anchor(inv))
  }

  // ---------------------------------------------------------------- one row

  function NewInvoice(category: Category, items: seq<Item>, amount: int, tax: int, rate: int, due: int,
                      parent: Option<nat>, now: int): Invoice
  {
    Invoice(amount, tax, 0, amount + tax, rate, 0, 0, now, due, None, Pending, Unpaid, None, category, items, parent)
  }

  function Create(category: Category, items: seq<Item>, amount: int, tax: int, rate: int, due: int,
                  now: int): Decision
  {
    var sum := if items != [] then SumItems(items) else amount;
    if items != [] && !WellFormedItems(items, category) then Refuse(BadRequest)
    else if sum <= 0 || tax < 0 || sum + tax > MAX_INVOICE_AMOUNT || rate < 0 then Refuse(BadRequest)
    else Change(NewInvoice(category, items, sum, tax, rate, due, None, now))
  }

  datatype Edit = Edit(
    amount: Option<int>, tax: Option<int>, rate: Option<int>, due: Option<int>, status: Option<Status>,
    items: Option<seq<Item>>, describes: bool)
  {
    /** The statuses a caller may ask for. */
    predicate Valid() { status.Some? ==> status.value.Pending? || status.value.Overdue? || status.value.Cancelled? }

    predicate Empty() {
      amount.None? && tax.None? && rate.None? && due.None? && status.None? && items.None? && !describes
    }
  }

  function EditedItems(inv: Invoice, edit: Edit): seq<Item> {
    match edit.items case Some(entered) => Editable(entered) + Carried(inv.items) case None => inv.items
  }

  function EditedAmount(inv: Invoice, edit: Edit): int {
    if edit.items.Some? then SumItems(EditedItems(inv, edit)) else Or(edit.amount, inv.amount)
  }

  function EditedStatus(inv: Invoice, edit: Edit, due: int, now: int): Status {
    var asked := Or(edit.status, inv.status);
    if asked.Pending? && DaysLate(due, now) > 0 then Overdue
    else if asked.Overdue? && DaysLate(due, now) == 0 && edit.status.None? then Pending
    else asked
  }

  predicate EditAllowed(inv: Invoice, edit: Edit, now: int) {
    var amount, tax, rate := EditedAmount(inv, edit), Or(edit.tax, inv.tax), Or(edit.rate, inv.rate);
    && (edit.items.Some? ==> WellFormedItems(Editable(edit.items.value), inv.category))
    && (edit.items.None? && edit.amount.Some? ==> inv.items == [])
    && amount > 0 && tax >= 0 && amount + tax <= MAX_INVOICE_AMOUNT && rate >= 0
    && inv.discount <= amount + tax - CarriedTotal(EditedItems(inv, edit))
    && (DaysLate(Anchor(inv), now) > 0 ==> rate >= inv.rate)
  }

  function EditedRow(inv: Invoice, edit: Edit, now: int): Invoice {
    var amount, tax, due := EditedAmount(inv, edit), Or(edit.tax, inv.tax), Or(edit.due, inv.due);
    inv.(amount := amount, tax := tax, total := amount + tax - inv.discount, rate := Or(edit.rate, inv.rate),
         due := due, penaltyStart := if edit.due.Some? then PreservedPenaltyStart(inv, due, now) else inv.penaltyStart,
         status := EditedStatus(inv, edit, due, now), items := EditedItems(inv, edit))
  }

  function Update(inv: Invoice, edit: Edit, inFlight: bool, now: int): Decision {
    if inv.status.Paid? || inv.status.Installments? || inv.status.Awaiting? then Refuse(Conflict)
    else if edit.Empty() then Refuse(BadRequest)
    else if inFlight then Refuse(Conflict)
    else if !EditAllowed(inv, edit, now) then Refuse(BadRequest)
    else Change(EditedRow(inv, edit, now))
  }

  function Discount(inv: Invoice, discount: int, inFlight: bool): Decision {
    if !IsOpen(inv.status) || inFlight then Refuse(Conflict)
    else if discount < 0 || discount > inv.amount + inv.tax - CarriedTotal(inv.items) then Refuse(BadRequest)
    else Change(inv.(discount := discount, total := inv.amount + inv.tax - discount))
  }

  function Cancel(inv: Invoice, inFlight: bool): Decision {
    if !IsOpen(inv.status) || inFlight then Refuse(Conflict) else Change(inv.(status := Cancelled))
  }

  function Extend(inv: Invoice, due: int, inFlight: bool, now: int): Decision {
    if !IsOpen(inv.status) || inFlight then Refuse(Conflict)
    else if DaysLate(due, now) > 0 || due <= inv.due then Refuse(BadRequest)
    else Change(inv.(due := due, penaltyStart := PreservedPenaltyStart(inv, due, now), status := Pending))
  }

  function SettleManually(inv: Invoice, paidAt: Option<int>, inFlight: bool, now: int): Decision {
    var paid := Or(paidAt, now);
    if !IsOpen(inv.status) || inFlight then Refuse(Conflict)
    else if paid > now + FIVE_MINUTES || DaysLate(paid, inv.issued) > 0 then Refuse(BadRequest)
    else
      var s := Settle(inv, paid);
      Change(inv.(status := Paid, paidAt := Some(paid), paidBy := Manual,
                  lateDays := s.lateDays, latePenalty := s.latePenalty))
  }

  function Confirm(inv: Invoice): Decision {
    if !inv.status.Awaiting? then Refuse(BadRequest) else Change(inv.(status := Paid))
  }

  /** What a listing shows as overdue is stored as overdue. */
  function Swept(inv: Invoice, now: int): Invoice {
    if inv.status.Pending? && DaysLate(inv.due, now) > 0 then inv.(status := Overdue) else inv
  }

  /** The penalty frozen by a verified payment: what was paid beyond the base it was started on. */
  function FrozenPenalty(inv: Invoice, tx: Tx): int {
    var base := if tx.base > 0 then tx.base else inv.total;
    if tx.amount > base then tx.amount - base else 0
  }

  function Claimed(inv: Invoice, tx: Tx, now: int): Invoice {
    if !IsOpen(inv.status) then inv
    else inv.(status := Awaiting, paidAt := Some(now), paidBy := Gateway,
              lateDays := tx.lateDays, latePenalty := FrozenPenalty(inv, tx))
  }

  // ---------------------------------------------------------------- splitting

  datatype Part = Part(amount: int, due: int)

  datatype Plan = Custom(parts: seq<Part>) | Even(count: int, first: int, interval: int)

  ghost function Schedule(plan: Plan, base: int): seq<Part>
    requires plan.Even? ==> plan.count > 0
  {
    match plan
    case Custom(parts) => parts
    case Even(count, first, interval) =>
      seq(count, i requires 0 <= i < count =>
        Part(EvenShares(base, count)[i], AddDays(first, i * if interval == 0 then 30 else interval)))
  }

  function Amounts(parts: seq<Part>): seq<int> {
    seq(|parts|, i requires 0 <= i < |parts| => parts[i].amount)
  }

  predicate GoodParts(parts: seq<Part>, now: int) {
    && (forall i :: 0 <= i < |parts| ==> parts[i].amount > 0 && DaysLate(parts[i].due, now) == 0)
    && (forall i :: 0 < i < |parts| ==> parts[i - 1].due <= parts[i].due)
  }

  predicate PlanShapeOk(plan: Plan, base: int) {
    match plan
    case Custom(parts) => |parts| >= 2 && Sum(Amounts(parts)) == base
    case Even(count, _, _) => 2 <= count <= 36
  }

  ghost predicate PlanOk(plan: Plan, base: int, now: int) {
    PlanShapeOk(plan, base) && GoodParts(Schedule(plan, base), now)
  }

  function ShareKind(category: Category): ItemKind { if category.Platform? then PlatformOther else ChargeOther }

  /** The lines of installment `i`: its share and, on the first, the penalty carried over. */
  function ChildItems(category: Category, part: Part, i: nat, carried: int): seq<Item> {
    [Item(ShareKind(category), true, part.amount)]
    + if i == 0 && carried > 0 then [Item(CarriedPenalty, true, carried)] else []
  }

  function Child(inv: Invoice, id: nat, part: Part, i: nat, now: int): Invoice
    requires inv.total > 0
  {
    var items := ChildItems(inv.category, part, i, Settle(inv, now).latePenalty);
    NewInvoice(inv.category, items, SumItems(items), 0,
      RateShare(inv.rate, part.amount, inv.total), part.due, Some(id), now)
  }

  function Children(inv: Invoice, id: nat, parts: seq<Part>, now: int): seq<Invoice>
    requires inv.total > 0
  {
    seq(|parts|, i requires 0 <= i < |parts| => Child(inv, id, parts[i], i, now))
  }

  function SplitParent(inv: Invoice, now: int): Invoice {
    var s := Settle(inv, now);
    inv.(status := Installments, lateDays := s.lateDays, latePenalty := s.latePenalty)
  }

  ghost function Split(inv: Invoice, plan: Plan, inFlight: bool, now: int): Decision {
    if !IsOpen(inv.status) then Refuse(Conflict)
    else if inv.parent.Some? then Refuse(BadRequest)
    else if inFlight then Refuse(Conflict)
    else if inv.total <= 0 || !PlanOk(plan, inv.total, now) then Refuse(BadRequest)
    else Change(SplitParent(inv, now))
  }

  // ---------------------------------------------------------------- the ledger

  function OnRow(l: Ledger, id: nat, decision: Decision): (Ledger, Reply)
    requires id < |l.invoices|
  {
    match decision
    case Change(row) => (l.(invoices := l.invoices[id := row]), Accepted)
    case Refuse(why) => (l, Refused(why))
  }

  predicate AllChildrenPaid(invoices: seq<Invoice>, p: nat) {
    forall i :: 0 <= i < |invoices| && invoices[i].parent == Some(p) ==> invoices[i].status.Paid?
  }

  /** The rows after looking at a parent: if it is still split and no installment is left unpaid, it is paid too. */
  function CompleteParent(invoices: seq<Invoice>, parent: Option<nat>, now: int): seq<Invoice> {
    if parent.Some? && parent.value < |invoices| && AllChildrenPaid(invoices, parent.value)
      && invoices[parent.value].status.Installments?
    then
      var row := invoices[parent.value];
      invoices[parent.value := row.(status := Paid, paidAt := Some(now), paidBy := ByInstallments)]
    else invoices
  }

  /** A decision that may pay a row; its parent is completed in the same transaction. */
  function OnPaidRow(l: Ledger, id: nat, decision: Decision, now: int): (Ledger, Reply)
    requires id < |l.invoices|
  {
    match decision
    case Change(row) => (l.(invoices := CompleteParent(l.invoices[id := row], row.parent, now)), Accepted)
    case Refuse(why) => (l, Refused(why))
  }

  function FindKey(txs: seq<Tx>, key: Key): Option<nat> {
    if txs == [] then None
    else if txs[|txs| - 1].key == key then Some(|txs| - 1)
    else FindKey(txs[..|txs| - 1], key)
  }

  /** Starting a payment: the gateway may refuse to open it, after the row was already marked overdue. */
  function StartPayment(l: Ledger, id: nat, actor: nat, supplied: Option<string>, gatewayOpens: bool,
          now: int): (Ledger, Reply)
    requires id < |l.invoices|
  {
    var inv := l.invoices[id];
    var s := Settle(inv, now);
    if !IsOpen(inv.status) || s.payable <= 0 then (l, Refused(BadRequest))
    else
      var marked := l.(invoices := l.invoices[id := Swept(inv, now)]);
      var key :=
        if supplied.Some? && supplied.value != "" then Supplied(supplied.value)
        else Derived(id, actor, s.payable, s.lateDays);
      if FindKey(l.txs, key).Some? then (marked, Accepted)
      else if !gatewayOpens then (marked, Refused(BadRequest))
      else (marked.(txs := l.txs + [Tx(id, s.payable, s.base, s.lateDays, now, key, Initiated)]), Accepted)
  }

  /** A gateway callback: `ok` is what the payer's browser reports, `confirmed` what the provider answers. */
  function VerifyPayment(l: Ledger, t: nat, ok: bool, confirmed: bool, now: int): (Ledger, Reply)
    requires t < |l.txs| && l.txs[t].invoice < |l.invoices|
  {
    var tx := l.txs[t];
    if tx.status.Verified? then (l, AlreadyVerified)
    else if !ok || !confirmed then (l.(txs := l.txs[t := tx.(status := Failed)]), PaymentFailed)
    else
      var inv := l.invoices[tx.invoice];
      (Ledger(l.invoices[tx.invoice := Claimed(inv, tx, now)], l.txs[t := tx.(status := Verified)]),
       if IsOpen(inv.status) then Accepted else NeedsReview)
  }

  function Sweep(l: Ledger, listed: set<nat>, now: int): Ledger {
    l.(invoices := seq(|l.invoices|, i requires 0 <= i < |l.invoices| =>
                         if i in listed then Swept(l.invoices[i], now) else l.invoices[i]))
  }

  datatype Op =
    | OpCreate(category: Category, items: seq<Item>, amount: int, tax: int, rate: int, due: int)
    | OpUpdate(id: nat, edit: Edit)
    | OpDiscount(id: nat, discount: int)
    | OpCancel(id: nat)
    | OpExtend(id: nat, due: int)
    | OpSplit(id: nat, plan: Plan)
    | OpSettle(id: nat, paidAt: Option<int>)
    | OpStartPayment(id: nat, actor: nat, supplied: Option<string>, gatewayOpens: bool)
    | OpVerifyPayment(t: nat, ok: bool, confirmed: bool)
    | OpConfirm(id: nat)
    | OpList(listed: set<nat>)
  {
    /** The request's shape is checked before the service sees it. */
    predicate Valid() { OpUpdate? ==> edit.Valid() }

    predicate OnInvoice() {
      OpUpdate? || OpDiscount? || OpCancel? || OpExtend? || OpSplit? || OpSettle? || OpStartPayment? || OpConfirm?
    }
  }

  /** One operation at a time. */
  ghost function Apply(l: Ledger, op: Op, now: int): (Ledger, Reply)
    requires forall t :: 0 <= t < |l.txs| ==> l.txs[t].invoice < |l.invoices|
  {
    if op.OnInvoice() && op.id >= |l.invoices| then (l, Refused(NotFound))
    else if op.OpVerifyPayment? && op.t >= |l.txs| then (l, Refused(NotFound))
    else
      match op
      case OpCreate(category, items, amount, tax, rate, due) =>
        (match Create(category, items, amount, tax, rate, due, now)
         case Change(row) => (l.(invoices := l.invoices + [row]), Accepted)
         case Refuse(why) => (l, Refused(why)))
      case OpUpdate(id, edit) => OnRow(l, id, Update(l.invoices[id], edit, PaymentInFlight(l.txs, id, now), now))
      case OpDiscount(id, discount) => OnRow(l, id, Discount(l.invoices[id], discount, PaymentInFlight(l.txs, id, now)))
      case OpCancel(id) => OnRow(l, id, Cancel(l.invoices[id], PaymentInFlight(l.txs, id, now)))
      case OpExtend(id, due) => OnRow(l, id, Extend(l.invoices[id], due, PaymentInFlight(l.txs, id, now), now))
      case OpSplit(id, plan) => ApplySplit(l, id, plan, now)
      case OpSettle(id, paidAt) =>
        OnPaidRow(l, id, SettleManually(l.invoices[id], paidAt, PaymentInFlight(l.txs, id, now), now), now)
      case OpStartPayment(id, actor, supplied, gatewayOpens) => StartPayment(l, id, actor, supplied, gatewayOpens, now)
      case OpVerifyPayment(t, ok, confirmed) => VerifyPayment(l, t, ok, confirmed, now)
      case OpConfirm(id) => OnPaidRow(l, id, Confirm(l.invoices[id]), now)
      case OpList(listed) => (Sweep(l, listed, now), Accepted)
  }

  ghost function ApplySplit(l: Ledger, id: nat, plan: Plan, now: int): (Ledger, Reply)
    requires id < |l.invoices|
  {
    var inv := l.invoices[id];
    match Split(inv, plan, PaymentInFlight(l.txs, id, now), now)
    case Change(row) =>
      (l.(invoices := l.invoices[id := row] + Children(inv, id, Schedule(plan, inv.total), now)), Accepted)
    case Refuse(why) => (l, Refused(why))
  }
}
