/**
 * The financial report: the newest invoices issued in a window, each counted with what it is worth, a
 * split parent being represented by its installments.
 */
module LedgerReport {
  import opened Billing
  import opened LedgerFamilies
  import opened LedgerModel
  import opened LedgerRows
  import opened LedgerRuns
  import opened Options

  /** The dates asked for, either side open. */
  datatype Window = Window(from: Option<int>, until: Option<int>) {
    predicate Covers(issued: int) {
      (from.Some? ==> from.value <= issued) && (until.Some? ==> issued <= until.value)
    }
  }

  const REPORT_LIMIT: nat := 2000

  function Covered(invoices: seq<Invoice>, w: Window): seq<Invoice> {
    if invoices == [] then []
    else
      var rest, last := Covered(invoices[..|invoices| - 1], w), invoices[|invoices| - 1];
      if w.Covers(last.issued) then rest + [last] else rest
  }

  function InsertNewest(sorted: seq<Invoice>, inv: Invoice): seq<Invoice> {
    if sorted == [] || inv.issued > sorted[0].issued then [inv] + sorted
    else [sorted[0]] + InsertNewest(sorted[1..], inv)
  }

  /** Newest first. */
  function Newest(rows: seq<Invoice>): seq<Invoice> {
    if rows == [] then [] else InsertNewest(Newest(rows[..|rows| - 1]), rows[|rows| - 1])
  }

  function Limited(rows: seq<Invoice>): seq<Invoice> { if |rows| <= REPORT_LIMIT then rows else rows[..REPORT_LIMIT] }

  function ReportedAmount(inv: Invoice, now: int): int {
    if IsSplit(inv) then 0 else Settle(inv, now).payable
  }

  function SumReported(rows: seq<Invoice>, now: int): int {
    if rows == [] then 0
    else SumReported(rows[..|rows| - 1], now) + ReportedAmount(rows[|rows| - 1], now)
  }

  /** The report's total. */
  function ReportTotal(invoices: seq<Invoice>, w: Window, now: int): int {
    SumReported(Limited(Newest(Covered(invoices, w))), now)
  }

  // ---------------------------------------------------------------- within the limit the order is nothing

  lemma {:induction false} SumCons(first: Invoice, rest: seq<Invoice>, now: int)
    ensures SumReported([first] + rest, now) == ReportedAmount(first, now) + SumReported(rest, now)
  {
    if rest == [] {
      assert [first] + rest == [first] && [first][..0] == [];
    } else {
      assert ([first] + rest)[..|rest|] == [first] + rest[..|rest| - 1];
      SumCons(first, rest[..|rest| - 1], now);
    }
  }

  lemma {:induction false} InsertNewestSum(sorted: seq<Invoice>, inv: Invoice, now: int)
    ensures SumReported(InsertNewest(sorted, inv), now) == SumReported(sorted, now) + ReportedAmount(inv, now)
    ensures |InsertNewest(sorted, inv)| == |sorted| + 1
  {
    if sorted == [] || inv.issued > sorted[0].issued {
      SumCons(inv, sorted, now);
    } else {
      InsertNewestSum(sorted[1..], inv, now);
      assert [sorted[0]] + sorted[1..] == sorted;
      SumCons(sorted[0], sorted[1..], now);
      SumCons(sorted[0], InsertNewest(sorted[1..], inv), now);
    }
  }

  lemma {:induction false} NewestSum(rows: seq<Invoice>, now: int)
    ensures SumReported(Newest(rows), now) == SumReported(rows, now) && |Newest(rows)| == |rows|
  {
    if rows != [] {
      NewestSum(rows[..|rows| - 1], now);
      InsertNewestSum(Newest(rows[..|rows| - 1]), rows[|rows| - 1], now);
    }
  }

  lemma {:induction false} SumConcat(a: seq<Invoice>, b: seq<Invoice>, now: int)
    ensures SumReported(a + b, now) == SumReported(a, now) + SumReported(b, now)
  {
    if b == [] {
      assert a + b == a;
    } else {
      assert (a + b)[..|a + b| - 1] == a + b[..|b| - 1];
      SumConcat(a, b[..|b| - 1], now);
    }
  }

  /** The rows beyond the limit. */
  function Dropped(rows: seq<Invoice>): seq<Invoice> { if |rows| <= REPORT_LIMIT then [] else rows[REPORT_LIMIT..] }

  /** What the covered invoices beyond the limit are worth: the report leaves it out. */
  function Omitted(invoices: seq<Invoice>, w: Window, now: int): int {
    SumReported(Dropped(Newest(Covered(invoices, w))), now)
  }

  lemma TotalAndOmitted(invoices: seq<Invoice>, w: Window, now: int)
    ensures ReportTotal(invoices, w, now) + Omitted(invoices, w, now) == SumReported(Covered(invoices, w), now)
    ensures |Covered(invoices, w)| <= REPORT_LIMIT ==> Omitted(invoices, w, now) == 0
  {
    var rows := Newest(Covered(invoices, w));
    NewestSum(Covered(invoices, w), now);
    SumConcat(Limited(rows), Dropped(rows), now);
    assert Limited(rows) + Dropped(rows) == rows;
  }

  // ---------------------------------------------------------------- what a change of rows does to the total

  /** A row counts if its date is covered. */
  function Counted(inv: Invoice, w: Window, now: int): int {
    if w.Covers(inv.issued) then ReportedAmount(inv, now) else 0
  }

  lemma {:induction false} CoveredUpdate(invoices: seq<Invoice>, id: nat, row: Invoice, w: Window, now: int)
    requires id < |invoices| && row.issued == invoices[id].issued
    ensures |Covered(invoices[id := row], w)| == |Covered(invoices, w)|
    ensures SumReported(Covered(invoices[id := row], w), now)
      == SumReported(Covered(invoices, w), now) - Counted(invoices[id], w, now) + Counted(row, w, now)
  {
    var init, after := invoices[..|invoices| - 1], invoices[id := row];
    if id < |init| {
      CoveredUpdate(init, id, row, w, now);
      assert after[..|after| - 1] == init[id := row];
    } else {
      assert after[..|after| - 1] == init;
    }
  }

  ghost predicate IssuedAt(rows: seq<Invoice>, now: int) {
    forall i :: 0 <= i < |rows| ==> rows[i].issued == now && !IsSplit(rows[i])
  }

  lemma CoveredSnoc(invoices: seq<Invoice>, row: Invoice, w: Window)
    ensures Covered(invoices + [row], w) == Covered(invoices, w) + (if w.Covers(row.issued) then [row] else [])
  {
    assert (invoices + [row])[..|invoices|] == invoices;
  }

  /** Rows issued now are covered all or none. */
  lemma {:induction false} CoveredAppend(invoices: seq<Invoice>, rows: seq<Invoice>, w: Window, now: int)
    requires IssuedAt(rows, now)
    ensures Covered(invoices + rows, w) == Covered(invoices, w) + if w.Covers(now) then rows else []
  {
    if rows == [] {
      assert invoices + rows == invoices;
    } else {
      var init, last := rows[..|rows| - 1], rows[|rows| - 1];
      CoveredAppend(invoices, init, w, now);
      CoveredSnoc(invoices + init, last, w);
      assert invoices + rows == invoices + init + [last] && rows == init + [last];
    }
  }

  lemma {:induction false} SumIsPayables(rows: seq<Invoice>, now: int)
    requires IssuedAt(rows, now)
    ensures SumReported(rows, now) == Payables(rows, now)
  {
    if rows != [] { SumIsPayables(rows[..|rows| - 1], now); }
  }

  // ---------------------------------------------------------------- splitting

  lemma SplitRows(inv: Invoice, id: nat, plan: Plan, inFlight: bool, now: int)
    requires InBooks(inv) && Split(inv, plan, inFlight, now).Change?
    ensures var rows := Children(inv, id, Schedule(plan, inv.total), now);
      && IssuedAt(rows, now) && Payables(rows, now) == Settle(inv, now).payable > 0
      && !IsSplit(inv) && IsSplit(SplitParent(inv, now))
  {
    ChildrenInBooks(inv, id, plan, inFlight, now);
    SplitConserves(inv, id, plan, inFlight, now);
    SettlePenalty(inv, now);
  }

  /** A reported debt moves from one invoice to others issued now: counting what the limit leaves out, the total changes
      by the payable if the window covers one of the two moments and not the other. */
  lemma DebtMoves(invoices: seq<Invoice>, id: nat, parent: Invoice, rows: seq<Invoice>, w: Window, now: int)
    requires id < |invoices| && !IsSplit(invoices[id]) && IsSplit(parent) && parent.issued == invoices[id].issued
    requires IssuedAt(rows, now) && Payables(rows, now) == Settle(invoices[id], now).payable
    ensures var payable, after := Settle(invoices[id], now).payable, invoices[id := parent] + rows;
      ReportTotal(after, w, now) + Omitted(after, w, now)
      == ReportTotal(invoices, w, now) + Omitted(invoices, w, now) + (if w.Covers(now) then payable else 0)
         - (if w.Covers(invoices[id].issued) then payable else 0)
  {
    var after := invoices[id := parent] + rows;
    CoveredUpdate(invoices, id, parent, w, now);
    CoveredAppend(invoices[id := parent], rows, w, now);
    SumConcat(Covered(invoices[id := parent], w), if w.Covers(now) then rows else [], now);
    SumIsPayables(rows, now);
    TotalAndOmitted(invoices, w, now);
    TotalAndOmitted(after, w, now);
  }

  /** By how much the debt of a split invoice moves into or out of the window. */
  function Moved(inv: Invoice, w: Window, now: int): int {
    if w.Covers(now) == w.Covers(inv.issued) then 0
    else if w.Covers(now) then Settle(inv, now).payable
    else -Settle(inv, now).payable
  }

  /** Splitting an invoice leaves the report's total as it was exactly when what the limit leaves out grows by just what
      moves into the window; within the limit that is when the window covers both the moment the invoice was issued and
      the present, or neither. */
  lemma SplitKeepsReport(l: Ledger, id: nat, plan: Plan, w: Window, now: int)
    requires Sound(l) && id < |l.invoices|
    requires Split(l.invoices[id], plan, PaymentInFlight(l.txs, id, now), now).Change?
    ensures var before, after := l.invoices, ApplySplit(l, id, plan, now).0.invoices;
      && (ReportTotal(after, w, now) == ReportTotal(before, w, now)
          <==> Omitted(after, w, now) - Omitted(before, w, now) == Moved(before[id], w, now))
      && (|Covered(before, w)| + |Schedule(plan, before[id].total)| <= REPORT_LIMIT ==>
            (ReportTotal(after, w, now) == ReportTotal(before, w, now) <==>
              (w.Covers(before[id].issued) <==> w.Covers(now))))
  {
    var inv, inFlight := l.invoices[id], PaymentInFlight(l.txs, id, now);
    SplitRows(inv, id, plan, inFlight, now);
    TotalKeptIff(l.invoices, id, SplitParent(inv, now), Children(inv, id, Schedule(plan, inv.total), now), w, now);
  }

  lemma TotalKeptIff(invoices: seq<Invoice>, id: nat, parent: Invoice, rows: seq<Invoice>, w: Window, now: int)
    requires id < |invoices| && !IsSplit(invoices[id]) && IsSplit(parent) && parent.issued == invoices[id].issued
    requires IssuedAt(rows, now) && Payables(rows, now) == Settle(invoices[id], now).payable > 0
    ensures var after := invoices[id := parent] + rows;
      && (ReportTotal(after, w, now) == ReportTotal(invoices, w, now)
          <==> Omitted(after, w, now) - Omitted(invoices, w, now) == Moved(invoices[id], w, now))
      && (|Covered(invoices, w)| + |rows| <= REPORT_LIMIT ==>
            (ReportTotal(after, w, now) == ReportTotal(invoices, w, now)
             <==> (w.Covers(invoices[id].issued) <==> w.Covers(now))))
  {
    var after := invoices[id := parent] + rows;
    DebtMoves(invoices, id, parent, rows, w, now);
    assert |Covered(after, w)| <= |Covered(invoices, w)| + |rows| by {
      CoveredUpdate(invoices, id, parent, w, now);
      CoveredAppend(invoices[id := parent], rows, w, now);
    }
    assert |Covered(invoices, w)| <= REPORT_LIMIT ==> Omitted(invoices, w, now) == 0 by {
      TotalAndOmitted(invoices, w, now);
    }
    assert |Covered(after, w)| <= REPORT_LIMIT ==> Omitted(after, w, now) == 0 by { TotalAndOmitted(after, w, now); }
  }

  // ---------------------------------------------------------------- beyond the limit

  ghost predicate AllBefore(rows: seq<Invoice>, now: int) { forall i :: 0 <= i < |rows| ==> rows[i].issued < now }

  lemma {:induction false} InsertAfterTies(ties: seq<Invoice>, older: seq<Invoice>, row: Invoice)
    requires (forall i :: 0 <= i < |ties| ==> ties[i].issued == row.issued) && AllBefore(older, row.issued)
    ensures InsertNewest(ties + older, row) == ties + [row] + older
  {
    if ties == [] {
      assert ties + older == older;
      assert ties + [row] + older == [row] + older;
    } else {
      var first := ties[0];
      assert ties + older == [first] + (ties[1..] + older);
      InsertAfterTies(ties[1..], older, row);
      assert ties + [row] + older == [first] + (ties[1..] + [row] + older);
    }
  }

  lemma {:induction false} InsertBefore(sorted: seq<Invoice>, row: Invoice, now: int)
    requires AllBefore(sorted, now) && row.issued < now
    ensures AllBefore(InsertNewest(sorted, row), now)
  {
    if sorted != [] && row.issued <= sorted[0].issued { InsertBefore(sorted[1..], row, now); }
  }

  lemma {:induction false} NewestBefore(rows: seq<Invoice>, now: int)
    requires AllBefore(rows, now)
    ensures AllBefore(Newest(rows), now)
  {
    if rows != [] {
      NewestBefore(rows[..|rows| - 1], now);
      InsertBefore(Newest(rows[..|rows| - 1]), rows[|rows| - 1], now);
    }
  }

  /** Rows issued now come first. */
  lemma {:induction false} NewestFirst(older: seq<Invoice>, rows: seq<Invoice>, now: int)
    requires AllBefore(older, now) && IssuedAt(rows, now)
    ensures Newest(older + rows) == rows + Newest(older)
  {
    if rows == [] {
      assert older + rows == older;
    } else {
      var init, last := rows[..|rows| - 1], rows[|rows| - 1];
      NewestFirst(older, init, now);
      NewestBefore(older, now);
      assert (older + rows)[..|older + rows| - 1] == older + init;
      InsertAfterTies(init, Newest(older), last);
      assert init + [last] == rows;
    }
  }

  function Take(rows: seq<Invoice>, n: nat): seq<Invoice> { if n <= |rows| then rows[..n] else rows }

  /** In a window that covers the present and earlier invoices, the installments come first and push out the oldest
      rows: the report counts the whole debt, and as many of the rows before as there is room left for. */
  lemma SplitPushesOut(l: Ledger, id: nat, plan: Plan, w: Window, now: int)
    requires Sound(l) && id < |l.invoices|
    requires Split(l.invoices[id], plan, PaymentInFlight(l.txs, id, now), now).Change?
    requires w.Covers(now) && AllBefore(l.invoices, now)
    ensures var inv, n := l.invoices[id], |Schedule(plan, l.invoices[id].total)|;
      n <= REPORT_LIMIT ==>
        var older := Newest(Covered(l.invoices[id := SplitParent(inv, now)], w));
        ReportTotal(ApplySplit(l, id, plan, now).0.invoices, w, now)
        == Settle(inv, now).payable + SumReported(Take(older, REPORT_LIMIT - n), now)
  {
    var inv, inFlight := l.invoices[id], PaymentInFlight(l.txs, id, now);
    SplitWrites(l, id, plan, now);
    SplitRows(inv, id, plan, inFlight, now);
    UpdatedPushOut(l.invoices, id, SplitParent(inv, now), Children(inv, id, Schedule(plan, inv.total), now), w, now);
  }

  lemma SplitWrites(l: Ledger, id: nat, plan: Plan, now: int)
    requires id < |l.invoices| && Split(l.invoices[id], plan, PaymentInFlight(l.txs, id, now), now).Change?
    ensures var inv := l.invoices[id];
      var rows := Children(inv, id, Schedule(plan, inv.total), now);
      && |rows| == |Schedule(plan, inv.total)|
      && ApplySplit(l, id, plan, now).0.invoices == l.invoices[id := SplitParent(inv, now)] + rows
  {
  }

  /** The report of older rows and of as many newer ones. */
  function NewAndOlder(older: seq<Invoice>, rows: seq<Invoice>, now: int): int
    requires |rows| <= REPORT_LIMIT
  {
    Payables(rows, now) + SumReported(Take(older, REPORT_LIMIT - |rows|), now)
  }

  lemma UpdatedPushOut(invoices: seq<Invoice>, id: nat, parent: Invoice, rows: seq<Invoice>, w: Window, now: int)
    requires id < |invoices| && parent.issued == invoices[id].issued
    requires w.Covers(now) && AllBefore(invoices, now) && IssuedAt(rows, now)
    ensures |rows| <= REPORT_LIMIT ==>
      ReportTotal(invoices[id := parent] + rows, w, now)
        == NewAndOlder(Newest(Covered(invoices[id := parent], w)), rows, now)
  {
    assert AllBefore(invoices[id := parent], now);
    if |rows| <= REPORT_LIMIT { NewRowsPushOut(invoices[id := parent], rows, w, now); }
  }

  lemma NewRowsPushOut(invoices: seq<Invoice>, rows: seq<Invoice>, w: Window, now: int)
    requires w.Covers(now) && AllBefore(invoices, now) && IssuedAt(rows, now) && |rows| <= REPORT_LIMIT
    ensures ReportTotal(invoices + rows, w, now) == NewAndOlder(Newest(Covered(invoices, w)), rows, now)
  {
    CoveredAppend(invoices, rows, w, now);
    CoveredBefore(invoices, w, now);
    NewestFirst(Covered(invoices, w), rows, now);
    LimitedFirst(Newest(Covered(invoices, w)), rows, now);
  }

  lemma LimitedFirst(older: seq<Invoice>, rows: seq<Invoice>, now: int)
    requires IssuedAt(rows, now) && |rows| <= REPORT_LIMIT
    ensures SumReported(Limited(rows + older), now) == NewAndOlder(older, rows, now)
  {
    var room := Take(older, REPORT_LIMIT - |rows|);
    assert Limited(rows + older) == rows + room;
    SumConcat(rows, room, now);
    SumIsPayables(rows, now);
  }

  lemma {:induction false} CoveredBefore(invoices: seq<Invoice>, w: Window, now: int)
    requires AllBefore(invoices, now)
    ensures AllBefore(Covered(invoices, w), now)
  {
    if invoices != [] { CoveredBefore(invoices[..|invoices| - 1], w, now); }
  }

  // ---------------------------------------------------------------- a run in which the total changes

  function Billed(): Invoice { NewInvoice(Charge, [], 20_000, 0, 0, 2 * DAY, None, 0) }

  const HALVES: Plan := Custom([Part(10_000, 2 * DAY), Part(10_000, 2 * DAY)])

  const TODAY: Window := Window(Some(DAY), None)

  lemma BilledSplits()
    ensures Split(Billed(), HALVES, false, DAY).Change?
  {
    assert Amounts([Part(10_000, 2 * DAY), Part(10_000, 2 * DAY)]) == [10_000, 10_000];
    assert [10_000, 10_000][..1] == [10_000] && [10_000][..0] == [];
    assert Sum([10_000, 10_000]) == 20_000;
    assert PlanOk(HALVES, 20_000, DAY);
  }

  const YESTERDAY: Event := Event(0, OpCreate(Charge, [], 20_000, 0, 0, 2 * DAY))

  lemma BilledCreated()
    ensures WellTimed([YESTERDAY]) && After(EMPTY, [YESTERDAY]) == Ledger([Billed()], [])
  {
    assert [YESTERDAY][..0] == [];
  }

  lemma NotToday(inv: Invoice)
    requires inv.issued < DAY
    ensures Covered([inv], TODAY) == [] && ReportTotal([inv], TODAY, DAY) == 0
  {
    assert [inv][..0] == [] && Covered([], TODAY) == [];
  }

  /** The report after the split: the installments alone. */
  lemma HalvesReported()
    ensures ReportTotal(ApplySplit(Ledger([Billed()], []), 0, HALVES, DAY).0.invoices, TODAY, DAY) == 20_000
  {
    var l := Ledger([Billed()], []);
    BilledSplits();
    SplitPushesOut(l, 0, HALVES, TODAY, DAY);
    assert l.invoices[0 := SplitParent(Billed(), DAY)] == [SplitParent(Billed(), DAY)];
    NotToday(SplitParent(Billed(), DAY));
    assert Settle(Billed(), DAY).payable == 20_000;
  }

  /** An invoice issued yesterday is split today: it was not in today's report, and its installments are. */
  lemma SplitCanChangeReport()
    ensures var split := Event(DAY, OpSplit(0, HALVES));
      && WellTimed([YESTERDAY]) && WellTimed([YESTERDAY] + [split])
      && ReportTotal(After(EMPTY, [YESTERDAY]).invoices, TODAY, DAY) == 0
      && ReportTotal(After(EMPTY, [YESTERDAY] + [split]).invoices, TODAY, DAY) == 20_000
  {
    BilledCreated();
    NotToday(Billed());
    AfterOne(EMPTY, [YESTERDAY], Event(DAY, OpSplit(0, HALVES)));
    assert Apply(Ledger([Billed()], []), OpSplit(0, HALVES), DAY) == ApplySplit(Ledger([Billed()], []), 0, HALVES, DAY);
    HalvesReported();
  }
}
