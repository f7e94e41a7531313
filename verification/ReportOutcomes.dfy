/**
 * What the financial report adds up, told from the stored rows.
 */
module ReportOutcomes {
  import opened LedgerModel
  import opened LedgerOutcomes
  import opened LedgerReport
  import opened Options

  predicate Issued(inv: Invoice, w: Window) {
    (w.from == None || inv.issued >= w.from.value) && (w.until == None || inv.issued <= w.until.value)
  }

  /** An invoice that was split, or paid by its installments, is worth nothing beside them; an unsettled one is worth
      its total and the penalty accrued so far, a cancelled one its total, and any other its total and what was
      frozen. */
  function Worth(inv: Invoice, now: int): int {
    if inv.status == Installments || (inv.status == Paid && inv.paidBy == ByInstallments) then 0
    else if Unsettled(inv) then inv.total + Accrued(inv, now)
    else if inv.status == Cancelled then inv.total
    else inv.total + inv.latePenalty
  }

  function CountIssued(rows: seq<Invoice>, w: Window): nat {
    if rows == [] then 0 else (if Issued(rows[0], w) then 1 else 0) + CountIssued(rows[1..], w)
  }

  function WorthIssued(rows: seq<Invoice>, w: Window, now: int): int {
    if rows == [] then 0 else (if Issued(rows[0], w) then Worth(rows[0], now) else 0) + WorthIssued(rows[1..], w, now)
  }

  lemma WorthIs(inv: Invoice, now: int)
    ensures ReportedAmount(inv, now) == Worth(inv, now)
  {
    SettlementIs(inv, now);
  }

  lemma {:induction false} CoveredConcat(a: seq<Invoice>, b: seq<Invoice>, w: Window)
    ensures Covered(a + b, w) == Covered(a, w) + Covered(b, w)
  {
    if b == [] {
      assert a + b == a;
    } else {
      assert (a + b)[..|a + b| - 1] == a + b[..|b| - 1];
      CoveredConcat(a, b[..|b| - 1], w);
    }
  }

  lemma {:induction false} CoveredIs(rows: seq<Invoice>, w: Window, now: int)
    ensures |Covered(rows, w)| == CountIssued(rows, w)
    ensures SumReported(Covered(rows, w), now) == WorthIssued(rows, w, now)
  {
    if rows != [] {
      var first, rest := rows[..1], rows[1..];
      assert rows == first + rest && first[..0] == [];
      CoveredConcat(first, rest, w);
      CoveredIs(rest, w, now);
      WorthIs(rows[0], now);
      SumConcat(Covered(first, w), Covered(rest, w), now);
      if Issued(rows[0], w) { assert [rows[0]][..0] == [] && Covered(first, w) == [rows[0]]; }
    }
  }

  /** While no more than two thousand invoices were issued in the window, the report adds up what each of them is
      worth. */
  lemma ReportOutcome(rows: seq<Invoice>, w: Window, now: int)
    requires CountIssued(rows, w) <= 2000
    ensures ReportTotal(rows, w, now) == WorthIssued(rows, w, now)
  {
    CoveredIs(rows, w, now);
    TotalAndOmitted(rows, w, now);
  }
}
