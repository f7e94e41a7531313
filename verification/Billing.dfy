/**
 * The ledger's arithmetic.  Money is whole hundredths of a Rial, times are milliseconds since the
 * epoch, and a calendar day is a UTC day.
 */
module Billing {

  datatype Category = Charge | Platform

  datatype ItemKind =
    | Water | Sewage | RenovationShare | ShareDebt | ChargeOther
    | EntranceFee | MonthlyMembership | PlatformOther
    | CarriedPenalty

  /** An invoice line; `titled` says whether it carries a title of its own. */
  datatype Item = Item(kind: ItemKind, titled: bool, amount: int)

  const MAX_INVOICE_AMOUNT: int := 999_999_999_999_999
  const MAX_INVOICE_ITEMS: nat := 20
  const RIAL: int := 100
  const DAY: int := 86_400_000

  predicate Allowed(kind: ItemKind, category: Category) {
    match category
    case Platform => kind.EntranceFee? || kind.MonthlyMembership? || kind.PlatformOther?
    case Charge => kind.Water? || kind.Sewage? || kind.RenovationShare? || kind.ShareDebt? || kind.ChargeOther?
  }

  predicate WellFormedItem(item: Item, category: Category) {
    && Allowed(item.kind, category)
    && 0 < item.amount <= MAX_INVOICE_AMOUNT
    && (item.kind.ChargeOther? || item.kind.PlatformOther? ==> item.titled)
  }

  /** The lines a caller may enter. */
  predicate WellFormedItems(items: seq<Item>, category: Category) {
    0 < |items| <= MAX_INVOICE_ITEMS && forall i :: 0 <= i < |items| ==> WellFormedItem(items[i], category)
  }

  function SumItems(items: seq<Item>): int {
    if items == [] then 0 else SumItems(items[..|items| - 1]) + items[|items| - 1].amount
  }

  function Select(items: seq<Item>, carried: bool): seq<Item> {
    if items == [] then []
    else
      var rest, last := Select(items[..|items| - 1], carried), items[|items| - 1];
      if last.kind.CarriedPenalty? == carried then rest + [last] else rest
  }

  /** The penalty lines a split left on its first installment. */
  function Carried(items: seq<Item>): seq<Item> { Select(items, true) }

  function Editable(items: seq<Item>): seq<Item> { Select(items, false) }

  function CarriedTotal(items: seq<Item>): int { SumItems(Carried(items)) }

  lemma {:induction false} SelectConcat(a: seq<Item>, b: seq<Item>, carried: bool)
    ensures Select(a + b, carried) == Select(a, carried) + Select(b, carried)
  {
    if b == [] {
      assert a + b == a;
    } else {
      assert (a + b)[..|a + b| - 1] == a + b[..|b| - 1];
      SelectConcat(a, b[..|b| - 1], carried);
    }
  }

  lemma {:induction false} SelectAgain(items: seq<Item>, carried: bool, again: bool)
    ensures Select(Select(items, carried), again) == if again == carried then Select(items, carried) else []
  {
    if items != [] {
      var init, last := items[..|items| - 1], items[|items| - 1];
      SelectAgain(init, carried, again);
      if last.kind.CarriedPenalty? == carried { SelectConcat(Select(init, carried), [last], again); }
    }
  }

  /** Replacing the editable lines leaves the carried penalty lines untouched. */
  lemma CarriedSurvives(edited: seq<Item>, items: seq<Item>)
    ensures Carried(Editable(edited) + Carried(items)) == Carried(items)
  {
    SelectConcat(Editable(edited), Carried(items), true);
    SelectAgain(edited, false, true);
    SelectAgain(items, true, true);
  }

  ghost predicate AllPositive(items: seq<Item>) {
    forall i :: 0 <= i < |items| ==> items[i].amount > 0
  }

  lemma {:induction false} SelectPositive(items: seq<Item>, carried: bool)
    requires AllPositive(items)
    ensures AllPositive(Select(items, carried)) && 0 <= SumItems(Select(items, carried)) <= SumItems(items)
  {
    if items != [] { SelectPositive(items[..|items| - 1], carried); }
  }

  // ---------------------------------------------------------------- days

  function Day(t: int): int { t / DAY }

  /** Calendar days from the anchor's day to the given day; the anchor's day itself is not late. */
  function DaysLate(anchor: int, asOf: int): (days: int)
    ensures 0 <= days && (days == 0 <==> Day(asOf) <= Day(anchor))
  {
    if Day(asOf) > Day(anchor) then Day(asOf) - Day(anchor) else 0
  }

  lemma DayMonotone(a: int, b: int)
    requires a <= b
    ensures Day(a) <= Day(b)
  {
  }

  function AddDays(t: int, days: int): int { t + days * DAY }

  function Times(days: int, rate: int): int { days * rate }

  lemma TimesMonotone(days: int, rate: int, moreDays: int, moreRate: int)
    requires 0 <= days <= moreDays && 0 <= rate <= moreRate
    ensures 0 <= Times(days, rate) <= Times(moreDays, moreRate)
  {
    assert days * rate <= moreDays * rate <= moreDays * moreRate;
  }

  // ---------------------------------------------------------------- shares

  /** Rounding half up, as `Math.round` does. */
  function RoundDiv(n: int, d: int): int
    requires d > 0
  {
    (2 * n + d) / (2 * d)
  }

  /** The daily rate of an installment: its share of the whole rate, rounded to a cent. */
  function RateShare(rate: int, part: int, whole: int): int
    requires whole > 0
  {
    RoundDiv(rate * part, whole)
  }

  lemma RoundDivBounds(n: int, d: int)
    requires d > 0
    ensures 2 * n - d < 2 * (d * RoundDiv(n, d)) <= 2 * n + d
  {
    var q, r := RoundDiv(n, d), (2 * n + d) % (2 * d);
    assert 2 * n + d == (2 * d) * q + r;
    assert (2 * d) * q == 2 * (d * q);
  }

  function Sum(s: seq<int>): int {
    if s == [] then 0 else Sum(s[..|s| - 1]) + s[|s| - 1]
  }

  function RateShares(rate: int, parts: seq<int>, whole: int): seq<int>
    requires whole > 0
  {
    seq(|parts|, i requires 0 <= i < |parts| => RateShare(rate, parts[i], whole))
  }

  lemma {:induction false} RateSharesBounds(rate: int, parts: seq<int>, whole: int)
    requires whole > 0
    ensures 2 * (rate * Sum(parts)) - whole * |parts| <= 2 * (whole * Sum(RateShares(rate, parts, whole)))
      <= 2 * (rate * Sum(parts)) + whole * |parts|
  {
    if parts != [] {
      var init, last := parts[..|parts| - 1], parts[|parts| - 1];
      RateSharesBounds(rate, init, whole);
      RoundDivBounds(rate * last, whole);
      assert RateShares(rate, parts, whole)[..|init|] == RateShares(rate, init, whole);
      AddShare(rate, Sum(init), last, whole, Sum(RateShares(rate, init, whole)), RateShare(rate, last, whole), |init|);
    }
  }

  lemma AddShare(rate: int, sum: int, last: int, whole: int, shares: int, share: int, n: int)
    requires 2 * (rate * sum) - whole * n <= 2 * (whole * shares) <= 2 * (rate * sum) + whole * n
    requires 2 * (rate * last) - whole <= 2 * (whole * share) <= 2 * (rate * last) + whole
    ensures 2 * (rate * (sum + last)) - whole * (n + 1) <= 2 * (whole * (shares + share))
      <= 2 * (rate * (sum + last)) + whole * (n + 1)
  {
    assert rate * (sum + last) == rate * sum + rate * last;
    assert whole * (shares + share) == whole * shares + whole * share;
    assert whole * (n + 1) == whole * n + whole;
  }

  /** The installments' rates add up to the original rate, give or take half a cent each. */
  lemma RatesNearlyConserved(rate: int, parts: seq<int>, whole: int)
    requires whole > 0 && Sum(parts) == whole
    ensures -|parts| <= 2 * (Sum(RateShares(rate, parts, whole)) - rate) <= |parts|
  {
    RateSharesBounds(rate, parts, whole);
    FactorOut(rate, whole, Sum(RateShares(rate, parts, whole)), |parts|);
  }

  lemma FactorOut(rate: int, whole: int, shares: int, n: int)
    requires whole > 0 && 2 * (rate * whole) - whole * n <= 2 * (whole * shares) <= 2 * (rate * whole) + whole * n
    ensures -n <= 2 * (shares - rate) <= n
  {
    var gap := 2 * (shares - rate);
    assert whole * gap == 2 * (whole * shares) - 2 * (rate * whole);
    if gap > n { TimesGap(whole, gap, n); }
    if -n > gap {
      TimesGap(whole, -n, gap);
    }
  }

  lemma TimesGap(whole: int, a: int, b: int)
    requires whole > 0 && a > b
    ensures whole * a >= whole * b + whole
  {
    TimesNonNegative(whole, a - b - 1);
    assert whole * (a - b - 1) == whole * a - whole * b - whole;
  }

  lemma TimesNonNegative(a: int, b: int)
    requires a >= 0 && b >= 0
    ensures a * b >= 0
  {
  }

  /** What rounding a part's rate leaves over, in units of half the smallest fraction. */
  function Leftover(rate: int, part: int, whole: int): int
    requires whole > 0
  {
    (2 * (rate * part) + whole) % (2 * whole)
  }

  function Leftovers(rate: int, parts: seq<int>, whole: int): int
    requires whole > 0
  {
    if parts == [] then 0
    else Leftovers(rate, parts[..|parts| - 1], whole) + Leftover(rate, parts[|parts| - 1], whole)
  }

  /** What the rounded rates and the leftovers add up to. */
  lemma {:induction false} LeftoversBalance(rate: int, parts: seq<int>, whole: int)
    requires whole > 0
    ensures 2 * (rate * Sum(parts)) + whole * |parts|
      == 2 * (whole * Sum(RateShares(rate, parts, whole))) + Leftovers(rate, parts, whole)
  {
    if parts != [] {
      var init, last := parts[..|parts| - 1], parts[|parts| - 1];
      LeftoversBalance(rate, init, whole);
      assert RateShares(rate, parts, whole)[..|init|] == RateShares(rate, init, whole);
      AddLeftover(rate, Sum(init), last, whole, Sum(RateShares(rate, init, whole)), RateShare(rate, last, whole),
                  |init|, Leftovers(rate, init, whole), Leftover(rate, last, whole));
    }
  }

  lemma AddLeftover(rate: int, sum: int, last: int, whole: int, shares: int, share: int, n: int, left: int, more: int)
    requires 2 * (rate * sum) + whole * n == 2 * (whole * shares) + left
    requires 2 * (rate * last) + whole == 2 * (whole * share) + more
    ensures 2 * (rate * (sum + last)) + whole * (n + 1) == 2 * (whole * (shares + share)) + (left + more)
  {
    assert rate * (sum + last) == rate * sum + rate * last;
    assert whole * (shares + share) == whole * shares + whole * share;
    assert whole * (n + 1) == whole * n + whole;
  }

  /** The installments' rates stay within the original rate exactly when the leftovers are at least half a cent for each
      installment: a condition on the rate and the schedule alone. */
  lemma RatesWithin(rate: int, parts: seq<int>, whole: int)
    requires whole > 0 && Sum(parts) == whole
    ensures Sum(RateShares(rate, parts, whole)) <= rate <==> Leftovers(rate, parts, whole) >= whole * |parts|
  {
    LeftoversBalance(rate, parts, whole);
    SameOrder(whole, Sum(RateShares(rate, parts, whole)), rate);
  }

  lemma SameOrder(whole: int, a: int, b: int)
    requires whole > 0
    ensures a <= b <==> whole * a <= b * whole
  {
    if a > b { TimesGap(whole, a, b); }
    if b > a { TimesGap(whole, b, a); }
  }

  /** They can exceed it: two halves of one cent a day round up to one cent each, and leave nothing over. */
  lemma RatesCanExceed()
    ensures Sum([50, 50]) == 100 && Sum(RateShares(1, [50, 50], 100)) == 2
  {
    assert [50, 50][..1] == [50] && RateShares(1, [50, 50], 100) == [1, 1];
    assert [1, 1][..1] == [1];
  }

  // ---------------------------------------------------------------- the even split

  function BaseShare(total: int, count: int): int
    requires count > 0
  {
    total / (RIAL * count) * RIAL
  }

  ghost function EvenShares(total: int, count: int): seq<int>
    requires count > 0
  {
    seq(count, i requires 0 <= i < count =>
      if i < count - 1 then BaseShare(total, count) else total - (count - 1) * BaseShare(total, count))
  }

  /** `splitEvenly`: an array of equal shares whose last slot is overwritten with the rest. */
  method SplitEvenly(total: int, count: int) returns (amounts: array<int>)
    requires count > 0
    ensures fresh(amounts) && amounts[..] == EvenShares(total, count)
  {
    var share := BaseShare(total, count);
    amounts := new int[count](_ => share);
    amounts[count - 1] := total - (count - 1) * share;
    assert amounts[..] == EvenShares(total, count);
  }

  lemma {:induction false} SumConstant(s: seq<int>, v: int)
    requires forall i :: 0 <= i < |s| ==> s[i] == v
    ensures Sum(s) == |s| * v
  {
    if s != [] {
      SumConstant(s[..|s| - 1], v);
      assert |s| * v == (|s| - 1) * v + v;
    }
  }

  /** The even split loses nothing; every share but the last is the same whole number of Rials, and the last
      exceeds it by less than one Rial per installment. */
  lemma EvenSplitConserves(total: int, count: int)
    requires total >= 0 && count > 0
    ensures var s := EvenShares(total, count);
      && Sum(s) == total
      && (forall i :: 0 <= i < count - 1 ==> s[i] == BaseShare(total, count))
      && BaseShare(total, count) >= 0 && BaseShare(total, count) % RIAL == 0
      && 0 <= s[count - 1] - BaseShare(total, count) < count * RIAL
  {
    var s, share := EvenShares(total, count), BaseShare(total, count);
    SumConstant(s[..count - 1], share);
    BaseShareBounds(total, count);
  }

  lemma BaseShareBounds(total: int, count: int)
    requires total >= 0 && count > 0
    ensures var share := BaseShare(total, count);
      share >= 0 && share % RIAL == 0 && 0 <= total - (count - 1) * share - share < count * RIAL
  {
    var d := RIAL * count;
    DivMod(total, d);
    LastShare(total, count, total / d, total % d);
  }

  lemma DivMod(total: int, d: int)
    requires total >= 0 && d > 0
    ensures total == d * (total / d) + total % d && 0 <= total % d < d && total / d >= 0
  {
  }

  lemma LastShare(total: int, count: int, q: int, r: int)
    requires q >= 0 && total == (RIAL * count) * q + r && 0 <= r < RIAL * count
    ensures q * RIAL >= 0 && (q * RIAL) % RIAL == 0 && 0 <= total - (count - 1) * (q * RIAL) - q * RIAL < count * RIAL
  {
    assert (count - 1) * (q * RIAL) + q * RIAL == (RIAL * count) * q;
  }
}
