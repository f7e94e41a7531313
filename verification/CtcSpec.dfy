/**
 * The meaning of a CTC probability matrix, independent of any decoder.
 *
 * A path assigns one class to every time step.  Collapsing a path merges runs of equal
 * classes and then drops the blanks.  The mass of a prefix is the brute-force sum, over
 * every path that collapses to it, of the product of the clamped probabilities.
 *
 * Probabilities are reals (not logarithms), so 0.0 plays the role of -Infinity, `+` of
 * logSumExp and `*` of `+`.
 */
module CtcSpec {

  type Row = seq<real>
  type Prefix = seq<nat>

  /** A path, latest time step outermost. */
  datatype Path = Start | Then(before: Path, cls: nat)

  const FLOOR: real := 0.000000000001

  /** `Math.max(p, 1e-12)`. */
  function Clamp(p: real): (q: real)
    ensures q >= FLOOR && q >= p && (q == p || q == FLOOR)
  {
    if p > FLOOR then p else FLOOR
  }

  // ---------------------------------------------------------------- collapsing

  function Length(path: Path): nat {
    match path
    case Start => 0
    case Then(before, _) => 1 + Length(before)
  }

  function MergeRepeats(path: Path): Path {
    match path
    case Start => Start
    case Then(before, c) =>
      if before.Then? && before.cls == c then MergeRepeats(before) else Then(MergeRepeats(before), c)
  }

  function DropBlanks(path: Path, blank: nat): Prefix {
    match path
    case Start => []
    case Then(before, c) => DropBlanks(before, blank) + if c == blank then [] else [c]
  }

  function Collapse(path: Path, blank: nat): Prefix {
    DropBlanks(MergeRepeats(path), blank)
  }

  predicate EndsInBlank(path: Path, blank: nat) {
    path.Start? || path.cls == blank
  }

  /** How one more time step changes the collapsed label. */
  lemma CollapseStep(path: Path, c: nat, blank: nat)
    ensures Collapse(Then(path, c), blank)
         == if c == blank || (path.Then? && path.cls == c) then Collapse(path, blank) else Collapse(path, blank) + [c]
  {
  }

  /** A path whose last step is not blank collapses to a label that ends with that step. */
  lemma {:induction false} CollapseLast(path: Path, blank: nat)
    requires !EndsInBlank(path, blank)
    ensures Collapse(path, blank) != []
    ensures Collapse(path, blank)[|Collapse(path, blank)| - 1] == path.cls
  {
    CollapseStep(path.before, path.cls, blank);
    if path.before.Then? && path.before.cls == path.cls { CollapseLast(path.before, blank); }
  }

  lemma {:induction false} CollapseLength(path: Path, blank: nat)
    ensures |Collapse(path, blank)| <= Length(path)
  {
    if path.Then? {
      CollapseLength(path.before, blank);
      CollapseStep(path.before, path.cls, blank);
    }
  }

  // ---------------------------------------------------------------- sums over all paths

  ghost function After(f: Path -> real, c: nat): Path -> real {
    p => f(Then(p, c))
  }

  /** The sum of `f` over every path of length `t` with classes below `classes`: one nested sum a step. */
  ghost function SumPaths(f: Path -> real, t: nat, classes: nat): real
    decreases t, 0
  {
    if t == 0 then f(Start) else SumLast(f, t - 1, classes, classes)
  }

  /** ... restricted to paths of length `t + 1` whose last class is below `k`. */
  ghost function SumLast(f: Path -> real, t: nat, classes: nat, k: nat): real
    decreases t, 1, k
  {
    if k == 0 then 0.0 else SumLast(f, t, classes, k - 1) + SumPaths(After(f, k - 1), t, classes)
  }

  lemma {:induction false} SumAdd(f: Path -> real, g: Path -> real, h: Path -> real, t: nat, classes: nat)
    requires forall p :: h(p) == f(p) + g(p)
    ensures SumPaths(h, t, classes) == SumPaths(f, t, classes) + SumPaths(g, t, classes)
    decreases t, 0
  {
    if t > 0 { SumLastAdd(f, g, h, t - 1, classes, classes); }
  }

  lemma {:induction false} SumLastAdd(f: Path -> real, g: Path -> real, h: Path -> real, t: nat, classes: nat, k: nat)
    requires forall p :: h(p) == f(p) + g(p)
    ensures SumLast(h, t, classes, k) == SumLast(f, t, classes, k) + SumLast(g, t, classes, k)
    decreases t, 1, k
  {
    if k > 0 {
      SumLastAdd(f, g, h, t, classes, k - 1);
      SumAdd(After(f, k - 1), After(g, k - 1), After(h, k - 1), t, classes);
    }
  }

  /** Pointwise comparison on the paths that are summed. */
  lemma {:induction false} SumLeq(f: Path -> real, g: Path -> real, t: nat, classes: nat)
    requires forall p :: Length(p) == t ==> f(p) <= g(p)
    ensures SumPaths(f, t, classes) <= SumPaths(g, t, classes)
    decreases t, 0
  {
    if t > 0 { SumLastLeq(f, g, t - 1, classes, classes); } else { assert Length(Start) == 0; }
  }

  lemma {:induction false} SumLastLeq(f: Path -> real, g: Path -> real, t: nat, classes: nat, k: nat)
    requires forall p :: Length(p) == t + 1 ==> f(p) <= g(p)
    ensures SumLast(f, t, classes, k) <= SumLast(g, t, classes, k)
    decreases t, 1, k
  {
    if k > 0 {
      SumLastLeq(f, g, t, classes, k - 1);
      forall p | Length(p) == t ensures After(f, k - 1)(p) <= After(g, k - 1)(p) {
        assert Length(Then(p, k - 1)) == t + 1;
      }
      SumLeq(After(f, k - 1), After(g, k - 1), t, classes);
    }
  }

  lemma SumEqual(f: Path -> real, g: Path -> real, t: nat, classes: nat)
    requires forall p :: Length(p) == t ==> f(p) == g(p)
    ensures SumPaths(f, t, classes) == SumPaths(g, t, classes)
  {
    SumLeq(f, g, t, classes);
    SumLeq(g, f, t, classes);
  }

  lemma {:induction false} SumZero(t: nat, classes: nat)
    ensures SumPaths(p => 0.0, t, classes) == 0.0
    decreases t, 0
  {
    if t > 0 { SumLastZero(t - 1, classes, classes); }
  }

  lemma {:induction false} SumLastZero(t: nat, classes: nat, k: nat)
    ensures SumLast(p => 0.0, t, classes, k) == 0.0
    decreases t, 1, k
  {
    if k > 0 {
      SumLastZero(t, classes, k - 1);
      SumZero(t, classes);
      SumEqual(After(p => 0.0, k - 1), p => 0.0, t, classes);
    }
  }

  /** Scaling every term scales the sum. */
  ghost function Scaled(f: Path -> real, q: real): Path -> real {
    p => f(p) * q
  }

  lemma {:induction false} SumScaled(f: Path -> real, q: real, t: nat, classes: nat)
    ensures SumPaths(Scaled(f, q), t, classes) == SumPaths(f, t, classes) * q
    decreases t, 0
  {
    if t > 0 { SumLastScaled(f, q, t - 1, classes, classes); }
  }

  lemma {:induction false} SumLastScaled(f: Path -> real, q: real, t: nat, classes: nat, k: nat)
    ensures SumLast(Scaled(f, q), t, classes, k) == SumLast(f, t, classes, k) * q
    decreases t, 1, k
  {
    if k > 0 {
      SumLastScaled(f, q, t, classes, k - 1);
      SumScaled(After(f, k - 1), q, t, classes);
      SumEqual(After(Scaled(f, q), k - 1), Scaled(After(f, k - 1), q), t, classes);
      Distribute(SumLast(f, t, classes, k - 1), SumPaths(After(f, k - 1), t, classes), q);
    }
  }

  lemma Distribute(a: real, b: real, q: real)
    ensures (a + b) * q == a * q + b * q
  {
  }

  /** When only last class `c` gives non-zero terms, the sum is that over the shorter paths. */
  lemma {:induction false} SumOneClass(f: Path -> real, g: Path -> real, t: nat, classes: nat, k: nat, c: nat)
    requires forall p, d: nat :: Length(p) == t ==> f(Then(p, d)) == if d == c then g(p) else 0.0
    ensures SumLast(f, t, classes, k) == if c < k then SumPaths(g, t, classes) else 0.0
    decreases k
  {
    if k > 0 {
      SumOneClass(f, g, t, classes, k - 1, c);
      if k - 1 == c {
        SumEqual(After(f, k - 1), g, t, classes);
      } else {
        SumEqual(After(f, k - 1), p => 0.0, t, classes);
        SumZero(t, classes);
      }
    }
  }

  // ---------------------------------------------------------------- masses

  /** Clamped probability of class `c` at time `t`. */
  function Prob(rows: seq<Row>, t: nat, c: nat): (q: real)
    ensures q > 0.0
  {
    Clamp(if t < |rows| && c < |rows[t]| then rows[t][c] else 0.0)
  }

  /** Product of the clamped probabilities along a path. */
  ghost function Weight(rows: seq<Row>, path: Path): real {
    match path
    case Start => 1.0
    case Then(before, c) => Weight(rows, before) * Prob(rows, Length(before), c)
  }

  lemma {:induction false} WeightNonNegative(rows: seq<Row>, path: Path)
    ensures Weight(rows, path) >= 0.0
  {
    if path.Then? {
      WeightNonNegative(rows, path.before);
      TimesNonNegative(Weight(rows, path.before), Prob(rows, Length(path.before), path.cls));
    }
  }

  lemma TimesNonNegative(a: real, b: real)
    requires a >= 0.0 && b >= 0.0
    ensures a * b >= 0.0
  {
  }

  ghost function WeightIn(rows: seq<Row>): Path -> real {
    p => Weight(rows, p)
  }

  /** Reading class `c` after `t` steps multiplies the weight of a path by `q`. */
  ghost predicate Grows(weight: Path -> real, t: nat, c: nat, q: real) {
    forall p :: Length(p) == t ==> weight(Then(p, c)) == weight(p) * q
  }

  lemma WeightGrows(rows: seq<Row>, t: nat, c: nat)
    ensures Grows(WeightIn(rows), t, c, Prob(rows, t, c))
  {
    forall p | Length(p) == t ensures WeightIn(rows)(Then(p, c)) == WeightIn(rows)(p) * Prob(rows, t, c) {
      WeightStep(rows, p, c);
    }
  }

  lemma WeightStep(rows: seq<Row>, path: Path, c: nat)
    ensures WeightIn(rows)(Then(path, c)) == WeightIn(rows)(path) * Prob(rows, Length(path), c)
  {
    WeightInIs(rows, path);
    calc {
      WeightIn(rows)(Then(path, c));
      { WeightInIs(rows, Then(path, c)); }
      Weight(rows, Then(path, c));
      { WeightThen(rows, path, c); }
      Weight(rows, path) * Prob(rows, Length(path), c);
      WeightIn(rows)(path) * Prob(rows, Length(path), c);
    }
  }

  lemma WeightInIs(rows: seq<Row>, path: Path)
    ensures WeightIn(rows)(path) == Weight(rows, path)
  {
  }

  lemma WeightThen(rows: seq<Row>, path: Path, c: nat)
    ensures Weight(rows, Then(path, c)) == Weight(rows, path) * Prob(rows, Length(path), c)
  {
  }

  ghost predicate Counts(path: Path, blank: nat, prefix: Prefix, endBlank: bool) {
    Collapse(path, blank) == prefix && EndsInBlank(path, blank) == endBlank
  }

  /** What a path contributes to `prefix`: its weight when it collapses to it with the given ending. */
  ghost function Shares(weight: Path -> real, blank: nat, prefix: Prefix, endBlank: bool): Path -> real {
    p => if Counts(p, blank, prefix, endBlank) then weight(p) else 0.0
  }

  ghost function EitherShares(weight: Path -> real, blank: nat, prefix: Prefix): Path -> real {
    p => if Collapse(p, blank) == prefix then weight(p) else 0.0
  }

  lemma SharesAt(weight: Path -> real, blank: nat, prefix: Prefix, endBlank: bool, path: Path)
    ensures Shares(weight, blank, prefix, endBlank)(path)
      == if Counts(path, blank, prefix, endBlank) then weight(path) else 0.0
    ensures EitherShares(weight, blank, prefix)(path) == if Collapse(path, blank) == prefix then weight(path) else 0.0
  {
  }

  /** What it contributes to reading the last character of `prefix` anew: a repeat needs a blank between. */
  ghost function ParentShares(weight: Path -> real, blank: nat, prefix: Prefix): Path -> real
    requires prefix != []
  {
    var last, parent := prefix[|prefix| - 1], prefix[..|prefix| - 1];
    if parent != [] && parent[|parent| - 1] == last then Shares(weight, blank, parent, true)
    else EitherShares(weight, blank, parent)
  }

  ghost function StayOrExtend(weight: Path -> real, blank: nat, prefix: Prefix): Path -> real
    requires prefix != []
  {
    p => Shares(weight, blank, prefix, false)(p) + ParentShares(weight, blank, prefix)(p)
  }

  /** CTC mass of `prefix` after the first `t` rows, over classes 0..blank. */
  ghost function Mass(rows: seq<Row>, t: nat, blank: nat, prefix: Prefix, endBlank: bool): real {
    SumPaths(Shares(WeightIn(rows), blank, prefix, endBlank), t, blank + 1)
  }

  ghost function TotalMass(rows: seq<Row>, t: nat, blank: nat, prefix: Prefix): real {
    SumPaths(EitherShares(WeightIn(rows), blank, prefix), t, blank + 1)
  }

  lemma TotalIsBoth(rows: seq<Row>, t: nat, blank: nat, prefix: Prefix)
    ensures TotalMass(rows, t, blank, prefix)
      == Mass(rows, t, blank, prefix, true) + Mass(rows, t, blank, prefix, false)
  {
    var w := WeightIn(rows);
    forall p
      ensures EitherShares(w, blank, prefix)(p)
        == Shares(w, blank, prefix, true)(p) + Shares(w, blank, prefix, false)(p)
    {
      SharesAt(w, blank, prefix, true, p);
      SharesAt(w, blank, prefix, false, p);
    }
    SumAdd(Shares(w, blank, prefix, true), Shares(w, blank, prefix, false),
      EitherShares(w, blank, prefix), t, blank + 1);
  }

  lemma MassNonNegative(rows: seq<Row>, t: nat, blank: nat, prefix: Prefix, endBlank: bool)
    ensures Mass(rows, t, blank, prefix, endBlank) >= 0.0
  {
    SumZero(t, blank + 1);
    forall p ensures Shares(WeightIn(rows), blank, prefix, endBlank)(p) >= 0.0 {
      SharesAt(WeightIn(rows), blank, prefix, endBlank, p);
      WeightNonNegative(rows, p);
    }
    SumLeq(p => 0.0, Shares(WeightIn(rows), blank, prefix, endBlank), t, blank + 1);
  }

  lemma BlankShare(weight: Path -> real, path: Path, blank: nat, prefix: Prefix, d: nat, q: real)
    requires d == blank ==> weight(Then(path, d)) == weight(path) * q
    ensures Shares(weight, blank, prefix, true)(Then(path, d))
         == if d == blank then Scaled(EitherShares(weight, blank, prefix), q)(path) else 0.0
  {
    CollapseStep(path, d, blank);
    SharesAt(weight, blank, prefix, true, Then(path, d));
    SharesAt(weight, blank, prefix, true, path);
  }

  /**
   * The recurrence a prefix beam search relies on, derived from the brute-force sum.  Ending in
   * blank: any path for the prefix, then a blank.
   */
  lemma MassBlank(rows: seq<Row>, t: nat, blank: nat, prefix: Prefix)
    ensures Mass(rows, t + 1, blank, prefix, true) == TotalMass(rows, t, blank, prefix) * Prob(rows, t, blank)
  {
    WeightGrows(rows, t, blank);
    BlankSum(WeightIn(rows), t, blank, prefix, Prob(rows, t, blank));
  }

  lemma BlankSum(weight: Path -> real, t: nat, blank: nat, prefix: Prefix, q: real)
    requires Grows(weight, t, blank, q)
    ensures SumPaths(Shares(weight, blank, prefix, true), t + 1, blank + 1)
         == SumPaths(EitherShares(weight, blank, prefix), t, blank + 1) * q
  {
    var f, g := Shares(weight, blank, prefix, true), Scaled(EitherShares(weight, blank, prefix), q);
    forall p, d: nat | Length(p) == t ensures f(Then(p, d)) == if d == blank then g(p) else 0.0 {
      BlankShare(weight, p, blank, prefix, d, q);
    }
    SumOneClass(f, g, t, blank + 1, blank + 1, blank);
    SumScaled(EitherShares(weight, blank, prefix), q, t, blank + 1);
  }

  ghost function ParentMass(rows: seq<Row>, t: nat, blank: nat, prefix: Prefix): real
    requires prefix != []
  {
    var last, parent := prefix[|prefix| - 1], prefix[..|prefix| - 1];
    if parent != [] && parent[|parent| - 1] == last then Mass(rows, t, blank, parent, true)
    else TotalMass(rows, t, blank, parent)
  }

  lemma CharacterCounts(path: Path, blank: nat, prefix: Prefix, c: nat)
    requires prefix != [] && prefix[|prefix| - 1] < blank
    ensures var last, parent := prefix[|prefix| - 1], prefix[..|prefix| - 1];
      Counts(Then(path, c), blank, prefix, false) <==>
        c == last && (Counts(path, blank, prefix, false)
                      || (Collapse(path, blank) == parent
                          && (EndsInBlank(path, blank) || parent == [] || parent[|parent| - 1] != last)))
  {
    CollapseStep(path, c, blank);
    if !EndsInBlank(path, blank) { CollapseLast(path, blank); }
    var parent := prefix[..|prefix| - 1];
    assert prefix == parent + [prefix[|prefix| - 1]];
    assert Collapse(path, blank) + [c] == prefix <==> c == prefix[|prefix| - 1] && Collapse(path, blank) == parent;
  }

  /** Staying on the prefix or extending its parent, as a share of the shorter path. */
  lemma CharacterShare(weight: Path -> real, path: Path, blank: nat, prefix: Prefix)
    requires prefix != [] && prefix[|prefix| - 1] < blank
    ensures StayOrExtend(weight, blank, prefix)(path)
         == if Counts(Then(path, prefix[|prefix| - 1]), blank, prefix, false) then weight(path) else 0.0
  {
    var last, parent := prefix[|prefix| - 1], prefix[..|prefix| - 1];
    CharacterCounts(path, blank, prefix, last);
    assert |parent| != |prefix|;
    SharesAt(weight, blank, prefix, false, path);
    SharesAt(weight, blank, parent, true, path);
    if !EndsInBlank(path, blank) { CollapseLast(path, blank); }
  }

  lemma ScaledCase(b: bool, w: real, q: real)
    ensures (if b then w * q else 0.0) == (if b then w else 0.0) * q
  {
  }

  lemma CharacterStep(weight: Path -> real, path: Path, blank: nat, prefix: Prefix, d: nat, q: real)
    requires prefix != [] && prefix[|prefix| - 1] < blank
    requires d == prefix[|prefix| - 1] ==> weight(Then(path, d)) == weight(path) * q
    ensures Shares(weight, blank, prefix, false)(Then(path, d))
         == if d == prefix[|prefix| - 1] then Scaled(StayOrExtend(weight, blank, prefix), q)(path) else 0.0
  {
    var counts := Counts(Then(path, d), blank, prefix, false);
    SharesAt(weight, blank, prefix, false, Then(path, d));
    if d == prefix[|prefix| - 1] {
      assert StayOrExtend(weight, blank, prefix)(path) == if counts then weight(path) else 0.0 by {
        CharacterShare(weight, path, blank, prefix);
      }
      ScaledCase(counts, weight(path), q);
    } else {
      assert !counts by { CharacterCounts(path, blank, prefix, d); }
    }
  }

  lemma CharacterSum(weight: Path -> real, t: nat, blank: nat, prefix: Prefix, q: real)
    requires prefix != [] && prefix[|prefix| - 1] < blank && Grows(weight, t, prefix[|prefix| - 1], q)
    ensures SumPaths(Shares(weight, blank, prefix, false), t + 1, blank + 1)
         == (SumPaths(Shares(weight, blank, prefix, false), t, blank + 1)
             + SumPaths(ParentShares(weight, blank, prefix), t, blank + 1)) * q
  {
    var last, f, both := prefix[|prefix| - 1], Shares(weight, blank, prefix, false),
      StayOrExtend(weight, blank, prefix);
    forall p, d: nat | Length(p) == t ensures f(Then(p, d)) == if d == last then Scaled(both, q)(p) else 0.0 {
      CharacterStep(weight, p, blank, prefix, d, q);
    }
    SumOneClass(f, Scaled(both, q), t, blank + 1, blank + 1, last);
    SumScaled(both, q, t, blank + 1);
    SumAdd(f, ParentShares(weight, blank, prefix), both, t, blank + 1);
  }

  /** Ending in a character: the prefix goes on with its last character, or its parent is extended. */
  lemma MassCharacter(rows: seq<Row>, t: nat, blank: nat, prefix: Prefix)
    requires prefix != [] && prefix[|prefix| - 1] < blank
    ensures Mass(rows, t + 1, blank, prefix, false)
         == (Mass(rows, t, blank, prefix, false) + ParentMass(rows, t, blank, prefix))
            * Prob(rows, t, prefix[|prefix| - 1])
  {
    WeightGrows(rows, t, prefix[|prefix| - 1]);
    CharacterSum(WeightIn(rows), t, blank, prefix, Prob(rows, t, prefix[|prefix| - 1]));
  }

  /** The empty matrix: only the empty prefix has mass, and it counts as ending in blank. */
  lemma MassStart(rows: seq<Row>, blank: nat, prefix: Prefix, endBlank: bool)
    ensures Mass(rows, 0, blank, prefix, endBlank) == if prefix == [] && endBlank then 1.0 else 0.0
  {
    assert Collapse(Start, blank) == [];
  }

  /** No path of length `t` collapses to a longer label, and the empty label always ends in blank. */
  lemma MassOutOfReach(rows: seq<Row>, t: nat, blank: nat, prefix: Prefix, endBlank: bool)
    requires |prefix| > t || (prefix == [] && !endBlank)
    ensures Mass(rows, t, blank, prefix, endBlank) == 0.0
  {
    forall p | Length(p) == t ensures !Counts(p, blank, prefix, endBlank) {
      CollapseLength(p, blank);
      if !EndsInBlank(p, blank) { CollapseLast(p, blank); }
    }
    SumEqual(Shares(WeightIn(rows), blank, prefix, endBlank), p => 0.0, t, blank + 1);
    SumZero(t, blank + 1);
  }

  // ---------------------------------------------------------------- all the mass there is

  ghost function RowSum(rows: seq<Row>, t: nat, k: nat): real {
    if k == 0 then 0.0 else RowSum(rows, t, k - 1) + Prob(rows, t, k - 1)
  }

  ghost function RowProduct(rows: seq<Row>, t: nat, classes: nat): real {
    if t == 0 then 1.0 else RowProduct(rows, t - 1, classes) * RowSum(rows, t - 1, classes)
  }

  /** Over all paths, the weights add up to the product of the row sums. */
  lemma {:induction false} TotalWeight(rows: seq<Row>, t: nat, classes: nat)
    ensures SumPaths(WeightIn(rows), t, classes) == RowProduct(rows, t, classes)
    decreases t
  {
    if t > 0 {
      TotalWeight(rows, t - 1, classes);
      LastWeight(rows, t - 1, classes, classes);
    }
  }

  lemma {:induction false} LastWeight(rows: seq<Row>, t: nat, classes: nat, k: nat)
    ensures SumLast(WeightIn(rows), t, classes, k) == SumPaths(WeightIn(rows), t, classes) * RowSum(rows, t, k)
  {
    if k > 0 {
      LastWeight(rows, t, classes, k - 1);
      ClassWeight(rows, t, classes, k - 1);
      Accumulate(SumPaths(WeightIn(rows), t, classes), RowSum(rows, t, k - 1), Prob(rows, t, k - 1));
    }
  }

  lemma ClassWeight(rows: seq<Row>, t: nat, classes: nat, c: nat)
    ensures SumPaths(After(WeightIn(rows), c), t, classes) == SumPaths(WeightIn(rows), t, classes) * Prob(rows, t, c)
  {
    WeightGrows(rows, t, c);
    OneClassSum(WeightIn(rows), t, classes, c, Prob(rows, t, c));
  }

  lemma OneClassSum(weight: Path -> real, t: nat, classes: nat, c: nat, q: real)
    requires Grows(weight, t, c, q)
    ensures SumPaths(After(weight, c), t, classes) == SumPaths(weight, t, classes) * q
  {
    SumEqual(After(weight, c), Scaled(weight, q), t, classes);
    SumScaled(weight, q, t, classes);
  }

  lemma Accumulate(whole: real, sum: real, q: real)
    ensures whole * sum + whole * q == whole * (sum + q)
  {
  }
}
