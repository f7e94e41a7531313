/**
 * Whole runs of the beam search: exactness when nothing is lost, lower bounds and grammar
 * safety for any width and threshold, and the bound on the total beam mass.
 */
module CtcRun {
  import opened CtcSpec
  import opened CtcBeam

  const START := Beam([], Score(1.0, 0.0))

  /** One row of the loop: emit, then keep the heaviest `width`; ties may fall either way. */
  ghost predicate RowStep(g: Grammar, rows: seq<Row>, t: nat, prune: real, width: nat, beams: seq<Beam>,
                          next: map<Prefix, Score>, after: seq<Beam>)
    requires t < |rows|
  {
    IsNext(g, GainAt(rows, t), Candidates(rows[t], g.blank, prune), beams, next) && IsTop(next, width, after)
  }

  /** A run: the beams before each row and at the end, with the uncut entries of every row. */
  datatype Run = Run(beams: seq<seq<Beam>>, nexts: seq<map<Prefix, Score>>)

  ghost predicate IsRun(g: Grammar, rows: seq<Row>, prune: real, width: nat, run: Run) {
    |run.beams| == |rows| + 1 && |run.nexts| == |rows| && run.beams[0] == [START]
    && forall t :: 0 <= t < |rows| ==> RowStep(g, rows, t, prune, width, run.beams[t], run.nexts[t], run.beams[t + 1])
  }

  // ---------------------------------------------------------------- what the beams say about a prefix

  /** Score the beams hold for a prefix; zero when it has no beam. */
  ghost function Held(beams: seq<Beam>, prefix: Prefix): Score {
    if beams == [] then ZERO
    else
      var b := beams[|beams| - 1];
      Plus(Held(beams[..|beams| - 1], prefix), if b.prefix == prefix then b.score else ZERO)
  }

  lemma {:induction false} HeldNone(beams: seq<Beam>, prefix: Prefix)
    requires !Holds(beams, prefix)
    ensures Held(beams, prefix) == ZERO
  {
    if beams != [] {
      var n := |beams| - 1;
      assert beams == beams[..n] + [beams[n]];
      HoldsSnoc(beams[..n], beams[n], prefix);
      HeldNone(beams[..n], prefix);
    }
  }

  lemma DistinctInit(beams: seq<Beam>)
    requires DistinctPrefixes(beams) && beams != []
    ensures DistinctPrefixes(beams[..|beams| - 1]) && !Holds(beams[..|beams| - 1], beams[|beams| - 1].prefix)
  {
  }

  lemma {:induction false} HeldAt(beams: seq<Beam>, i: nat)
    requires DistinctPrefixes(beams) && i < |beams|
    ensures Held(beams, beams[i].prefix) == beams[i].score
  {
    var n := |beams| - 1;
    DistinctInit(beams);
    if i == n {
      HeldNone(beams[..n], beams[n].prefix);
    } else {
      HeldAt(beams[..n], i);
      assert beams[n].prefix != beams[i].prefix;
    }
  }

  /** Facts about a gain that the sums below need: it distributes over `+`, and zero gains nothing. */
  ghost predicate AddsAt(gain: Gain, c: nat, a: real, b: real) {
    gain(c, a) + gain(c, b) == gain(c, a + b)
  }

  ghost predicate Linear(gain: Gain) {
    (forall c :: gain(c, 0.0) == 0.0) && forall c, a, b :: AddsAt(gain, c, a, b)
  }

  lemma GainLinear(rows: seq<Row>, t: nat)
    ensures Linear(GainAt(rows, t))
  {
    forall c, a, b ensures AddsAt(GainAt(rows, t), c, a, b) {
      Distribute(a, b, Prob(rows, t, c));
    }
  }

  /** The contribution of one beam, read off per prefix: what stays, and what its parent extends. */
  ghost function Stay(g: Grammar, gain: Gain, held: Score, prefix: Prefix): Score {
    Score(gain(g.blank, held.Total()), if prefix == [] then 0.0 else gain(prefix[|prefix| - 1], held.pnb))
  }

  ghost predicate Extendable(g: Grammar, cands: set<nat>, prefix: Prefix) {
    prefix != [] && Grown(g, cands, prefix[..|prefix| - 1], prefix)
  }

  ghost function FromParent(parent: Prefix, last: nat, held: Score): real {
    if parent != [] && parent[|parent| - 1] == last then held.pb else held.Total()
  }

  ghost function Extend(g: Grammar, gain: Gain, cands: set<nat>, held: Score, prefix: Prefix): real {
    if Extendable(g, cands, prefix)
    then gain(prefix[|prefix| - 1], FromParent(prefix[..|prefix| - 1], prefix[|prefix| - 1], held))
    else 0.0
  }

  /** All contributions to a prefix come from its own beam and its parent's beam. */
  lemma {:induction false} EmitAllIs(g: Grammar, gain: Gain, cands: set<nat>, beams: seq<Beam>, prefix: Prefix)
    requires Linear(gain)
    ensures var stay := Stay(g, gain, Held(beams, prefix), prefix);
      var parent := if prefix == [] then ZERO else Held(beams, prefix[..|prefix| - 1]);
      EmitAll(g, gain, cands, beams, prefix) == Score(stay.pb, stay.pnb + Extend(g, gain, cands, parent, prefix))
  {
    if beams != [] {
      var n := |beams| - 1;
      var b := beams[n];
      EmitAllIs(g, gain, cands, beams[..n], prefix);
      var own := Held(beams[..n], prefix);
      var mine := if b.prefix == prefix then b.score else ZERO;
      StayAdds(g, gain, own, mine, prefix);
      if prefix != [] {
        var parent := prefix[..|prefix| - 1];
        var theirs := if b.prefix == parent then b.score else ZERO;
        ExtendAdds(g, gain, cands, Held(beams[..n], parent), theirs, prefix);
      }
      EmitIs(g, gain, cands, b, prefix);
    }
  }

  lemma StayAdds(g: Grammar, gain: Gain, a: Score, b: Score, prefix: Prefix)
    requires Linear(gain)
    ensures Stay(g, gain, Plus(a, b), prefix) == Plus(Stay(g, gain, a, prefix), Stay(g, gain, b, prefix))
  {
    assert AddsAt(gain, g.blank, a.Total(), b.Total());
    assert a.Total() + b.Total() == Plus(a, b).Total();
    if prefix != [] { assert AddsAt(gain, prefix[|prefix| - 1], a.pnb, b.pnb); }
  }

  lemma ExtendAdds(g: Grammar, gain: Gain, cands: set<nat>, a: Score, b: Score, prefix: Prefix)
    requires Linear(gain) && prefix != []
    ensures Extend(g, gain, cands, Plus(a, b), prefix)
      == Extend(g, gain, cands, a, prefix) + Extend(g, gain, cands, b, prefix)
  {
    var last, parent := prefix[|prefix| - 1], prefix[..|prefix| - 1];
    assert AddsAt(gain, last, FromParent(parent, last, a), FromParent(parent, last, b));
    assert FromParent(parent, last, a) + FromParent(parent, last, b) == FromParent(parent, last, Plus(a, b));
  }

  lemma EmitIs(g: Grammar, gain: Gain, cands: set<nat>, b: Beam, prefix: Prefix)
    requires Linear(gain)
    ensures var stay := Stay(g, gain, if b.prefix == prefix then b.score else ZERO, prefix);
      var parent := if prefix != [] && b.prefix == prefix[..|prefix| - 1] then b.score else ZERO;
      Emit(g, gain, cands, b, prefix) == Score(stay.pb, stay.pnb + Extend(g, gain, cands, parent, prefix))
  {
    if prefix != [] { assert prefix[..|prefix| - 1] != prefix; }
  }

  // ---------------------------------------------------------------- grammar safety

  ghost predicate NonNegative(beams: seq<Beam>) {
    forall i :: 0 <= i < |beams| ==> beams[i].score.pb >= 0.0 && beams[i].score.pnb >= 0.0
  }

  ghost predicate Sound(g: Grammar, t: nat, beams: seq<Beam>) {
    DistinctPrefixes(beams) && NonNegative(beams)
    && forall i :: 0 <= i < |beams| ==> Legal(g, beams[i].prefix) && |beams[i].prefix| <= t
  }

  lemma GrownLegal(g: Grammar, cands: set<nat>, from: Prefix, prefix: Prefix)
    requires Legal(g, from) && Grown(g, cands, from, prefix)
    ensures Legal(g, prefix)
  {
    forall i | 0 <= i < |prefix| ensures prefix[i] in g.allowed[i] {
      if i < |from| { assert prefix[..|from|][i] == from[i]; }
    }
  }

  lemma GainNonNegative(rows: seq<Row>, t: nat)
    ensures forall c, x :: x >= 0.0 ==> GainAt(rows, t)(c, x) >= 0.0
  {
  }

  lemma {:induction false} EmitAllNonNegative(g: Grammar, gain: Gain, cands: set<nat>, beams: seq<Beam>, prefix: Prefix)
    requires NonNegative(beams) && forall c, x :: x >= 0.0 ==> gain(c, x) >= 0.0
    ensures EmitAll(g, gain, cands, beams, prefix).pb >= 0.0 && EmitAll(g, gain, cands, beams, prefix).pnb >= 0.0
  {
    if beams != [] { EmitAllNonNegative(g, gain, cands, beams[..|beams| - 1], prefix); }
  }

  lemma RowKeepsGrammar(g: Grammar, rows: seq<Row>, t: nat, prune: real, width: nat, beams: seq<Beam>,
                        next: map<Prefix, Score>, after: seq<Beam>)
    requires t < |rows| && RowStep(g, rows, t, prune, width, beams, next, after) && Sound(g, t, beams)
    ensures Sound(g, t + 1, after)
  {
    var gain, cands := GainAt(rows, t), Candidates(rows[t], g.blank, prune);
    GainNonNegative(rows, t);
    forall i | 0 <= i < |after|
      ensures Legal(g, after[i].prefix) && |after[i].prefix| <= t + 1
      ensures after[i].score.pb >= 0.0 && after[i].score.pnb >= 0.0
    {
      var prefix := after[i].prefix;
      assert prefix in next;
      var k :| 0 <= k < |beams| && Reaches(g, cands, beams[k], prefix);
      if prefix != beams[k].prefix { GrownLegal(g, cands, beams[k].prefix, prefix); }
      EmitAllNonNegative(g, gain, cands, beams, prefix);
    }
  }

  /** Any width, any threshold: beams stay distinct, on the layout, and no longer than the rows read. */
  lemma {:induction false} RunKeepsGrammar(g: Grammar, rows: seq<Row>, prune: real, width: nat, run: Run, t: nat)
    requires IsRun(g, rows, prune, width, run) && t <= |rows|
    ensures Sound(g, t, run.beams[t])
  {
    if t > 0 {
      RunKeepsGrammar(g, rows, prune, width, run, t - 1);
      RowKeepsGrammar(g, rows, t - 1, prune, width, run.beams[t - 1], run.nexts[t - 1], run.beams[t]);
    }
  }

  // ---------------------------------------------------------------- lower bound

  ghost function MassOf(g: Grammar, rows: seq<Row>, t: nat, prefix: Prefix): Score {
    Score(Mass(rows, t, g.blank, prefix, true), Mass(rows, t, g.blank, prefix, false))
  }

  ghost predicate Leq(a: Score, b: Score) {
    a.pb <= b.pb && a.pnb <= b.pnb
  }

  /** The brute-force masses obey the same two-term recurrence as the beams. */
  lemma MassStep(g: Grammar, rows: seq<Row>, t: nat, prefix: Prefix)
    requires g.Valid() && Legal(g, prefix)
    ensures var gain := GainAt(rows, t);
      var stay := Stay(g, gain, MassOf(g, rows, t, prefix), prefix);
      MassOf(g, rows, t + 1, prefix).pb == stay.pb
      && (prefix == [] ==> MassOf(g, rows, t + 1, prefix).pnb == 0.0)
      && (prefix != [] ==>
            var last, parent := prefix[|prefix| - 1], prefix[..|prefix| - 1];
            MassOf(g, rows, t + 1, prefix).pnb
            == stay.pnb + gain(last, FromParent(parent, last, MassOf(g, rows, t, parent))))
  {
    MassBlank(rows, t, g.blank, prefix);
    TotalIsBoth(rows, t, g.blank, prefix);
    if prefix == [] {
      MassOutOfReach(rows, t + 1, g.blank, prefix, false);
    } else {
      var last, parent := prefix[|prefix| - 1], prefix[..|prefix| - 1];
      MassCharacter(rows, t, g.blank, prefix);
      TotalIsBoth(rows, t, g.blank, parent);
      GainLinear(rows, t);
      assert AddsAt(GainAt(rows, t), last, Mass(rows, t, g.blank, prefix, false),
        FromParent(parent, last, MassOf(g, rows, t, parent)));
    }
  }

  ghost predicate Monotone(gain: Gain) {
    forall c, a, b :: a <= b ==> gain(c, a) <= gain(c, b)
  }

  lemma GainMonotone(rows: seq<Row>, t: nat)
    ensures Monotone(GainAt(rows, t))
  {
    forall c, a, b | a <= b ensures GainAt(rows, t)(c, a) <= GainAt(rows, t)(c, b) {
      assert (b - a) * Prob(rows, t, c) >= 0.0;
    }
  }

  lemma ParentLegal(g: Grammar, prefix: Prefix)
    requires Legal(g, prefix) && prefix != []
    ensures Legal(g, prefix[..|prefix| - 1])
  {
  }

  /** If the beams under-hold a prefix and its parent, one row cannot lift them above the recurrence. */
  lemma EmitAllBelow(g: Grammar, gain: Gain, cands: set<nat>, beams: seq<Beam>, prefix: Prefix, own: Score,
          parent: Score)
    requires Linear(gain) && Monotone(gain) && parent.pb >= 0.0 && parent.pnb >= 0.0
    requires Leq(Held(beams, prefix), own)
    requires prefix != [] ==> Leq(Held(beams, prefix[..|prefix| - 1]), parent)
    ensures var stay := Stay(g, gain, own, prefix);
      Leq(EmitAll(g, gain, cands, beams, prefix),
          Score(stay.pb, stay.pnb + if prefix == [] then 0.0
                                    else gain(prefix[|prefix| - 1],
                                              FromParent(prefix[..|prefix| - 1], prefix[|prefix| - 1], parent))))
  {
    EmitAllIs(g, gain, cands, beams, prefix);
    StayMonotone(g, gain, Held(beams, prefix), own, prefix);
    if prefix != [] { ExtendBelow(g, gain, cands, Held(beams, prefix[..|prefix| - 1]), parent, prefix); }
  }

  lemma StayMonotone(g: Grammar, gain: Gain, held: Score, own: Score, prefix: Prefix)
    requires Monotone(gain) && Leq(held, own)
    ensures Leq(Stay(g, gain, held, prefix), Stay(g, gain, own, prefix))
  {
  }

  lemma ExtendBelow(g: Grammar, gain: Gain, cands: set<nat>, held: Score, parent: Score, prefix: Prefix)
    requires Linear(gain) && Monotone(gain) && prefix != [] && Leq(held, parent)
      && parent.pb >= 0.0 && parent.pnb >= 0.0
    ensures var last, before := prefix[|prefix| - 1], prefix[..|prefix| - 1];
      Extend(g, gain, cands, held, prefix) <= gain(last, FromParent(before, last, parent))
  {
    var last, before := prefix[|prefix| - 1], prefix[..|prefix| - 1];
    assert FromParent(before, last, held) <= FromParent(before, last, parent);
    assert gain(last, 0.0) <= gain(last, FromParent(before, last, parent));
  }

  lemma RowBelowMass(g: Grammar, rows: seq<Row>, t: nat, prune: real, width: nat, beams: seq<Beam>,
                     next: map<Prefix, Score>, after: seq<Beam>, prefix: Prefix)
    requires t < |rows| && RowStep(g, rows, t, prune, width, beams, next, after) && g.Valid() && Legal(g, prefix)
    requires Leq(Held(beams, prefix), MassOf(g, rows, t, prefix))
    requires prefix != [] ==> Leq(Held(beams, prefix[..|prefix| - 1]), MassOf(g, rows, t, prefix[..|prefix| - 1]))
    ensures Leq(Held(after, prefix), MassOf(g, rows, t + 1, prefix))
  {
    var parent := if prefix == [] then ZERO else MassOf(g, rows, t, prefix[..|prefix| - 1]);
    GainLinear(rows, t);
    GainMonotone(rows, t);
    MassScoreNonNegative(g, rows, t, if prefix == [] then [] else prefix[..|prefix| - 1]);
    MassScoreNonNegative(g, rows, t + 1, prefix);
    EmitAllBelow(g, GainAt(rows, t), Candidates(rows[t], g.blank, prune), beams,
      prefix, MassOf(g, rows, t, prefix), parent);
    MassStep(g, rows, t, prefix);
    HeldAfterTop(next, width, after, prefix);
  }

  lemma MassScoreNonNegative(g: Grammar, rows: seq<Row>, t: nat, prefix: Prefix)
    ensures MassOf(g, rows, t, prefix).pb >= 0.0 && MassOf(g, rows, t, prefix).pnb >= 0.0
  {
    MassNonNegative(rows, t, g.blank, prefix, true);
    MassNonNegative(rows, t, g.blank, prefix, false);
  }

  /** A kept beam carries its full sum; a dropped prefix is held at zero. */
  lemma HeldAfterTop(next: map<Prefix, Score>, width: nat, after: seq<Beam>, prefix: Prefix)
    requires IsTop(next, width, after)
    ensures Held(after, prefix) == if Holds(after, prefix) then At(next, prefix) else ZERO
  {
    if Holds(after, prefix) {
      var i :| 0 <= i < |after| && after[i].prefix == prefix;
      HeldAt(after, i);
    } else {
      HeldNone(after, prefix);
    }
  }

  lemma MassStartScore(g: Grammar, rows: seq<Row>, prefix: Prefix)
    ensures Held([START], prefix) == MassOf(g, rows, 0, prefix)
  {
    MassStart(rows, g.blank, prefix, true);
    MassStart(rows, g.blank, prefix, false);
    HeldStart(prefix);
  }

  lemma HeldStart(prefix: Prefix)
    ensures Held([START], prefix) == if prefix == [] then START.score else ZERO
  {
    assert [START][..0] == [];
  }

  /** Any width, any threshold: what the beams hold for a prefix never exceeds its true CTC mass. */
  lemma {:induction false} RunBelowMass(g: Grammar, rows: seq<Row>, prune: real, width: nat, run: Run, t: nat,
          prefix: Prefix)
    requires IsRun(g, rows, prune, width, run) && t <= |rows| && g.Valid() && Legal(g, prefix)
    ensures Leq(Held(run.beams[t], prefix), MassOf(g, rows, t, prefix))
    decreases t
  {
    if t == 0 {
      MassStartScore(g, rows, prefix);
    } else {
      RunBelowMass(g, rows, prune, width, run, t - 1, prefix);
      if prefix != [] {
        ParentLegal(g, prefix);
        RunBelowMass(g, rows, prune, width, run, t - 1, prefix[..|prefix| - 1]);
      }
      RowBelowMass(g, rows, t - 1, prune, width, run.beams[t - 1], run.nexts[t - 1], run.beams[t], prefix);
    }
  }

  // ---------------------------------------------------------------- exactness

  /** No beam was cut: every entry of every row still has a beam after it. */
  ghost predicate NothingCut(run: Run) {
    |run.beams| == |run.nexts| + 1
    && forall t, prefix :: 0 <= t < |run.nexts| && prefix in run.nexts[t] ==> Holds(run.beams[t + 1], prefix)
  }

  /** No label was pruned: every non-blank probability is above the threshold. */
  ghost predicate NothingPruned(g: Grammar, rows: seq<Row>, prune: real) {
    forall t, c :: 0 <= t < |rows| && 0 <= c < g.blank ==> c < |rows[t]| && rows[t][c] > prune
  }

  lemma EmitAllIsMass(g: Grammar, rows: seq<Row>, t: nat, prune: real, beams: seq<Beam>, prefix: Prefix)
    requires g.Valid() && Legal(g, prefix) && t < |rows| && NothingPruned(g, rows, prune)
    requires Held(beams, prefix) == MassOf(g, rows, t, prefix)
    requires prefix != [] ==> Held(beams, prefix[..|prefix| - 1]) == MassOf(g, rows, t, prefix[..|prefix| - 1])
    ensures EmitAll(g, GainAt(rows, t), Candidates(rows[t], g.blank, prune), beams, prefix)
      == MassOf(g, rows, t + 1, prefix)
  {
    var cands := Candidates(rows[t], g.blank, prune);
    GainLinear(rows, t);
    EmitAllIs(g, GainAt(rows, t), cands, beams, prefix);
    MassStep(g, rows, t, prefix);
    if prefix != [] {
      assert prefix[|prefix| - 1] in g.allowed[|prefix| - 1];
      assert Extendable(g, cands, prefix);
    }
  }

  lemma RowIsExact(g: Grammar, rows: seq<Row>, t: nat, prune: real, width: nat, beams: seq<Beam>,
                   next: map<Prefix, Score>, after: seq<Beam>, prefix: Prefix)
    requires t < |rows| && RowStep(g, rows, t, prune, width, beams, next, after) && g.Valid() && Legal(g, prefix)
    requires NothingPruned(g, rows, prune) && (prefix in next ==> Holds(after, prefix))
    requires Held(beams, prefix) == MassOf(g, rows, t, prefix)
    requires prefix != [] ==> Held(beams, prefix[..|prefix| - 1]) == MassOf(g, rows, t, prefix[..|prefix| - 1])
    ensures Held(after, prefix) == MassOf(g, rows, t + 1, prefix)
  {
    EmitAllIsMass(g, rows, t, prune, beams, prefix);
    HeldAfterTop(next, width, after, prefix);
    if !Holds(after, prefix) {
      UnreachedIsZero(g, GainAt(rows, t), Candidates(rows[t], g.blank, prune), beams, prefix);
    }
  }

  /**
   * Exactness: with nothing cut and nothing pruned, the two numbers the search keeps for every
   * grammar-legal prefix are the brute-force sums over all alignments collapsing to it.
   */
  lemma {:induction false} RunIsExact(g: Grammar, rows: seq<Row>, prune: real, width: nat, run: Run, t: nat,
          prefix: Prefix)
    requires IsRun(g, rows, prune, width, run) && t <= |rows| && g.Valid() && Legal(g, prefix)
    requires NothingCut(run) && NothingPruned(g, rows, prune)
    ensures Held(run.beams[t], prefix) == MassOf(g, rows, t, prefix)
    decreases t
  {
    if t == 0 {
      MassStartScore(g, rows, prefix);
    } else {
      RunIsExact(g, rows, prune, width, run, t - 1, prefix);
      if prefix != [] {
        ParentLegal(g, prefix);
        RunIsExact(g, rows, prune, width, run, t - 1, prefix[..|prefix| - 1]);
      }
      RowIsExact(g, rows, t - 1, prune, width, run.beams[t - 1], run.nexts[t - 1], run.beams[t], prefix);
    }
  }

  lemma MassOfTotal(g: Grammar, rows: seq<Row>, t: nat, prefix: Prefix)
    ensures MassOf(g, rows, t, prefix).Total() == TotalMass(rows, t, g.blank, prefix)
  {
    TotalIsBoth(rows, t, g.blank, prefix);
  }

  /** The two numbers together: the full CTC mass of the prefix. */
  lemma RunTotalIsExact(g: Grammar, rows: seq<Row>, prune: real, width: nat, run: Run, t: nat, prefix: Prefix)
    requires IsRun(g, rows, prune, width, run) && t <= |rows| && g.Valid() && Legal(g, prefix)
    requires NothingCut(run) && NothingPruned(g, rows, prune)
    ensures Held(run.beams[t], prefix).Total() == TotalMass(rows, t, g.blank, prefix)
  {
    MassOfTotal(g, rows, t, prefix);
    RunIsExact(g, rows, prune, width, run, t, prefix);
  }

  // ---------------------------------------------------------------- when nothing is cut

  /** Every grammar-legal prefix of length at most `k`. */
  ghost function LegalPrefixes(g: Grammar, k: nat): set<Prefix>
    requires k <= |g.allowed|
  {
    if k == 0 then {[]}
    else LegalPrefixes(g, k - 1) + set p: Prefix, c | p in LegalPrefixes(g, k - 1) && c in g.allowed[k - 1] :: p + [c]
  }

  lemma {:induction false} LegalIsListed(g: Grammar, prefix: Prefix, k: nat)
    requires Legal(g, prefix) && |prefix| <= k <= |g.allowed|
    ensures prefix in LegalPrefixes(g, k)
  {
    if |prefix| < k {
      LegalIsListed(g, prefix, k - 1);
    } else if k > 0 {
      var parent := prefix[..k - 1];
      assert prefix == parent + [prefix[k - 1]];
      LegalIsListed(g, parent, k - 1);
    }
  }

  ghost function PrefixSet(beams: seq<Beam>): set<Prefix> {
    if beams == [] then {} else PrefixSet(beams[..|beams| - 1]) + {beams[|beams| - 1].prefix}
  }

  lemma {:induction false} PrefixSetHolds(beams: seq<Beam>, prefix: Prefix)
    ensures prefix in PrefixSet(beams) <==> Holds(beams, prefix)
  {
    if beams != [] {
      var n := |beams| - 1;
      PrefixSetHolds(beams[..n], prefix);
      HoldsSnoc(beams[..n], beams[n], prefix);
      assert beams[..n] + [beams[n]] == beams;
    }
  }

  lemma {:induction false} PrefixSetSize(beams: seq<Beam>)
    requires DistinctPrefixes(beams)
    ensures |PrefixSet(beams)| == |beams|
  {
    if beams != [] {
      DistinctInit(beams);
      PrefixSetSize(beams[..|beams| - 1]);
      PrefixSetHolds(beams[..|beams| - 1], beams[|beams| - 1].prefix);
    }
  }

  lemma {:induction false} SubsetSize(a: set<Prefix>, b: set<Prefix>)
    requires a <= b
    ensures |a| <= |b|
  {
    if a != {} {
      var x :| x in a;
      SubsetSize(a - {x}, b - {x});
    }
  }

  ghost predicate AllLegal(g: Grammar, beams: seq<Beam>) {
    DistinctPrefixes(beams) && forall i :: 0 <= i < |beams| ==> Legal(g, beams[i].prefix)
  }

  /** Beams that miss a legal prefix are fewer than the legal prefixes. */
  lemma MissingLeavesRoom(g: Grammar, beams: seq<Beam>, prefix: Prefix)
    requires AllLegal(g, beams) && Legal(g, prefix) && !Holds(beams, prefix)
    ensures |beams| < |LegalPrefixes(g, |g.allowed|)|
  {
    var all := LegalPrefixes(g, |g.allowed|);
    forall p | p in PrefixSet(beams) + {prefix} ensures p in all {
      PrefixSetHolds(beams, p);
      LegalIsListed(g, p, |g.allowed|);
    }
    PrefixSetSize(beams);
    PrefixSetHolds(beams, prefix);
    SubsetSize(PrefixSet(beams) + {prefix}, all);
  }

  lemma WideRowNotCut(g: Grammar, rows: seq<Row>, prune: real, width: nat, run: Run, t: nat, prefix: Prefix)
    requires IsRun(g, rows, prune, width, run) && width >= |LegalPrefixes(g, |g.allowed|)|
    requires t < |rows| && prefix in run.nexts[t]
    ensures Holds(run.beams[t + 1], prefix)
  {
    var beams, next, after := run.beams[t], run.nexts[t], run.beams[t + 1];
    assert RowStep(g, rows, t, prune, width, beams, next, after);
    RunKeepsGrammar(g, rows, prune, width, run, t);
    RunKeepsGrammar(g, rows, prune, width, run, t + 1);
    NextIsLegal(g, rows, t, prune, beams, next, prefix);
    if !Holds(after, prefix) { MissingLeavesRoom(g, after, prefix); }
  }

  /** A width of at least the number of legal prefixes never cuts a beam, whatever the probabilities. */
  lemma WideNeverCuts(g: Grammar, rows: seq<Row>, prune: real, width: nat, run: Run)
    requires IsRun(g, rows, prune, width, run) && width >= |LegalPrefixes(g, |g.allowed|)|
    ensures NothingCut(run)
  {
    forall t, prefix | 0 <= t < |rows| && prefix in run.nexts[t] ensures Holds(run.beams[t + 1], prefix) {
      WideRowNotCut(g, rows, prune, width, run, t, prefix);
    }
  }

  lemma NextIsLegal(g: Grammar, rows: seq<Row>, t: nat, prune: real, beams: seq<Beam>, next: map<Prefix, Score>,
          prefix: Prefix)
    requires t < |rows| && Sound(g, t, beams) && prefix in next
    requires IsNext(g, GainAt(rows, t), Candidates(rows[t], g.blank, prune), beams, next)
    ensures Legal(g, prefix)
  {
    var cands := Candidates(rows[t], g.blank, prune);
    var k :| 0 <= k < |beams| && Reaches(g, cands, beams[k], prefix);
    if prefix != beams[k].prefix { GrownLegal(g, cands, beams[k].prefix, prefix); }
  }

  // ---------------------------------------------------------------- total mass

  ghost function BeamMass(beams: seq<Beam>): real {
    if beams == [] then 0.0 else BeamMass(beams[..|beams| - 1]) + beams[|beams| - 1].score.Total()
  }

  /** The weight of a path when it collapses to the prefix of some listed beam. */
  ghost function ListedShares(weight: Path -> real, blank: nat, beams: seq<Beam>): Path -> real {
    p => if Holds(beams, Collapse(p, blank)) then weight(p) else 0.0
  }

  lemma {:induction false} BeamMassBelow(g: Grammar, rows: seq<Row>, t: nat, beams: seq<Beam>)
    requires DistinctPrefixes(beams)
    requires forall i :: 0 <= i < |beams| ==> Leq(beams[i].score, MassOf(g, rows, t, beams[i].prefix))
    ensures BeamMass(beams) <= SumPaths(ListedShares(WeightIn(rows), g.blank, beams), t, g.blank + 1)
  {
    var all := ListedShares(WeightIn(rows), g.blank, beams);
    if beams == [] {
      forall p ensures all(p) == 0.0 { assert !Holds(beams, Collapse(p, g.blank)); }
      SumEqual(all, p => 0.0, t, g.blank + 1);
      SumZero(t, g.blank + 1);
    } else {
      var n := |beams| - 1;
      var init, last := ListedShares(WeightIn(rows), g.blank, beams[..n]),
        EitherShares(WeightIn(rows), g.blank, beams[n].prefix);
      DistinctInit(beams);
      BeamMassBelow(g, rows, t, beams[..n]);
      TotalIsBoth(rows, t, g.blank, beams[n].prefix);
      forall p ensures all(p) == init(p) + last(p) {
        HoldsSnoc(beams[..n], beams[n], Collapse(p, g.blank));
        assert beams[..n] + [beams[n]] == beams;
        SharesAt(WeightIn(rows), g.blank, beams[n].prefix, true, p);
      }
      SumAdd(init, last, all, t, g.blank + 1);
    }
  }

  /** Any width, any threshold: the beams together never hold more than the product of the row sums. */
  lemma RunMassBound(g: Grammar, rows: seq<Row>, prune: real, width: nat, run: Run, t: nat)
    requires IsRun(g, rows, prune, width, run) && t <= |rows| && g.Valid()
    ensures BeamMass(run.beams[t]) <= RowProduct(rows, t, g.blank + 1)
  {
    var beams := run.beams[t];
    RunKeepsGrammar(g, rows, prune, width, run, t);
    forall i | 0 <= i < |beams| ensures Leq(beams[i].score, MassOf(g, rows, t, beams[i].prefix)) {
      RunBelowMass(g, rows, prune, width, run, t, beams[i].prefix);
      HeldAt(beams, i);
    }
    BeamMassBelow(g, rows, t, beams);
    forall p ensures ListedShares(WeightIn(rows), g.blank, beams)(p) <= WeightIn(rows)(p) {
      WeightNonNegative(rows, p);
    }
    SumLeq(ListedShares(WeightIn(rows), g.blank, beams), WeightIn(rows), t, g.blank + 1);
    TotalWeight(rows, t, g.blank + 1);
  }
}
