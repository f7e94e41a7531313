/**
 * Grammar-constrained CTC prefix beam search, one row at a time: what a row does to the
 * beams, the imperative loops that do it, and what every run of those loops guarantees.
 */
module CtcBeam {
  import opened CtcSpec

  /** Probability of a prefix, split by whether its paths end in blank. */
  datatype Score = Score(pb: real, pnb: real) {
    function Total(): real { pb + pnb }
  }

  datatype Beam = Beam(prefix: Prefix, score: Score)

  /** `allowed[pos]` holds the label ids the plate layout accepts at `pos`; `blank` is the class after the labels. */
  datatype Grammar = Grammar(blank: nat, allowed: seq<set<nat>>) {
    ghost predicate Valid() {
      forall pos, c :: 0 <= pos < |allowed| && c in allowed[pos] ==> c < blank
    }
  }

  /** What a probability becomes when a class is read: the clamped probability of that class multiplies it. */
  type Gain = (nat, real) -> real

  function GainAt(rows: seq<Row>, t: nat): Gain {
    (c: nat, x: real) => x * Prob(rows, t, c)
  }

  const ZERO := Score(0.0, 0.0)

  function Plus(a: Score, b: Score): Score {
    Score(a.pb + b.pb, a.pnb + b.pnb)
  }

  ghost predicate Legal(g: Grammar, prefix: Prefix) {
    |prefix| <= |g.allowed| && forall i :: 0 <= i < |prefix| ==> prefix[i] in g.allowed[i]
  }

  // ---------------------------------------------------------------- what one row does

  predicate IsCandidate(row: Row, blank: nat, prune: real, c: nat) {
    c < blank && c < |row| && row[c] > prune
  }

  /** `prefix` is `from` extended by one candidate that the layout accepts there. */
  predicate Grown(g: Grammar, cands: set<nat>, from: Prefix, prefix: Prefix) {
    |from| < |g.allowed| && |prefix| == |from| + 1 && prefix[..|from|] == from
    && prefix[|from|] in cands && prefix[|from|] in g.allowed[|from|]
  }

  /** The contribution of one beam to one prefix of the next row. */
  function Emit(g: Grammar, gain: Gain, cands: set<nat>, b: Beam, prefix: Prefix): Score {
    if prefix == b.prefix then
      Score(gain(g.blank, b.score.Total()),
            if prefix == [] then 0.0 else gain(prefix[|prefix| - 1], b.score.pnb))
    else if Grown(g, cands, b.prefix, prefix) then
      var c := prefix[|prefix| - 1];
      Score(0.0, gain(c, if b.prefix != [] && b.prefix[|b.prefix| - 1] == c then b.score.pb else b.score.Total()))
    else ZERO
  }

  predicate Reaches(g: Grammar, cands: set<nat>, b: Beam, prefix: Prefix) {
    prefix == b.prefix || Grown(g, cands, b.prefix, prefix)
  }

  ghost function EmitAll(g: Grammar, gain: Gain, cands: set<nat>, beams: seq<Beam>, prefix: Prefix): Score {
    if beams == [] then ZERO
    else Plus(EmitAll(g, gain, cands, beams[..|beams| - 1], prefix), Emit(g, gain, cands, beams[|beams| - 1], prefix))
  }

  ghost predicate Reached(g: Grammar, cands: set<nat>, beams: seq<Beam>, prefix: Prefix) {
    exists i :: 0 <= i < |beams| && Reaches(g, cands, beams[i], prefix)
  }

  ghost function Candidates(row: Row, blank: nat, prune: real): set<nat> {
    set c: nat | c < blank && IsCandidate(row, blank, prune, c)
  }

  /** `next` holds exactly the reached prefixes, each with the sum of all contributions. */
  ghost predicate IsNext(g: Grammar, gain: Gain, cands: set<nat>, beams: seq<Beam>, next: map<Prefix, Score>) {
    (forall prefix :: prefix in next <==> Reached(g, cands, beams, prefix))
    && forall prefix :: prefix in next ==> next[prefix] == EmitAll(g, gain, cands, beams, prefix)
  }

  function At(next: map<Prefix, Score>, prefix: Prefix): Score {
    if prefix in next then next[prefix] else ZERO
  }

  /** The `add` helper: insert, or add to what is there. */
  function Add(next: map<Prefix, Score>, prefix: Prefix, s: Score): map<Prefix, Score> {
    next[prefix := Plus(At(next, prefix), s)]
  }

  function Elements(candidates: seq<nat>): set<nat> {
    set c | c in candidates
  }

  /** `next` is `before` plus the contributions of one beam. */
  ghost predicate IsEmitted(g: Grammar, gain: Gain, cands: set<nat>, b: Beam,
                            before: map<Prefix, Score>, next: map<Prefix, Score>)
  {
    forall prefix :: EmittedAt(g, gain, cands, b, before, next, prefix)
  }

  ghost predicate EmittedAt(g: Grammar, gain: Gain, cands: set<nat>, b: Beam,
                            before: map<Prefix, Score>, next: map<Prefix, Score>, prefix: Prefix)
  {
    (prefix in next <==> prefix in before || Reaches(g, cands, b, prefix))
    && (prefix in next ==> next[prefix] == Plus(At(before, prefix), Emit(g, gain, cands, b, prefix)))
  }

  /** The inner loops for one beam: staying, repeating the last character, and every extension. */
  method EmitBeam(g: Grammar, gain: Gain, candidates: seq<nat>, b: Beam, before: map<Prefix, Score>)
    returns (next: map<Prefix, Score>)
    requires forall i, j :: 0 <= i < j < |candidates| ==> candidates[i] != candidates[j]
    ensures IsEmitted(g, gain, Elements(candidates), b, before, next)
  {
    var total := b.score.Total();
    next := Add(before, b.prefix, Score(gain(g.blank, total), 0.0));
    if b.prefix != [] {
      next := Add(next, b.prefix, Score(0.0, gain(b.prefix[|b.prefix| - 1], b.score.pnb)));
    }
    EmitNone(g, gain, {}, b, before, next);
    var pos := |b.prefix|;
    if pos >= |g.allowed| {
      EmitNone(g, gain, Elements(candidates), b, before, next);
    } else {
      ghost var seen: set<nat> := {};
      for j := 0 to |candidates|
        invariant seen == Elements(candidates[..j])
        invariant IsEmitted(g, gain, seen, b, before, next)
      {
        var c := candidates[j];
        assert candidates[..j + 1] == candidates[..j] + [c];
        if c in g.allowed[pos] {
          var s := if pos > 0 && c == b.prefix[pos - 1] then b.score.pb else total;
          EmitOneMore(g, gain, seen, c, b, before, next);
          assert PassedOn(gain, b, c) == Score(0.0, gain(c, s));
          next := Add(next, b.prefix + [c], Score(0.0, gain(c, s)));
        } else {
          EmitRejected(g, gain, seen, c, b, before, next);
        }
        seen := seen + {c};
      }
      assert candidates[..|candidates|] == candidates;
    }
  }

  /** With no usable candidate, a beam only stays on its prefix. */
  lemma EmitNone(g: Grammar, gain: Gain, cands: set<nat>, b: Beam, before: map<Prefix, Score>, next: map<Prefix, Score>)
    requires cands == {} || |b.prefix| >= |g.allowed|
    requires next == before[b.prefix := Plus(At(before, b.prefix), Emit(g, gain, {}, b, b.prefix))]
    ensures IsEmitted(g, gain, cands, b, before, next)
  {
    forall prefix ensures EmittedAt(g, gain, cands, b, before, next, prefix) {
      assert !Grown(g, cands, b.prefix, prefix);
    }
  }

  lemma EmitRejected(g: Grammar, gain: Gain, seen: set<nat>, c: nat, b: Beam, before: map<Prefix, Score>,
          next: map<Prefix, Score>)
    requires |b.prefix| < |g.allowed| && c !in g.allowed[|b.prefix|]
    requires IsEmitted(g, gain, seen, b, before, next)
    ensures IsEmitted(g, gain, seen + {c}, b, before, next)
  {
    forall prefix ensures EmittedAt(g, gain, seen + {c}, b, before, next, prefix) {
      assert EmittedAt(g, gain, seen, b, before, next, prefix);
      assert Grown(g, seen + {c}, b.prefix, prefix) == Grown(g, seen, b.prefix, prefix);
    }
  }

  /** The score a beam passes on to its extension by a candidate. */
  function PassedOn(gain: Gain, b: Beam, c: nat): Score {
    Score(0.0, gain(c, if b.prefix != [] && c == b.prefix[|b.prefix| - 1] then b.score.pb else b.score.Total()))
  }

  /** Allowing one more candidate adds exactly the one extension by it. */
  lemma GrownByOne(g: Grammar, seen: set<nat>, c: nat, from: Prefix, prefix: Prefix)
    requires |from| < |g.allowed| && c in g.allowed[|from|] && c !in seen
    ensures Grown(g, seen + {c}, from, prefix) <==> Grown(g, seen, from, prefix) || prefix == from + [c]
    ensures !Grown(g, seen, from, from + [c]) && from + [c] != from
  {
    if Grown(g, seen + {c}, from, prefix) && prefix[|from|] == c { assert prefix == from + [c]; }
  }

  lemma EmitElsewhere(g: Grammar, gain: Gain, seen: set<nat>, c: nat, b: Beam, prefix: Prefix)
    requires |b.prefix| < |g.allowed| && c in g.allowed[|b.prefix|] && c !in seen && prefix != b.prefix + [c]
    ensures Emit(g, gain, seen + {c}, b, prefix) == Emit(g, gain, seen, b, prefix)
    ensures Reaches(g, seen + {c}, b, prefix) <==> Reaches(g, seen, b, prefix)
  {
    GrownByOne(g, seen, c, b.prefix, prefix);
  }

  lemma EmitExtension(g: Grammar, gain: Gain, seen: set<nat>, c: nat, b: Beam)
    requires |b.prefix| < |g.allowed| && c in g.allowed[|b.prefix|] && c !in seen
    ensures var ext := b.prefix + [c];
      && Emit(g, gain, seen, b, ext) == ZERO && !Reaches(g, seen, b, ext)
      && Emit(g, gain, seen + {c}, b, ext) == PassedOn(gain, b, c) && Reaches(g, seen + {c}, b, ext)
  {
    GrownByOne(g, seen, c, b.prefix, b.prefix + [c]);
  }

  /** Extending by one more allowed candidate accounts for exactly that candidate. */
  lemma EmitOneMore(g: Grammar, gain: Gain, seen: set<nat>, c: nat, b: Beam,
                    before: map<Prefix, Score>, next: map<Prefix, Score>)
    requires |b.prefix| < |g.allowed| && c in g.allowed[|b.prefix|] && c !in seen
    requires IsEmitted(g, gain, seen, b, before, next)
    ensures IsEmitted(g, gain, seen + {c}, b, before, Add(next, b.prefix + [c], PassedOn(gain, b, c)))
  {
    var ext := b.prefix + [c];
    forall prefix ensures EmittedAt(g, gain, seen + {c}, b, before, Add(next, ext, PassedOn(gain, b, c)), prefix) {
      assert EmittedAt(g, gain, seen, b, before, next, prefix);
      if prefix == ext {
        EmitExtension(g, gain, seen, c, b);
      } else {
        EmitElsewhere(g, gain, seen, c, b, prefix);
      }
    }
  }

  /** One time step of `constrainedBeamSearch`, before the beams are sorted and cut. */
  method StepRow(g: Grammar, rows: seq<Row>, t: nat, prune: real, beams: seq<Beam>) returns (next: map<Prefix, Score>)
    requires t < |rows| && |rows[t]| == g.blank + 1
    ensures IsNext(g, GainAt(rows, t), Candidates(rows[t], g.blank, prune), beams, next)
  {
    var candidates: seq<nat> := [];
    for c := 0 to g.blank
      invariant forall i, j :: 0 <= i < j < |candidates| ==> candidates[i] != candidates[j]
      invariant forall i :: 0 <= i < |candidates| ==>
        candidates[i] < c && IsCandidate(rows[t], g.blank, prune, candidates[i])
      invariant forall d: nat :: d < c && IsCandidate(rows[t], g.blank, prune, d) ==> d in candidates
    {
      if rows[t][c] > prune { candidates := candidates + [c]; }
    }
    ghost var cands := Candidates(rows[t], g.blank, prune);
    assert Elements(candidates) == cands;
    var gain := GainAt(rows, t);
    next := map[];
    for i := 0 to |beams|
      invariant IsNext(g, gain, cands, beams[..i], next)
    {
      ghost var before := next;
      next := EmitBeam(g, gain, candidates, beams[i], next);
      NextWithBeam(g, gain, cands, beams[..i], beams[i], before, next);
      assert beams[..i + 1] == beams[..i] + [beams[i]];
    }
    assert beams[..|beams|] == beams;
  }

  /** The contributions of one more beam. */
  lemma NextWithBeam(g: Grammar, gain: Gain, cands: set<nat>, beams: seq<Beam>, b: Beam,
                     before: map<Prefix, Score>, next: map<Prefix, Score>)
    requires IsNext(g, gain, cands, beams, before) && IsEmitted(g, gain, cands, b, before, next)
    ensures IsNext(g, gain, cands, beams + [b], next)
  {
    forall prefix
      ensures prefix in next <==> Reached(g, cands, beams + [b], prefix)
      ensures prefix in next ==> next[prefix] == EmitAll(g, gain, cands, beams + [b], prefix)
    {
      assert EmittedAt(g, gain, cands, b, before, next, prefix);
      ReachedSnoc(g, cands, beams, b, prefix);
      assert (beams + [b])[..|beams|] == beams;
      if prefix !in before { UnreachedIsZero(g, gain, cands, beams, prefix); }
    }
  }

  lemma ReachedSnoc(g: Grammar, cands: set<nat>, beams: seq<Beam>, b: Beam, prefix: Prefix)
    ensures Reached(g, cands, beams + [b], prefix) <==> Reached(g, cands, beams, prefix) || Reaches(g, cands, b, prefix)
  {
    if Reached(g, cands, beams, prefix) {
      var i :| 0 <= i < |beams| && Reaches(g, cands, beams[i], prefix);
      assert (beams + [b])[i] == beams[i];
    }
    if Reaches(g, cands, b, prefix) { assert (beams + [b])[|beams|] == b; }
  }

  lemma {:induction false} UnreachedIsZero(g: Grammar, gain: Gain, cands: set<nat>, beams: seq<Beam>, prefix: Prefix)
    requires !Reached(g, cands, beams, prefix)
    ensures EmitAll(g, gain, cands, beams, prefix) == ZERO
  {
    if beams != [] {
      var n := |beams| - 1;
      assert beams == beams[..n] + [beams[n]];
      ReachedSnoc(g, cands, beams[..n], beams[n], prefix);
      UnreachedIsZero(g, gain, cands, beams[..n], prefix);
    }
  }

  // ---------------------------------------------------------------- sorting and cutting

  ghost predicate Holds(beams: seq<Beam>, prefix: Prefix) {
    exists i :: 0 <= i < |beams| && beams[i].prefix == prefix
  }

  ghost predicate DistinctPrefixes(beams: seq<Beam>) {
    forall i, j :: 0 <= i < j < |beams| ==> beams[i].prefix != beams[j].prefix
  }

  ghost predicate Descending(beams: seq<Beam>) {
    forall i, j :: 0 <= i < j < |beams| ==> beams[i].score.Total() >= beams[j].score.Total()
  }

  /**
   * The `width` heaviest entries, heaviest first.  Nothing is dropped while there is room, and what
   * is dropped is no heavier than anything kept; ties may be ordered either way.
   */
  ghost predicate IsTop(next: map<Prefix, Score>, width: nat, beams: seq<Beam>) {
    |beams| <= width && DistinctPrefixes(beams) && Descending(beams)
    && (forall i :: 0 <= i < |beams| ==> beams[i].prefix in next && beams[i].score == next[beams[i].prefix])
    && forall prefix :: prefix in next && !Holds(beams, prefix) ==>
         |beams| == width && forall i :: 0 <= i < |beams| ==> beams[i].score.Total() >= next[prefix].Total()
  }

  method Heaviest(entries: map<Prefix, Score>) returns (best: Prefix)
    requires entries != map[]
    ensures best in entries && forall prefix :: prefix in entries ==> entries[prefix].Total() <= entries[best].Total()
  {
    var left := entries.Keys;
    best :| best in left;
    left := left - {best};
    while left != {}
      invariant left <= entries.Keys && best in entries
      invariant forall prefix :: prefix in entries && prefix !in left ==>
        entries[prefix].Total() <= entries[best].Total()
      decreases |left|
    {
      var prefix :| prefix in left;
      left := left - {prefix};
      if entries[prefix].Total() > entries[best].Total() { best := prefix; }
    }
  }

  /** `beams` are the heaviest entries of `next` so far, `left` the rest. */
  ghost predicate IsSplit(next: map<Prefix, Score>, left: map<Prefix, Score>, beams: seq<Beam>) {
    DistinctPrefixes(beams) && Descending(beams)
    && (forall prefix :: prefix in left ==> prefix in next && left[prefix] == next[prefix] && !Holds(beams, prefix))
    && (forall prefix :: prefix in next && prefix !in left ==> Holds(beams, prefix))
    && (forall i :: 0 <= i < |beams| ==> beams[i].prefix in next && beams[i].score == next[beams[i].prefix])
    && forall i, prefix :: 0 <= i < |beams| && prefix in left ==> beams[i].score.Total() >= left[prefix].Total()
  }

  lemma HoldsSnoc(beams: seq<Beam>, b: Beam, prefix: Prefix)
    ensures Holds(beams + [b], prefix) <==> Holds(beams, prefix) || b.prefix == prefix
  {
    if Holds(beams, prefix) {
      var i :| 0 <= i < |beams| && beams[i].prefix == prefix;
      assert (beams + [b])[i].prefix == prefix;
    }
    if b.prefix == prefix { assert (beams + [b])[|beams|].prefix == prefix; }
  }

  lemma TakeHeaviest(next: map<Prefix, Score>, left: map<Prefix, Score>, beams: seq<Beam>, best: Prefix)
    requires IsSplit(next, left, beams)
    requires best in left && forall prefix :: prefix in left ==> left[prefix].Total() <= left[best].Total()
    ensures IsSplit(next, left - {best}, beams + [Beam(best, left[best])])
  {
    var b := Beam(best, left[best]);
    forall prefix ensures Holds(beams + [b], prefix) <==> Holds(beams, prefix) || best == prefix {
      HoldsSnoc(beams, b, prefix);
    }
    forall i | 0 <= i < |beams| ensures beams[i].prefix != best {
      assert Holds(beams, beams[i].prefix);
    }
  }

  method SortAndCut(next: map<Prefix, Score>, width: nat) returns (beams: seq<Beam>)
    ensures IsTop(next, width, beams)
  {
    beams := [];
    var left := next;
    while |beams| < width && left != map[]
      invariant |beams| <= width && IsSplit(next, left, beams)
      decreases |left|
    {
      var best := Heaviest(left);
      TakeHeaviest(next, left, beams, best);
      beams := beams + [Beam(best, left[best])];
      assert (left - {best}).Keys == left.Keys - {best};
      left := left - {best};
    }
  }
}
