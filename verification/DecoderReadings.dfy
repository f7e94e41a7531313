/**
 * The decoder's result spelt out: what a path weighs, which classes the beams may use, which plates the grammar has,
 * and how confidences and alternatives are read off the ranking.
 */
module DecoderReadings {
  import opened CtcSpec
  import opened CtcBeam
  import opened CtcRun
  import opened CtcDecoder
  import opened PlateGrammar
  import Tally

  // ---------------------------------------------------------------- paths and beams

  /** The product of the probabilities of a path's classes, none of them taken for less than one in a trillion. */
  ghost function Chance(rows: seq<Row>, path: Path): real {
    match path
    case Start => 1.0
    case Then(before, c) =>
      var t := Length(before);
      Chance(rows, before)
      * if t < |rows| && c < |rows[t]| && rows[t][c] > 0.000000000001 then rows[t][c] else 0.000000000001
  }

  lemma {:induction false} WeightIsChance(rows: seq<Row>, path: Path)
    ensures Weight(rows, path) == Chance(rows, path)
  {
    if path.Then? { WeightIsChance(rows, path.before); }
  }

  /** No more beams than the width are kept after a row. */
  lemma BeamsFitWidth(g: Grammar, rows: seq<Row>, prune: real, width: nat, run: Run, t: nat)
    requires IsRun(g, rows, prune, width, run) && 0 < t <= |rows|
    ensures |run.beams[t]| <= width
  {
    assert RowStep(g, rows, t - 1, prune, width, run.beams[t - 1], run.nexts[t - 1], run.beams[t]);
  }

  /** Some row so far gave the class more than the threshold. */
  ghost predicate WasLikely(rows: seq<Row>, prune: real, t: nat, c: nat)
    requires t <= |rows|
  {
    exists s :: 0 <= s < t && c < |rows[s]| && rows[s][c] > prune
  }

  ghost predicate AllLikely(rows: seq<Row>, prune: real, t: nat, prefix: Prefix)
    requires t <= |rows|
  {
    forall k :: 0 <= k < |prefix| ==> WasLikely(rows, prune, t, prefix[k])
  }

  lemma StillLikely(rows: seq<Row>, prune: real, t: nat, prefix: Prefix)
    requires t < |rows| && AllLikely(rows, prune, t, prefix)
    ensures AllLikely(rows, prune, t + 1, prefix)
  {
    forall k | 0 <= k < |prefix| ensures WasLikely(rows, prune, t + 1, prefix[k]) {
      assert WasLikely(rows, prune, t, prefix[k]);
    }
  }

  lemma GrownLikely(g: Grammar, rows: seq<Row>, prune: real, t: nat, from: Prefix, prefix: Prefix)
    requires t < |rows| && AllLikely(rows, prune, t, from)
    requires Grown(g, Candidates(rows[t], g.blank, prune), from, prefix)
    ensures AllLikely(rows, prune, t + 1, prefix)
  {
    StillLikely(rows, prune, t, from);
    var c := prefix[|from|];
    assert c < |rows[t]| && rows[t][c] > prune;
    forall k | 0 <= k < |prefix| ensures WasLikely(rows, prune, t + 1, prefix[k]) {
      if k < |from| {
        assert prefix[k] == prefix[..|from|][k] == from[k] && WasLikely(rows, prune, t + 1, from[k]);
      }
    }
  }

  ghost predicate BeamsLikely(rows: seq<Row>, prune: real, t: nat, beams: seq<Beam>)
    requires t <= |rows|
  {
    forall i :: 0 <= i < |beams| ==> AllLikely(rows, prune, t, beams[i].prefix)
  }

  /** Every class of every beam was given more than the threshold by some row before. */
  lemma {:induction false} BeamsUseLikely(g: Grammar, rows: seq<Row>, prune: real, width: nat, run: Run, t: nat)
    requires IsRun(g, rows, prune, width, run) && t <= |rows|
    ensures BeamsLikely(rows, prune, t, run.beams[t])
    decreases t
  {
    if t > 0 {
      BeamsUseLikely(g, rows, prune, width, run, t - 1);
      StepUsesLikely(g, rows, prune, width, run, t - 1);
    }
  }

  lemma StepUsesLikely(g: Grammar, rows: seq<Row>, prune: real, width: nat, run: Run, t: nat)
    requires IsRun(g, rows, prune, width, run) && t < |rows| && BeamsLikely(rows, prune, t, run.beams[t])
    ensures BeamsLikely(rows, prune, t + 1, run.beams[t + 1])
  {
    var before, next, after := run.beams[t], run.nexts[t], run.beams[t + 1];
    var cands := Candidates(rows[t], g.blank, prune);
    assert RowStep(g, rows, t, prune, width, before, next, after);
    forall i | 0 <= i < |after| ensures AllLikely(rows, prune, t + 1, after[i].prefix) {
      assert after[i].prefix in next && Reached(g, cands, before, after[i].prefix);
      var j :| 0 <= j < |before| && Reaches(g, cands, before[j], after[i].prefix);
      ReachedLikely(g, rows, prune, t, before[j], after[i].prefix);
    }
  }

  lemma ReachedLikely(g: Grammar, rows: seq<Row>, prune: real, t: nat, b: Beam, prefix: Prefix)
    requires t < |rows| && AllLikely(rows, prune, t, b.prefix)
    requires Reaches(g, Candidates(rows[t], g.blank, prune), b, prefix)
    ensures AllLikely(rows, prune, t + 1, prefix)
  {
    if prefix == b.prefix {
      StillLikely(rows, prune, t, prefix);
    } else {
      GrownLikely(g, rows, prune, t, b.prefix, prefix);
    }
  }

  // ---------------------------------------------------------------- which plates there are

  ghost predicate IsLabelled(labels: string, text: string) { forall i :: 0 <= i < |text| ==> text[i] in labels }

  ghost predicate SpelledBy(labels: string, text: string, prefix: Prefix) {
    Complete(GrammarOf(labels), prefix) && (CompleteIsStandard(labels, prefix); Text(labels, prefix) == text)
  }

  /** The grammar's complete prefixes spell all the standard plates the labels can, and no others. */
  lemma GrammarSpellsPlates(labels: string, text: string)
    ensures (exists prefix :: SpelledBy(labels, text, prefix)) <==> IsStandard(text) && IsLabelled(labels, text)
  {
    if exists prefix :: SpelledBy(labels, text, prefix) {
      var prefix :| SpelledBy(labels, text, prefix);
      CompleteIsStandard(labels, prefix);
      forall i | 0 <= i < |text| ensures text[i] in labels { assert text[i] == labels[prefix[i]]; }
    }
    if IsStandard(text) && IsLabelled(labels, text) {
      var prefix := PlaceAll(labels, text);
      PlacesComplete(labels, text, prefix);
    }
  }

  lemma PlacesComplete(labels: string, text: string, prefix: Prefix)
    requires IsStandard(text) && |prefix| == |text|
    requires forall i :: 0 <= i < |text| ==> prefix[i] < |labels| && labels[prefix[i]] == text[i]
    ensures SpelledBy(labels, text, prefix)
  {
    var g := GrammarOf(labels);
    forall i | 0 <= i < |prefix| ensures prefix[i] in g.allowed[i] {
      assert g.allowed[i] == if i == LETTER_POSITION then LetterIds(labels) else DigitIds(labels);
    }
    assert Complete(g, prefix);
    CompleteIsStandard(labels, prefix);
    assert Text(labels, prefix) == text;
  }

  /** A label for every character. */
  ghost function PlaceAll(labels: string, text: string): (prefix: Prefix)
    requires IsLabelled(labels, text)
    ensures |prefix| == |text|
    ensures forall i :: 0 <= i < |text| ==> prefix[i] < |labels| && labels[prefix[i]] == text[i]
  {
    if text == [] then []
    else
      var n := |text| - 1;
      assert text[n] in labels;
      var k: nat :| k < |labels| && labels[k] == text[n];
      PlaceAll(labels, text[..n]) + [k]
  }

  // ---------------------------------------------------------------- what is read off the ranking

  /** The candidates the result is read off: twice as many as asked for, at least two. */
  ghost predicate IsShort(finals: seq<Final>, nbest: nat, short: seq<Final>) {
    short <= finals
    && |short| == var most := if nbest == 0 then 2 else 2 * nbest; if |finals| < most then |finals| else most
  }

  /** The scores together, or one if they come to nothing. */
  ghost function Mass(short: seq<Final>): (mass: real)
    ensures mass != 0.0
  {
    if ScoreSum(short) == 0.0 then 1.0 else ScoreSum(short)
  }

  /** A position's confidence is the part of the mass that carries the plate's character there; each alternative asked
      for is one of the ranked candidates, in order, with its part of the mass to four decimals. */
  ghost predicate ReadsOff(finals: seq<Final>, short: seq<Final>, nbest: nat, r: Decoded) {
    && |r.plate| == |r.charConfidences| == 8 && short != [] && short[0].text == r.plate
    && (forall pos :: 0 <= pos < 8 ==>
          r.charConfidences[pos] == MarginalSum(short, pos, r.plate[pos]) / Mass(short))
    && |r.alternatives| == (if |finals| < nbest then |finals| else nbest)
    && (forall i :: 0 <= i < |r.alternatives| ==> ReadsAlternative(finals[i], Mass(short), r.alternatives[i]))
  }

  ghost predicate ReadsAlternative(f: Final, mass: real, a: Alternative)
    requires mass != 0.0
  {
    a.plate == f.text && f.score / mass - 0.00005 < a.p <= f.score / mass + 0.00005
  }

  lemma RoundedWithin(x: real)
    ensures x - 0.00005 < Tally.Round4(x) <= x + 0.00005
  {
  }

  lemma ResultReadsOff(finals: seq<Final>, nbest: nat, r: Decoded)
    requires IsDecoded(finals, nbest, r) && finals != []
    ensures exists short :: IsShort(finals, nbest, short) && ReadsOff(finals, short, nbest, r)
  {
    var short := Shortlist(finals, nbest);
    assert IsShort(finals, nbest, short) && MassOrOne(short) == Mass(short);
    forall pos | 0 <= pos < 8
      ensures r.charConfidences[pos] == MarginalSum(short, pos, r.plate[pos]) / Mass(short)
    {
      assert PositionDecoded(short, r, pos);
      SharesAreMarginals(short, Mass(short), pos, r.plate[pos]);
    }
    forall i | 0 <= i < |r.alternatives| ensures ReadsAlternative(finals[i], Mass(short), r.alternatives[i]) {
      RoundedWithin(finals[i].score / Mass(short));
    }
    assert ReadsOff(finals, short, nbest, r);
  }

  lemma SumIs(s: seq<real>, last: real)
    ensures SumOf([]) == 0.0 && SumOf(s + [last]) == SumOf(s) + last
  {
    assert (s + [last])[..|s|] == s;
  }

  lemma Undivided(sum: real, n: real)
    requires n > 0.0
    ensures sum / n * n == sum
  {
  }

  /** The confidence of the best path is the mean of its characters' probabilities, and nothing without any. */
  lemma MeanIs(s: seq<real>)
    ensures if s == [] then Mean(s) == 0.0 else Mean(s) * |s| as real == SumOf(s)
  {
    if s != [] { Undivided(SumOf(s), |s| as real); }
  }
}
