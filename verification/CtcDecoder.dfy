/**
 * The plate decoder around the beam search: best-path reading, the grammar taken from the
 * label list, ranking the complete beams by mass times prior, and the per-position marginals.
 * Values are unrounded.
 */
module CtcDecoder {
  import opened CtcSpec
  import opened CtcBeam
  import opened CtcRun
  import Tally
  import opened PlateGrammar

  // ---------------------------------------------------------------- grammar and priors

  function DigitIds(labels: string): set<nat> {
    set i: nat | i < |labels| && IsDigit(labels[i])
  }

  function LetterIds(labels: string): set<nat> {
    set i: nat | i < |labels| && IsLetter(labels[i])
  }

  function GrammarOf(labels: string): (g: Grammar)
    ensures g.Valid() && g.blank == |labels| && |g.allowed| == PLATE_LENGTH
    ensures forall pos :: 0 <= pos < PLATE_LENGTH ==>
              g.allowed[pos] == if pos == LETTER_POSITION then LetterIds(labels) else DigitIds(labels)
  {
    var d, l := DigitIds(labels), LetterIds(labels);
    CtcBeam.Grammar(|labels|, [d, d, l, d, d, d, d, d])
  }

  function Text(labels: string, prefix: Prefix): string
    requires forall i :: 0 <= i < |prefix| ==> prefix[i] < |labels|
  {
    seq(|prefix|, i requires 0 <= i < |prefix| => labels[prefix[i]])
  }

  function PositionPrior(pos: nat, c: char): real {
    if (pos == 0 || pos == 3 || pos == 6) && c == '0' then 0.05 else 1.0
  }

  predicate IsKnownRegion(code: string) {
    |code| == 2 && '1' <= code[0] <= '9' && IsDigit(code[1]) && code !in {"39", "70", "80", "90"}
  }

  function RegionPrior(code: string): real {
    if IsKnownRegion(code) then 1.0 else 0.2
  }

  function PositionPriors(text: string, n: nat): (prior: real)
    requires n <= |text|
    ensures 0.0 < prior <= 1.0
  {
    if n == 0 then 1.0
    else
      var rest := PositionPriors(text, n - 1);
      if PositionPrior(n - 1, text[n - 1]) == 1.0 then rest else rest * 0.05
  }

  /** Product of the position priors and the region prior. */
  function Prior(text: string): (prior: real)
    requires |text| == PLATE_LENGTH
    ensures 0.0 < prior <= 1.0
  {
    PositionPriors(text, PLATE_LENGTH) * RegionPrior(text[6..8])
  }

  ghost predicate Complete(g: Grammar, prefix: Prefix) {
    Legal(g, prefix) && |prefix| == |g.allowed|
  }

  /** A complete legal prefix spells a standard plate. */
  lemma CompleteIsStandard(labels: string, prefix: Prefix)
    requires Complete(GrammarOf(labels), prefix)
    ensures forall i :: 0 <= i < |prefix| ==> prefix[i] < |labels|
    ensures IsStandard(Text(labels, prefix))
  {
    var g := GrammarOf(labels);
    forall i | 0 <= i < |prefix|
      ensures prefix[i] < |labels|
      ensures if i == LETTER_POSITION then IsLetter(labels[prefix[i]]) else IsDigit(labels[prefix[i]])
    {
      assert prefix[i] in g.allowed[i];
      assert g.allowed[i] == if i == LETTER_POSITION then LetterIds(labels) else DigitIds(labels);
    }
  }

  // ---------------------------------------------------------------- best path

  ghost predicate IsArgMax(row: Row, c: nat) {
    c < |row| && (forall d :: 0 <= d < |row| ==> row[d] <= row[c]) && forall d :: 0 <= d < c ==> row[d] < row[c]
  }

  /** The path that takes the likeliest class at every step. */
  ghost predicate IsGreedy(rows: seq<Row>, t: nat, path: Path)
    requires t <= |rows|
  {
    if t == 0 then path == Start
    else path.Then? && IsArgMax(rows[t - 1], path.cls) && IsGreedy(rows, t - 1, path.before)
  }

  lemma {:induction false} GreedyIsUnique(rows: seq<Row>, t: nat, a: Path, b: Path)
    requires t <= |rows| && IsGreedy(rows, t, a) && IsGreedy(rows, t, b)
    ensures a == b
  {
    if t > 0 {
      var row := rows[t - 1];
      assert row[a.cls] <= row[b.cls] && row[b.cls] <= row[a.cls];
      GreedyIsUnique(rows, t - 1, a.before, b.before);
    }
  }

  ghost predicate Spells(labels: string, path: Path, text: string) {
    (forall i :: 0 <= i < |Collapse(path, |labels|)| ==> Collapse(path, |labels|)[i] < |labels|)
    && text == Text(labels, Collapse(path, |labels|))
  }

  /** The last class of a path writes a character. */
  predicate Writes(path: Path, blank: nat)
    requires path.Then?
  {
    path.cls != blank && !(path.before.Then? && path.before.cls == path.cls)
  }

  /** The probabilities of the classes that write the characters, in order. */
  ghost function WrittenProbs(rows: seq<Row>, t: nat, path: Path, blank: nat): seq<real>
    requires t <= |rows| && IsGreedy(rows, t, path)
  {
    if t == 0 then []
    else
      WrittenProbs(rows, t - 1, path.before, blank) + if Writes(path, blank) then [rows[t - 1][path.cls]] else []
  }

  lemma {:induction false} OneProbabilityEach(rows: seq<Row>, t: nat, path: Path, blank: nat)
    requires t <= |rows| && IsGreedy(rows, t, path)
    ensures |WrittenProbs(rows, t, path, blank)| == |Collapse(path, blank)|
  {
    if t > 0 {
      OneProbabilityEach(rows, t - 1, path.before, blank);
      CollapseStep(path.before, path.cls, blank);
    }
  }

  function SumOf(s: seq<real>): real { if s == [] then 0.0 else SumOf(s[..|s| - 1]) + s[|s| - 1] }

  function Mean(s: seq<real>): real { if s == [] then 0.0 else SumOf(s) / |s| as real }

  /** The text is what the best path collapses to, and the confidence the mean probability of its characters. */
  ghost predicate IsBestPath(rows: seq<Row>, labels: string, text: string, confidence: real) {
    exists path :: IsGreedy(rows, |rows|, path) && Spells(labels, path, text)
      && confidence == Mean(WrittenProbs(rows, |rows|, path, |labels|))
  }

  /** There is only one such text and confidence. */
  lemma BestPathIsUnique(rows: seq<Row>, labels: string, a: string, p: real, b: string, q: real)
    requires IsBestPath(rows, labels, a, p) && IsBestPath(rows, labels, b, q)
    ensures a == b && p == q
  {
    var x :| IsGreedy(rows, |rows|, x) && Spells(labels, x, a) && p == Mean(WrittenProbs(rows, |rows|, x, |labels|));
    var y :| IsGreedy(rows, |rows|, y) && Spells(labels, y, b) && q == Mean(WrittenProbs(rows, |rows|, y, |labels|));
    GreedyIsUnique(rows, |rows|, x, y);
  }

  /** `greedyDecode`: the best path, collapsed as CTC collapses it, and the mean probability of its characters. */
  method GreedyDecode(rows: seq<Row>, labels: string) returns (raw: string, confidence: real)
    requires forall t, c :: 0 <= t < |rows| && 0 <= c < |rows[t]| ==> rows[t][c] >= 0.0
    requires forall t :: 0 <= t < |rows| ==> |rows[t]| == |labels| + 1
    ensures IsBestPath(rows, labels, raw, confidence)
  {
    var blank := |labels|;
    raw := "";
    var confidences: seq<real> := [];
    var prev: int := -1;
    ghost var path := Start;
    for t := 0 to |rows|
      invariant IsGreedy(rows, t, path) && Spells(labels, path, raw)
      invariant confidences == WrittenProbs(rows, t, path, blank)
      invariant prev == if path.Start? then -1 else path.cls
    {
      var best := LikeliestClass(rows[t]);
      CollapseStep(path, best, blank);
      if best != blank && best != prev {
        raw := raw + [labels[best]];
        confidences := confidences + [rows[t][best]];
      }
      prev := best;
      path := Then(path, best);
    }
    confidence := Average(confidences);
  }

  method Average(s: seq<real>) returns (mean: real)
    ensures mean == Mean(s)
  {
    var sum := 0.0;
    for i := 0 to |s|
      invariant sum == SumOf(s[..i])
    {
      assert s[..i + 1][..i] == s[..i];
      sum := sum + s[i];
    }
    assert s[..|s|] == s;
    mean := if s == [] then 0.0 else sum / |s| as real;
  }

  /** The first class of the highest probability. */
  method LikeliestClass(row: Row) returns (best: nat)
    requires |row| > 0 && forall c :: 0 <= c < |row| ==> row[c] >= 0.0
    ensures IsArgMax(row, best)
  {
    var bestP := -1.0;
    best := 0;
    for c := 0 to |row|
      invariant c == 0 ==> best == 0 && bestP == -1.0
      invariant c > 0 ==> best < c && bestP == row[best]
      invariant forall d :: 0 <= d < c ==> row[d] <= bestP
      invariant forall d :: 0 <= d < best ==> row[d] < bestP
    {
      if row[c] > bestP { best, bestP := c, row[c]; }
    }
  }

  // ---------------------------------------------------------------- ranking complete plates

  datatype Final = Final(prefix: Prefix, text: string, score: real)

  ghost predicate Ranked(finals: seq<Final>) {
    forall i, j :: 0 <= i < j < |finals| ==> finals[i].score >= finals[j].score
  }

  function Insert(sorted: seq<Final>, f: Final): (r: seq<Final>)
    ensures multiset(r) == multiset(sorted) + multiset{f}
  {
    if sorted == [] || sorted[0].score < f.score then [f] + sorted
    else
      assert sorted == [sorted[0]] + sorted[1..];
      [sorted[0]] + Insert(sorted[1..], f)
  }

  /** A stable sort by descending score. */
  function Rank(finals: seq<Final>): (r: seq<Final>)
    ensures multiset(r) == multiset(finals)
  {
    if finals == [] then []
    else
      assert finals == finals[..|finals| - 1] + [finals[|finals| - 1]];
      Insert(Rank(finals[..|finals| - 1]), finals[|finals| - 1])
  }

  lemma {:induction false} InsertRanked(sorted: seq<Final>, f: Final)
    requires Ranked(sorted)
    ensures Ranked(Insert(sorted, f))
  {
    if sorted != [] && sorted[0].score >= f.score {
      InsertRanked(sorted[1..], f);
      InsertBelow(sorted[1..], f, sorted[0].score);
      PrependRanked(sorted[0], Insert(sorted[1..], f));
    }
  }

  ghost predicate AllBelow(finals: seq<Final>, bound: real) {
    forall i :: 0 <= i < |finals| ==> finals[i].score <= bound
  }

  lemma {:induction false} InsertBelow(sorted: seq<Final>, f: Final, bound: real)
    requires AllBelow(sorted, bound) && f.score <= bound
    ensures AllBelow(Insert(sorted, f), bound)
  {
    if sorted != [] && sorted[0].score >= f.score { InsertBelow(sorted[1..], f, bound); }
  }

  lemma PrependRanked(first: Final, rest: seq<Final>)
    requires Ranked(rest) && AllBelow(rest, first.score)
    ensures Ranked([first] + rest)
  {
  }

  lemma {:induction false} RankRanked(finals: seq<Final>)
    ensures Ranked(Rank(finals))
  {
    if finals != [] {
      RankRanked(finals[..|finals| - 1]);
      InsertRanked(Rank(finals[..|finals| - 1]), finals[|finals| - 1]);
    }
  }

  ghost predicate OverLabels(labels: string, beams: seq<Beam>) {
    forall i, k :: 0 <= i < |beams| && 0 <= k < |beams[i].prefix| ==> beams[i].prefix[k] < |labels|
  }

  function FinalOf(labels: string, b: Beam): Final
    requires |b.prefix| == PLATE_LENGTH && forall k :: 0 <= k < |b.prefix| ==> b.prefix[k] < |labels|
  {
    var text := Text(labels, b.prefix);
    Final(b.prefix, text, b.score.Total() * Prior(text))
  }

  /** One entry for every complete beam, in beam order. */
  ghost function Finals(labels: string, beams: seq<Beam>): seq<Final>
    requires OverLabels(labels, beams)
  {
    if beams == [] then []
    else
      var b := beams[|beams| - 1];
      Finals(labels, beams[..|beams| - 1]) + if |b.prefix| == PLATE_LENGTH then [FinalOf(labels, b)] else []
  }

  lemma {:induction false} FinalsAre(labels: string, beams: seq<Beam>)
    requires OverLabels(labels, beams)
    ensures forall i :: 0 <= i < |beams| && |beams[i].prefix| == PLATE_LENGTH ==>
      FinalOf(labels, beams[i]) in Finals(labels, beams)
    ensures forall f :: f in Finals(labels, beams) ==>
              exists i :: 0 <= i < |beams| && |beams[i].prefix| == PLATE_LENGTH && f == FinalOf(labels, beams[i])
  {
    if beams != [] {
      var n := |beams| - 1;
      FinalsAre(labels, beams[..n]);
      forall f | f in Finals(labels, beams[..n])
        ensures exists i :: 0 <= i < |beams| && |beams[i].prefix| == PLATE_LENGTH && f == FinalOf(labels, beams[i])
      {
        var i :| 0 <= i < n && |beams[..n][i].prefix| == PLATE_LENGTH && f == FinalOf(labels, beams[..n][i]);
        assert beams[i] == beams[..n][i];
      }
      forall i | 0 <= i < n && |beams[i].prefix| == PLATE_LENGTH
        ensures FinalOf(labels, beams[i]) in Finals(labels, beams) {
        assert beams[..n][i] == beams[i];
      }
    }
  }

  lemma RankedWhole(labels: string, beams: seq<Beam>)
    requires OverLabels(labels, beams)
    ensures Whole(Rank(Finals(labels, beams)))
  {
    var listed := Finals(labels, beams);
    FinalsAre(labels, beams);
    forall k | 0 <= k < |Rank(listed)| ensures |Rank(listed)[k].text| == PLATE_LENGTH {
      assert Rank(listed)[k] in multiset(Rank(listed));
      assert Rank(listed)[k] in listed;
    }
  }

  method RankFinals(labels: string, beams: seq<Beam>) returns (finals: seq<Final>)
    requires OverLabels(labels, beams)
    ensures finals == Rank(Finals(labels, beams))
  {
    var complete: seq<Final> := [];
    for n := 0 to |beams|
      invariant complete == Finals(labels, beams[..n])
    {
      assert beams[..n + 1][..n] == beams[..n];
      if |beams[n].prefix| == PLATE_LENGTH { complete := complete + [FinalOf(labels, beams[n])]; }
    }
    assert beams[..|beams|] == beams;
    finals := Rank(complete);
  }

  // ---------------------------------------------------------------- what the ranking gives

  /** The head of the ranking is a complete beam whose mass times prior no other complete beam beats. */
  lemma BestFinal(labels: string, beams: seq<Beam>)
    requires OverLabels(labels, beams)
    ensures var finals := Rank(Finals(labels, beams));
      (finals == [] <==> forall i :: 0 <= i < |beams| ==> |beams[i].prefix| != PLATE_LENGTH)
      && (finals != [] ==>
            (exists i :: 0 <= i < |beams| && |beams[i].prefix| == PLATE_LENGTH
               && finals[0] == FinalOf(labels, beams[i]))
            && forall i :: 0 <= i < |beams| && |beams[i].prefix| == PLATE_LENGTH ==>
                 FinalOf(labels, beams[i]).score <= finals[0].score)
  {
    var listed := Finals(labels, beams);
    var finals := Rank(listed);
    FinalsAre(labels, beams);
    RankRanked(listed);
    assert multiset(finals) == multiset(listed);
    if finals != [] {
      assert finals[0] in multiset(finals);
      assert finals[0] in listed;
    }
    forall i | 0 <= i < |beams| && |beams[i].prefix| == PLATE_LENGTH
      ensures finals != [] && FinalOf(labels, beams[i]).score <= finals[0].score
    {
      var f := FinalOf(labels, beams[i]);
      assert f in listed;
      assert f in multiset(finals);
      var k :| 0 <= k < |finals| && finals[k] == f;
    }
  }

  // ---------------------------------------------------------------- weights and marginals

  ghost function ScoreSum(finals: seq<Final>): real {
    if finals == [] then 0.0 else ScoreSum(finals[..|finals| - 1]) + finals[|finals| - 1].score
  }

  /** Scores of the candidates that carry character `c` at `pos`. */
  ghost function MarginalSum(finals: seq<Final>, pos: nat, c: char): real {
    if finals == [] then 0.0
    else
      var f := finals[|finals| - 1];
      MarginalSum(finals[..|finals| - 1], pos, c) + if pos < |f.text| && f.text[pos] == c then f.score else 0.0
  }

  ghost predicate NonNegativeScores(finals: seq<Final>) {
    forall i :: 0 <= i < |finals| ==> finals[i].score >= 0.0
  }

  /** A marginal holds at least the best candidate and at most everything. */
  lemma {:induction false} MarginalBounds(finals: seq<Final>, pos: nat, c: char)
    requires NonNegativeScores(finals)
    ensures 0.0 <= MarginalSum(finals, pos, c) <= ScoreSum(finals)
    ensures finals != [] && pos < |finals[0].text| && finals[0].text[pos] == c ==>
      MarginalSum(finals, pos, c) >= finals[0].score
  {
    if finals != [] {
      var init := finals[..|finals| - 1];
      MarginalBounds(init, pos, c);
      if init == [] { assert MarginalSum(init, pos, c) == 0.0; }
    }
  }

  /** `mass`: the sum of the scores, or 1 when that sum is zero. */
  ghost function MassOrOne(finals: seq<Final>): (m: real)
    ensures m != 0.0
  {
    if ScoreSum(finals) == 0.0 then 1.0 else ScoreSum(finals)
  }

  method SumScores(finals: seq<Final>) returns (mass: real)
    ensures mass == MassOrOne(finals)
  {
    mass := 0.0;
    for i := 0 to |finals|
      invariant mass == ScoreSum(finals[..i])
    {
      assert finals[..i + 1][..i] == finals[..i];
      mass := mass + finals[i].score;
    }
    assert finals[..|finals|] == finals;
    if mass == 0.0 { mass := 1.0; }
  }

  predicate Whole(finals: seq<Final>) {
    forall i :: 0 <= i < |finals| ==> |finals[i].text| == PLATE_LENGTH
  }

  /** Each candidate's character at a position, with the candidate's weight. */
  function PositionShares(finals: seq<Final>, mass: real, pos: nat): seq<Tally.Share<char>>
    requires mass != 0.0 && Whole(finals) && pos < PLATE_LENGTH
  {
    seq(|finals|, i requires 0 <= i < |finals| => Tally.Share(finals[i].text[pos], finals[i].score / mass))
  }

  /** A character's votes at a position are its marginal over the mass. */
  lemma {:induction false} SharesAreMarginals(finals: seq<Final>, mass: real, pos: nat, c: char)
    requires mass != 0.0 && Whole(finals) && pos < PLATE_LENGTH
    ensures Tally.VotesFor(PositionShares(finals, mass, pos), c) == MarginalSum(finals, pos, c) / mass
  {
    if finals != [] {
      var init, last := finals[..|finals| - 1], finals[|finals| - 1];
      SharesAreMarginals(init, mass, pos, c);
      assert PositionShares(finals, mass, pos)[..|init|] == PositionShares(init, mass, pos);
      AddQuotients(MarginalSum(init, pos, c), last.score, mass);
    }
  }

  lemma AddQuotients(a: real, b: real, d: real)
    requires d != 0.0
    ensures (a + b) / d == a / d + b / d && (a + 0.0) / d == a / d
  {
  }

  /** One position of the result: the share of the best plate's character, and the heaviest characters. */
  method ReadPosition(finals: seq<Final>, mass: real, pos: nat, c: char)
    returns (confidence: real, choices: seq<Tally.Choice>)
    requires mass != 0.0 && Whole(finals) && pos < PLATE_LENGTH
    ensures confidence == Tally.VotesFor(PositionShares(finals, mass, pos), c)
    ensures choices == Tally.TopChoices(PositionShares(finals, mass, pos))
  {
    ghost var shares := PositionShares(finals, mass, pos);
    var dist: seq<Tally.Share<char>> := [];
    for i := 0 to |finals|
      invariant dist == Tally.Pool(shares[..i])
    {
      assert shares[..i + 1][..i] == shares[..i];
      dist := Tally.Cast(dist, Tally.Share(finals[i].text[pos], finals[i].score / mass));
    }
    assert shares[..|shares|] == shares;
    Tally.PoolCounts(shares, c);
    confidence := Tally.Held(dist, c);
    choices := Tally.Rounded(Tally.Take(Tally.Rank(dist), Tally.TOP_CHOICES));
  }

  // ---------------------------------------------------------------- the decoder

  datatype Alternative = Alternative(plate: string, p: real)

  datatype Decoded = Decoded(
    plate: string, probability: real, charConfidences: seq<real>, positions: seq<seq<Tally.Choice>>,
    alternatives: seq<Alternative>, raw: string, rawConfidence: real, valid: bool)

  /** The candidates the result is computed from: twice `nbest`, at least two. */
  function Shortlist(finals: seq<Final>, nbest: nat): seq<Final> {
    Tally.Take(finals, 2 * if nbest == 0 then 1 else nbest)
  }

  function Alternatives(finals: seq<Final>, nbest: nat, mass: real): seq<Alternative>
    requires mass != 0.0
  {
    var listed := Tally.Take(finals, nbest);
    seq(|listed|, i requires 0 <= i < |listed| => Alternative(listed[i].text, Tally.Round4(listed[i].score / mass)))
  }

  const NO_PLATE := Decoded("", 0.0, [], [], [], "", 0.0, false)

  ghost predicate IsDecoded(finals: seq<Final>, nbest: nat, r: Decoded) {
    Whole(finals) &&
    if finals == [] then r == NO_PLATE.(raw := r.raw, rawConfidence := r.rawConfidence)
    else
      var short := Shortlist(finals, nbest);
      && r.valid && r.plate == finals[0].text
      && r.probability == (if finals[0].score < 1.0 then finals[0].score else 1.0)
      && |r.charConfidences| == |r.positions| == PLATE_LENGTH
      && (forall pos :: 0 <= pos < PLATE_LENGTH ==> PositionDecoded(short, r, pos))
      && r.alternatives == Alternatives(finals, nbest, MassOrOne(short))
  }

  /** A position's confidence is the share of the candidates that agree with the plate there, and its choices are the
      heaviest characters of the candidates. */
  ghost predicate PositionDecoded(short: seq<Final>, r: Decoded, pos: nat)
    requires Whole(short) && pos < PLATE_LENGTH == |r.charConfidences| == |r.positions| == |r.plate|
  {
    var shares := PositionShares(short, MassOrOne(short), pos);
    r.charConfidences[pos] == Tally.VotesFor(shares, r.plate[pos]) && r.positions[pos] == Tally.TopChoices(shares)
  }

  /** The beams left after the rows of some run. */
  ghost predicate IsSearched(rows: seq<Row>, g: Grammar, width: nat, prune: real, beams: seq<Beam>) {
    exists run :: IsRun(g, rows, prune, width, run) && run.beams[|rows|] == beams
  }

  /** The loop over the rows. */
  method SearchBeams(rows: seq<Row>, g: Grammar, width: nat, prune: real) returns (beams: seq<Beam>)
    requires forall t :: 0 <= t < |rows| ==> |rows[t]| == g.blank + 1
    ensures IsSearched(rows, g, width, prune, beams)
  {
    beams := [START];
    ghost var run := Run([beams], []);
    for t := 0 to |rows|
      invariant |run.beams| == t + 1 && |run.nexts| == t && run.beams[0] == [START] && run.beams[t] == beams
      invariant forall k :: 0 <= k < t ==>
        RowStep(g, rows, k, prune, width, run.beams[k], run.nexts[k], run.beams[k + 1])
    {
      var next := StepRow(g, rows, t, prune, beams);
      beams := SortAndCut(next, width);
      run := Run(run.beams + [beams], run.nexts + [next]);
    }
    assert IsRun(g, rows, prune, width, run);
  }

  /** The result of a ranking. */
  method Summarize(finals: seq<Final>, nbest: nat, raw: string, rawConfidence: real) returns (r: Decoded)
    requires Whole(finals)
    ensures IsDecoded(finals, nbest, r) && r.raw == raw && r.rawConfidence == rawConfidence
  {
    if finals == [] {
      return NO_PLATE.(raw := raw, rawConfidence := rawConfidence);
    }
    var short := Shortlist(finals, nbest);
    var mass := SumScores(short);
    var best := finals[0].text;
    var confidences: seq<real> := [];
    var positions: seq<seq<Tally.Choice>> := [];
    for pos := 0 to PLATE_LENGTH
      invariant |confidences| == |positions| == pos
      invariant forall k :: 0 <= k < pos ==>
        confidences[k] == Tally.VotesFor(PositionShares(short, mass, k), best[k])
        && positions[k] == Tally.TopChoices(PositionShares(short, mass, k))
    {
      var confidence, choices := ReadPosition(short, mass, pos, best[pos]);
      confidences, positions := confidences + [confidence], positions + [choices];
    }
    r := Decoded(best, if finals[0].score < 1.0 then finals[0].score else 1.0, confidences, positions,
                 Alternatives(finals, nbest, mass), raw, rawConfidence, true);
  }

  /** The result is read off the last beams of a run. */
  ghost predicate DecodesRun(labels: string, rows: seq<Row>, prune: real, width: nat, nbest: nat, run: Run,
                             r: Decoded)
  {
    && IsRun(GrammarOf(labels), rows, prune, width, run) && OverLabels(labels, run.beams[|rows|])
    && IsDecoded(Rank(Finals(labels, run.beams[|rows|])), nbest, r)
  }

  ghost predicate IsSearchResult(labels: string, rows: seq<Row>, prune: real, width: nat, nbest: nat, r: Decoded) {
    exists run :: DecodesRun(labels, rows, prune, width, nbest, run, r)
  }

  /** `constrainedBeamSearch`. */
  method ConstrainedBeamSearch(rows: seq<Row>, labels: string, width: nat, nbest: nat, prune: real) returns (r: Decoded)
    requires forall t :: 0 <= t < |rows| ==> |rows[t]| == |labels| + 1
    requires forall t, c :: 0 <= t < |rows| && 0 <= c < |rows[t]| ==> rows[t][c] >= 0.0
    ensures IsSearchResult(labels, rows, prune, width, nbest, r)
    ensures IsBestPath(rows, labels, r.raw, r.rawConfidence)
  {
    var raw, rawConfidence := GreedyDecode(rows, labels);
    var beams := SearchBeams(rows, GrammarOf(labels), width, prune);
    ghost var run :| IsRun(GrammarOf(labels), rows, prune, width, run) && run.beams[|rows|] == beams;
    RunOverLabels(labels, rows, prune, width, run);
    var finals := RankFinals(labels, beams);
    RankedWhole(labels, beams);
    r := Summarize(finals, nbest, raw, rawConfidence);
    assert DecodesRun(labels, rows, prune, width, nbest, run, r);
  }

  lemma RunOverLabels(labels: string, rows: seq<Row>, prune: real, width: nat, run: Run)
    requires IsRun(GrammarOf(labels), rows, prune, width, run)
    ensures OverLabels(labels, run.beams[|rows|])
  {
    var g, beams := GrammarOf(labels), run.beams[|rows|];
    RunKeepsGrammar(g, rows, prune, width, run, |rows|);
    forall i, k | 0 <= i < |beams| && 0 <= k < |beams[i].prefix| ensures beams[i].prefix[k] < |labels| {
      assert beams[i].prefix[k] in g.allowed[k];
    }
  }

  // ---------------------------------------------------------------- what a caller can rely on

  /**
   * Any width, any threshold: a valid result is a standard plate that the normaliser leaves alone,
   * with confidences between the best candidate's share and one.
   */
  lemma DecodedIsCanonical(labels: string, rows: seq<Row>, prune: real, width: nat, nbest: nat, r: Decoded)
    requires IsSearchResult(labels, rows, prune, width, nbest, r) && r.valid
    ensures IsStandard(r.plate) && Normalize(r.plate).Valid? && Normalize(r.plate).plate == r.plate
    ensures 0.0 <= r.probability <= 1.0 && |r.charConfidences| == PLATE_LENGTH
    ensures forall pos :: 0 <= pos < PLATE_LENGTH ==> 0.0 <= r.charConfidences[pos] <= 1.0
  {
    var run :| DecodesRun(labels, rows, prune, width, nbest, run, r);
    RunDecodeIsStandard(labels, rows, prune, width, nbest, run, r);
    CanonicalIsFixed(r.plate);
  }

  lemma RunDecodeIsStandard(labels: string, rows: seq<Row>, prune: real, width: nat, nbest: nat, run: Run, r: Decoded)
    requires DecodesRun(labels, rows, prune, width, nbest, run, r) && r.valid
    ensures IsStandard(r.plate) && 0.0 <= r.probability <= 1.0 && |r.charConfidences| == PLATE_LENGTH
    ensures forall pos :: 0 <= pos < PLATE_LENGTH ==> 0.0 <= r.charConfidences[pos] <= 1.0
  {
    var beams := run.beams[|rows|];
    RunKeepsGrammar(GrammarOf(labels), rows, prune, width, run, |rows|);
    AllFinalsStandard(labels, |rows|, beams);
    FinalsNonNegative(labels, beams);
    ConfidencesInRange(Rank(Finals(labels, beams)), nbest, r);
  }

  /** Every listed alternative is a standard plate with a weight that is not negative. */
  lemma AlternativesAreStandard(labels: string, rows: seq<Row>, prune: real, width: nat, nbest: nat, r: Decoded)
    requires IsSearchResult(labels, rows, prune, width, nbest, r) && r.valid
    ensures AreAlternatives(r.alternatives)
  {
    var run :| DecodesRun(labels, rows, prune, width, nbest, run, r);
    var beams := run.beams[|rows|];
    RunKeepsGrammar(GrammarOf(labels), rows, prune, width, run, |rows|);
    FinalsNonNegative(labels, beams);
    AllFinalsStandard(labels, |rows|, beams);
    ListedAreStandard(Rank(Finals(labels, beams)), nbest, r);
  }

  ghost predicate AreAlternatives(alternatives: seq<Alternative>) {
    forall k :: 0 <= k < |alternatives| ==> IsStandard(alternatives[k].plate) && alternatives[k].p >= 0.0
  }

  ghost predicate AllStandard(finals: seq<Final>) {
    forall k :: 0 <= k < |finals| ==> IsStandard(finals[k].text)
  }

  lemma ListedAreStandard(finals: seq<Final>, nbest: nat, r: Decoded)
    requires IsDecoded(finals, nbest, r) && r.valid && NonNegativeScores(finals) && AllStandard(finals)
    ensures AreAlternatives(r.alternatives)
  {
    var mass := MassOrOne(Shortlist(finals, nbest));
    MarginalBounds(Shortlist(finals, nbest), 0, '0');
    forall k | 0 <= k < |r.alternatives| ensures r.alternatives[k].p >= 0.0 {
      RoundedNonNegative(finals[k].score, mass);
    }
  }

  lemma AllFinalsStandard(labels: string, t: nat, beams: seq<Beam>)
    requires Sound(GrammarOf(labels), t, beams) && OverLabels(labels, beams)
    ensures AllStandard(Rank(Finals(labels, beams)))
  {
    var listed := Finals(labels, beams);
    FinalsAre(labels, beams);
    forall k | 0 <= k < |Rank(listed)| ensures IsStandard(Rank(listed)[k].text) {
      assert Rank(listed)[k] in multiset(Rank(listed));
      assert Rank(listed)[k] in listed;
      var i :| 0 <= i < |beams| && |beams[i].prefix| == PLATE_LENGTH && Rank(listed)[k] == FinalOf(labels, beams[i]);
      CompleteIsStandard(labels, beams[i].prefix);
    }
  }

  lemma RoundedNonNegative(score: real, mass: real)
    requires score >= 0.0 && mass > 0.0
    ensures Tally.Round4(score / mass) >= 0.0
  {
    assert score / mass >= 0.0;
  }

  lemma ConfidencesInRange(finals: seq<Final>, nbest: nat, r: Decoded)
    requires IsDecoded(finals, nbest, r) && r.valid && NonNegativeScores(finals)
    ensures 0.0 <= r.probability <= 1.0
    ensures |r.charConfidences| == PLATE_LENGTH
    ensures forall pos :: 0 <= pos < PLATE_LENGTH ==> 0.0 <= r.charConfidences[pos] <= 1.0
  {
    var short := Shortlist(finals, nbest);
    forall pos | 0 <= pos < PLATE_LENGTH ensures 0.0 <= r.charConfidences[pos] <= 1.0 {
      assert PositionDecoded(short, r, pos);
      SharesAreMarginals(short, MassOrOne(short), pos, r.plate[pos]);
      MarginalBounds(short, pos, r.plate[pos]);
      ShareBounds(MarginalSum(short, pos, r.plate[pos]), ScoreSum(short));
    }
  }

  lemma ShareBounds(part: real, whole: real)
    requires 0.0 <= part <= whole
    ensures 0.0 <= part / (if whole == 0.0 then 1.0 else whole) <= 1.0
  {
  }

  lemma FinalsNonNegative(labels: string, beams: seq<Beam>)
    requires OverLabels(labels, beams) && NonNegative(beams)
    ensures NonNegativeScores(Rank(Finals(labels, beams)))
  {
    var listed := Finals(labels, beams);
    var finals := Rank(listed);
    FinalsAre(labels, beams);
    assert multiset(finals) == multiset(listed);
    forall k | 0 <= k < |finals| ensures finals[k].score >= 0.0 {
      assert finals[k] in multiset(finals);
      assert finals[k] in listed;
      var i :| 0 <= i < |beams| && |beams[i].prefix| == PLATE_LENGTH && finals[k] == FinalOf(labels, beams[i]);
      FinalNonNegative(labels, beams[i]);
    }
  }

  lemma FinalNonNegative(labels: string, b: Beam)
    requires |b.prefix| == PLATE_LENGTH && forall k :: 0 <= k < |b.prefix| ==> b.prefix[k] < |labels|
    requires b.score.pb >= 0.0 && b.score.pnb >= 0.0
    ensures FinalOf(labels, b).score >= 0.0
  {
    TimesNonNegative(b.score.Total(), Prior(Text(labels, b.prefix)));
  }

  /** CTC mass of a complete prefix times the prior of the plate it spells. */
  ghost function PosteriorScore(labels: string, rows: seq<Row>, prefix: Prefix): real
    requires Complete(GrammarOf(labels), prefix)
  {
    CompleteIsStandard(labels, prefix);
    TotalMass(rows, |rows|, |labels|, prefix) * Prior(Text(labels, prefix))
  }

  /**
   * Optimality: with nothing cut and nothing pruned, the plate returned maximises brute-force CTC
   * mass times prior over all complete plates of the grammar, and its score is exactly that value.
   */
  lemma ExactDecodeIsOptimal(labels: string, rows: seq<Row>, prune: real, width: nat, run: Run)
    requires IsRun(GrammarOf(labels), rows, prune, width, run) && OverLabels(labels, run.beams[|rows|])
    requires NothingCut(run) && NothingPruned(GrammarOf(labels), rows, prune)
    requires Rank(Finals(labels, run.beams[|rows|])) != []
    ensures var best := Rank(Finals(labels, run.beams[|rows|]))[0];
      Complete(GrammarOf(labels), best.prefix)
      && best.score == PosteriorScore(labels, rows, best.prefix)
      && forall prefix :: Complete(GrammarOf(labels), prefix) ==> PosteriorScore(labels, rows, prefix) <= best.score
  {
    var beams := run.beams[|rows|];
    var best := Rank(Finals(labels, beams))[0];
    BestFinal(labels, beams);
    RunKeepsGrammar(GrammarOf(labels), rows, prune, width, run, |rows|);
    var i :| 0 <= i < |beams| && |beams[i].prefix| == PLATE_LENGTH && best == FinalOf(labels, beams[i]);
    BeamScore(labels, rows, prune, width, run, i);
    FinalsNonNegative(labels, beams);
    forall prefix | Complete(GrammarOf(labels), prefix) ensures PosteriorScore(labels, rows, prefix) <= best.score {
      if Holds(beams, prefix) {
        var k :| 0 <= k < |beams| && beams[k].prefix == prefix;
        BeamScore(labels, rows, prune, width, run, k);
      } else {
        NoBeamNoScore(labels, rows, prune, width, run, prefix);
      }
    }
  }

  lemma BeamScore(labels: string, rows: seq<Row>, prune: real, width: nat, run: Run, i: nat)
    requires IsRun(GrammarOf(labels), rows, prune, width, run) && OverLabels(labels, run.beams[|rows|])
    requires NothingCut(run) && NothingPruned(GrammarOf(labels), rows, prune)
    requires i < |run.beams[|rows|]| && |run.beams[|rows|][i].prefix| == PLATE_LENGTH
    ensures var b := run.beams[|rows|][i];
      Complete(GrammarOf(labels), b.prefix) && FinalOf(labels, b).score == PosteriorScore(labels, rows, b.prefix)
  {
    var b := run.beams[|rows|][i];
    RunKeepsGrammar(GrammarOf(labels), rows, prune, width, run, |rows|);
    HeldAt(run.beams[|rows|], i);
    RunTotalIsExact(GrammarOf(labels), rows, prune, width, run, |rows|, b.prefix);
    ExactScore(labels, rows, b);
  }

  lemma ExactScore(labels: string, rows: seq<Row>, b: Beam)
    requires Complete(GrammarOf(labels), b.prefix) && forall k :: 0 <= k < |b.prefix| ==> b.prefix[k] < |labels|
    requires b.score.Total() == TotalMass(rows, |rows|, |labels|, b.prefix)
    ensures FinalOf(labels, b).score == PosteriorScore(labels, rows, b.prefix)
  {
  }

  lemma NoBeamNoScore(labels: string, rows: seq<Row>, prune: real, width: nat, run: Run, prefix: Prefix)
    requires IsRun(GrammarOf(labels), rows, prune, width, run) && Complete(GrammarOf(labels), prefix)
    requires NothingCut(run) && NothingPruned(GrammarOf(labels), rows, prune) && !Holds(run.beams[|rows|], prefix)
    ensures PosteriorScore(labels, rows, prefix) == 0.0
  {
    NoBeamNoMass(GrammarOf(labels), rows, prune, width, run, prefix);
    NoMassNoScore(labels, rows, prefix);
  }

  lemma NoBeamNoMass(g: Grammar, rows: seq<Row>, prune: real, width: nat, run: Run, prefix: Prefix)
    requires IsRun(g, rows, prune, width, run) && g.Valid() && Legal(g, prefix)
    requires NothingCut(run) && NothingPruned(g, rows, prune) && !Holds(run.beams[|rows|], prefix)
    ensures TotalMass(rows, |rows|, g.blank, prefix) == 0.0
  {
    HeldNone(run.beams[|rows|], prefix);
    RunTotalIsExact(g, rows, prune, width, run, |rows|, prefix);
  }

  lemma NoMassNoScore(labels: string, rows: seq<Row>, prefix: Prefix)
    requires Complete(GrammarOf(labels), prefix) && TotalMass(rows, |rows|, |labels|, prefix) == 0.0
    ensures PosteriorScore(labels, rows, prefix) == 0.0
  {
  }

  /** And when no plate is returned, no complete plate of the grammar has any mass at all. */
  lemma NoDecodeNoMass(labels: string, rows: seq<Row>, prune: real, width: nat, run: Run, prefix: Prefix)
    requires IsRun(GrammarOf(labels), rows, prune, width, run) && OverLabels(labels, run.beams[|rows|])
    requires NothingCut(run) && NothingPruned(GrammarOf(labels), rows, prune)
    requires Rank(Finals(labels, run.beams[|rows|])) == [] && Complete(GrammarOf(labels), prefix)
    ensures PosteriorScore(labels, rows, prefix) == 0.0
  {
    BestFinal(labels, run.beams[|rows|]);
    NoBeamNoScore(labels, rows, prune, width, run, prefix);
  }

  /** A plate no other complete plate of the grammar beats in CTC mass times prior. */
  ghost predicate IsBestPlate(labels: string, rows: seq<Row>, prefix: Prefix) {
    Complete(GrammarOf(labels), prefix)
    && forall other :: Complete(GrammarOf(labels), other) ==>
      PosteriorScore(labels, rows, other) <= PosteriorScore(labels, rows, prefix)
  }

  /** The result is such a plate, with its score capped at one as probability. */
  ghost predicate ReturnsBest(labels: string, rows: seq<Row>, r: Decoded, prefix: Prefix) {
    IsBestPlate(labels, rows, prefix)
    && (CompleteIsStandard(labels, prefix); r.plate == Text(labels, prefix))
    && r.probability
       == (if PosteriorScore(labels, rows, prefix) < 1.0 then PosteriorScore(labels, rows, prefix) else 1.0)
  }

  ghost predicate DecodesBest(labels: string, rows: seq<Row>, r: Decoded) {
    if r.valid then exists prefix :: ReturnsBest(labels, rows, r, prefix)
    else forall prefix :: Complete(GrammarOf(labels), prefix) ==> PosteriorScore(labels, rows, prefix) == 0.0
  }

  lemma RunDecodesBest(labels: string, rows: seq<Row>, prune: real, width: nat, nbest: nat, run: Run, r: Decoded)
    requires DecodesRun(labels, rows, prune, width, nbest, run, r)
    requires NothingCut(run) && NothingPruned(GrammarOf(labels), rows, prune)
    ensures DecodesBest(labels, rows, r)
  {
    var finals := Rank(Finals(labels, run.beams[|rows|]));
    if finals != [] {
      ExactDecodeIsOptimal(labels, rows, prune, width, run);
      BestFinal(labels, run.beams[|rows|]);
      assert ReturnsBest(labels, rows, r, finals[0].prefix);
    } else {
      forall prefix | Complete(GrammarOf(labels), prefix) ensures PosteriorScore(labels, rows, prefix) == 0.0 {
        NoDecodeNoMass(labels, rows, prune, width, run, prefix);
      }
    }
  }

  /**
   * The returned plate maximises CTC mass times prior over all complete plates whenever no label is
   * pruned and the beam is at least as wide as the grammar has prefixes.
   */
  lemma WideDecodeIsOptimal(labels: string, rows: seq<Row>, prune: real, width: nat, nbest: nat, r: Decoded)
    requires IsSearchResult(labels, rows, prune, width, nbest, r) && NothingPruned(GrammarOf(labels), rows, prune)
    requires width >= |LegalPrefixes(GrammarOf(labels), PLATE_LENGTH)|
    ensures DecodesBest(labels, rows, r)
  {
    var run :| DecodesRun(labels, rows, prune, width, nbest, run, r);
    WideNeverCuts(GrammarOf(labels), rows, prune, width, run);
    RunDecodesBest(labels, rows, prune, width, nbest, run, r);
  }
}
