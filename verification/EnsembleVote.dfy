/**
 * The label-level ensemble over the decodes of one plate's variants: every alternative votes with its
 * probability times its decode's, and the plate with the most votes wins.
 */
module EnsembleVote {
  import opened Options
  import opened Tally
  import Decoder = CtcDecoder
  import PlateGrammar

  type Decoded = Decoder.Decoded

  /** A plate and its votes. */
  type Ballot = Share<string>

  const MIN_VOTE: real := 0.000001
  const MAX_ALTERNATIVES: nat := 5

  function Vote(p: real, probability: real): real {
    p * if probability >= MIN_VOTE then probability else MIN_VOTE
  }

  function BallotsOf(r: Decoded): seq<Ballot> {
    seq(|r.alternatives|, i requires 0 <= i < |r.alternatives| =>
      Share(r.alternatives[i].plate, Vote(r.alternatives[i].p, r.probability)))
  }

  function Ballots(valid: seq<Decoded>): seq<Ballot> {
    if valid == [] then [] else Ballots(valid[..|valid| - 1]) + BallotsOf(valid[|valid| - 1])
  }

  function Portion(weight: real, total: real): real { if total == 0.0 then weight else weight / total }

  function Normalised(pool: seq<Ballot>): seq<Ballot> {
    seq(|pool|, i requires 0 <= i < |pool| => Share(pool[i].key, Portion(pool[i].weight, Total(pool))))
  }

  function Standings(valid: seq<Decoded>): seq<Ballot> { Rank(Normalised(Pool(Ballots(valid)))) }

  /** The characters at a position of the ranked plates of the best plate's length, with the plates' weights. */
  function CharacterShares(ranked: seq<Ballot>, best: string, pos: nat): seq<Share<char>>
    requires pos < |best|
  {
    if ranked == [] then []
    else
      var rest, last := CharacterShares(ranked[..|ranked| - 1], best, pos), ranked[|ranked| - 1];
      if |last.key| == |best| then rest + [Share(last.key[pos], last.weight)] else rest
  }

  /** The probabilities of the decodes that read the plate. */
  function Support(valid: seq<Decoded>, best: string): seq<real> {
    if valid == [] then []
    else
      var rest, last := Support(valid[..|valid| - 1], best), valid[|valid| - 1];
      if last.plate == best then rest + [last.probability] else rest
  }

  function Sum(s: seq<real>): real { if s == [] then 0.0 else Sum(s[..|s| - 1]) + s[|s| - 1] }

  /** The mean over all valid decodes, one that read another plate counting as zero. */
  function MeanSupport(support: seq<real>, decodes: nat): real
    requires support != [] && decodes > 0
  {
    Sum(support) / |support| as real * (|support| as real / decodes as real)
  }

  /** The first decode of the highest probability. */
  function Anchor(valid: seq<Decoded>): (r: Decoded)
    requires valid != []
    ensures r in valid && forall i :: 0 <= i < |valid| ==> valid[i].probability <= r.probability
  {
    if |valid| == 1 then valid[0]
    else
      var before, last := Anchor(valid[..|valid| - 1]), valid[|valid| - 1];
      if last.probability > before.probability then last else before
  }

  predicate Votes(r: Decoded) { r.valid && r.alternatives != [] }

  function Valid(results: seq<Decoded>): (valid: seq<Decoded>)
    ensures forall i :: 0 <= i < |valid| ==> Votes(valid[i]) && valid[i] in results
  {
    if results == [] then []
    else
      var rest, last := Valid(results[..|results| - 1]), results[|results| - 1];
      if Votes(last) then rest + [last] else rest
  }

  function Alternatives(ranked: seq<Ballot>): seq<Decoder.Alternative> {
    var listed := Take(ranked, MAX_ALTERNATIVES);
    seq(|listed|, i requires 0 <= i < |listed| => Decoder.Alternative(listed[i].key, Round4(listed[i].weight)))
  }

  ghost predicate IsMerged(valid: seq<Decoded>, r: Decoded) {
    var ranked := Standings(valid);
    && ranked != [] && valid != [] && r.valid && r.plate == ranked[0].key
    && r.raw == Anchor(valid).raw && r.rawConfidence == Anchor(valid).rawConfidence
    && r.probability == MergedProbability(valid, ranked)
    && |r.charConfidences| == |r.positions| == |r.plate|
    && (forall pos :: 0 <= pos < |r.plate| ==> PositionMerged(ranked, r, pos))
    && r.alternatives == Alternatives(ranked)
  }

  function MergedProbability(valid: seq<Decoded>, ranked: seq<Ballot>): real
    requires valid != [] && ranked != []
  {
    var support := Support(valid, ranked[0].key);
    if support != [] then MeanSupport(support, |valid|) else ranked[0].weight
  }

  ghost predicate PositionMerged(ranked: seq<Ballot>, r: Decoded, pos: nat)
    requires pos < |r.plate| == |r.charConfidences| == |r.positions|
  {
    var shares := CharacterShares(ranked, r.plate, pos);
    r.charConfidences[pos] == VotesFor(shares, r.plate[pos]) && r.positions[pos] == TopChoices(shares)
  }

  /** No valid decode, one, or several: the first result, the only valid one, or the merged one. */
  ghost predicate IsMergeOf(results: seq<Decoded>, merged: Option<Decoded>) {
    var valid := Valid(results);
    if |valid| == 0 then merged == (if results == [] then None else Some(results[0]))
    else if |valid| == 1 then merged == Some(valid[0])
    else merged.Some? && IsMerged(valid, merged.value)
  }

  /** `mergeDecodes`. */
  method MergeDecodes(results: seq<Decoded>) returns (merged: Option<Decoded>)
    ensures IsMergeOf(results, merged)
  {
    var valid := Valid(results);
    if valid == [] { return if results == [] then None else Some(results[0]); }
    if |valid| == 1 { return Some(valid[0]); }
    var pool := PoolVotes(valid);
    var ranked := Rank(Normalised(pool));
    StandingsNotEmpty(valid);
    var r := MergeRanked(valid, ranked);
    merged := Some(r);
  }

  /** The merged result, read off the standings. */
  method MergeRanked(valid: seq<Decoded>, ranked: seq<Ballot>) returns (r: Decoded)
    requires valid != [] && ranked == Standings(valid) && ranked != []
    ensures IsMerged(valid, r)
  {
    var best := ranked[0].key;
    var confidences, positions := ReadPositions(ranked, best);
    r := Decoder.Decoded(best, MergedProbability(valid, ranked), confidences, positions, Alternatives(ranked),
                         Anchor(valid).raw, Anchor(valid).rawConfidence, true);
  }

  method ReadPositions(ranked: seq<Ballot>, best: string) returns (confidences: seq<real>, positions: seq<seq<Choice>>)
    ensures |confidences| == |positions| == |best|
    ensures forall k :: 0 <= k < |best| ==>
      confidences[k] == VotesFor(CharacterShares(ranked, best, k), best[k])
      && positions[k] == TopChoices(CharacterShares(ranked, best, k))
  {
    confidences, positions := [], [];
    for pos := 0 to |best|
      invariant |confidences| == |positions| == pos
      invariant forall k :: 0 <= k < pos ==>
        confidences[k] == VotesFor(CharacterShares(ranked, best, k), best[k])
        && positions[k] == TopChoices(CharacterShares(ranked, best, k))
    {
      var confidence, choices := ReadPosition(ranked, best, pos);
      confidences, positions := confidences + [confidence], positions + [choices];
    }
  }

  /** One position: the weight that agrees with the best plate, and the heaviest characters. */
  method ReadPosition(ranked: seq<Ballot>, best: string, pos: nat) returns (confidence: real, choices: seq<Choice>)
    requires pos < |best|
    ensures confidence == VotesFor(CharacterShares(ranked, best, pos), best[pos])
    ensures choices == TopChoices(CharacterShares(ranked, best, pos))
  {
    var dist: seq<Share<char>> := [];
    for i := 0 to |ranked|
      invariant dist == Pool(CharacterShares(ranked[..i], best, pos))
    {
      var before := CharacterShares(ranked[..i], best, pos);
      assert ranked[..i + 1][..i] == ranked[..i];
      if |ranked[i].key| == |best| {
        var vote := Share(ranked[i].key[pos], ranked[i].weight);
        assert (before + [vote])[..|before|] == before;
        dist := Cast(dist, vote);
      }
    }
    assert ranked[..|ranked|] == ranked;
    PoolCounts(CharacterShares(ranked, best, pos), best[pos]);
    confidence := Held(dist, best[pos]);
    choices := Rounded(Take(Rank(dist), TOP_CHOICES));
  }

  /** The two loops that pool the votes. */
  method PoolVotes(valid: seq<Decoded>) returns (pool: seq<Ballot>)
    ensures pool == Pool(Ballots(valid))
  {
    pool := [];
    for k := 0 to |valid|
      invariant pool == Pool(Ballots(valid[..k]))
    {
      pool := PoolOne(valid, k, pool);
    }
    assert valid[..|valid|] == valid;
  }

  method PoolOne(valid: seq<Decoded>, k: nat, start: seq<Ballot>) returns (pool: seq<Ballot>)
    requires k < |valid| && start == Pool(Ballots(valid[..k]))
    ensures pool == Pool(Ballots(valid[..k + 1]))
  {
    pool := start;
    var r := valid[k];
    ghost var before, ballots := Ballots(valid[..k]), BallotsOf(r);
    assert before + ballots[..0] == before;
    for i := 0 to |r.alternatives|
      invariant pool == Pool(before + ballots[..i])
    {
      PoolSnoc(before, ballots, i);
      pool := Cast(pool, Share(r.alternatives[i].plate, Vote(r.alternatives[i].p, r.probability)));
    }
    assert ballots[..|ballots|] == ballots;
    assert valid[..k + 1][..k] == valid[..k];
  }

  lemma PoolSnoc(before: seq<Ballot>, ballots: seq<Ballot>, i: nat)
    requires i < |ballots|
    ensures Pool(before + ballots[..i + 1]) == Cast(Pool(before + ballots[..i]), ballots[i])
  {
    assert (before + ballots[..i + 1])[..|before| + i] == before + ballots[..i];
  }

  lemma BallotsNotEmpty(valid: seq<Decoded>)
    requires valid != [] && forall i :: 0 <= i < |valid| ==> valid[i].alternatives != []
    ensures Ballots(valid) != []
  {
    assert BallotsOf(valid[|valid| - 1]) != [];
  }

  lemma StandingsNotEmpty(valid: seq<Decoded>)
    requires valid != [] && forall i :: 0 <= i < |valid| ==> valid[i].alternatives != []
    ensures Standings(valid) != []
  {
    var ballots := Ballots(valid);
    BallotsNotEmpty(valid);
    PoolCounts(ballots, ballots[0].key);
    assert Holds(ballots, ballots[0].key);
    RankKeeps(Normalised(Pool(ballots)));
  }

  // ---------------------------------------------------------------- the winner

  lemma PortionMonotone(a: real, b: real, total: real)
    requires 0.0 <= total
    ensures a <= b <==> Portion(a, total) <= Portion(b, total)
    ensures 0.0 <= a ==> Portion(a, total) >= 0.0
  {
  }

  /** The first of the standings is a pooled plate, and no pooled plate has more votes. */
  lemma HeadOfStandings(ballots: seq<Ballot>, i: nat)
    requires NonNegative(ballots) && i < |Pool(ballots)|
    ensures var pool, ranked := Pool(ballots), Rank(Normalised(Pool(ballots)));
      ranked != [] && Holds(pool, ranked[0].key) && pool[i].weight <= Held(pool, ranked[0].key)
  {
    var pool := Pool(ballots);
    PoolDistinct(ballots);
    PoolNonNegative(ballots);
    TotalAbove(pool);
    RankKeeps(Normalised(pool));
    var best := Rank(Normalised(pool))[0];
    assert best in Normalised(pool) && Normalised(pool)[i] in Rank(Normalised(pool));
    var b :| 0 <= b < |pool| && Normalised(pool)[b] == best;
    HeldAt(pool, b);
    PortionMonotone(pool[i].weight, pool[b].weight, Total(pool));
  }

  /** The winner has the most votes of all plates. */
  lemma MostVotesWin(valid: seq<Decoded>, r: Decoded, plate: string)
    requires IsMerged(valid, r) && NonNegative(Ballots(valid))
    ensures VotesFor(Ballots(valid), plate) <= VotesFor(Ballots(valid), r.plate)
    ensures Holds(Ballots(valid), r.plate)
  {
    var ballots, pool := Ballots(valid), Pool(Ballots(valid));
    PoolCounts(ballots, plate);
    PoolCounts(ballots, r.plate);
    RankKeeps(Normalised(pool));
    HeadOfStandings(ballots, 0);
    if Holds(pool, plate) {
      var i :| 0 <= i < |pool| && pool[i].key == plate;
      HeldAt(pool, i);
      HeadOfStandings(ballots, i);
    } else {
      NotHeld(pool, plate);
      PoolNonNegative(ballots);
    }
  }

  lemma {:induction false} CharacterSharesBounds(ranked: seq<Ballot>, best: string, pos: nat, c: char)
    requires NonNegative(ranked) && pos < |best|
    ensures 0.0 <= VotesFor(CharacterShares(ranked, best, pos), c) <= Total(ranked)
    ensures forall i :: 0 <= i < |ranked| && ranked[i].key == best && best[pos] == c ==>
      ranked[i].weight <= VotesFor(CharacterShares(ranked, best, pos), c)
  {
    if ranked != [] {
      var init, last := ranked[..|ranked| - 1], ranked[|ranked| - 1];
      CharacterSharesBounds(init, best, pos, c);
      var rest := CharacterShares(init, best, pos);
      if |last.key| == |best| { assert (rest + [Share(last.key[pos], last.weight)])[..|rest|] == rest; }
    }
  }

  lemma {:induction false} NormalisedTotal(pool: seq<Ballot>, shares: seq<Ballot>, total: real)
    requires |shares| == |pool| && total != 0.0
    requires forall i :: 0 <= i < |pool| ==> shares[i].weight == Portion(pool[i].weight, total)
    ensures Total(shares) == Portion(Total(pool), total)
  {
    if pool != [] { NormalisedTotal(pool[..|pool| - 1], shares[..|pool| - 1], total); }
  }

  lemma StandingsBounds(valid: seq<Decoded>)
    requires NonNegative(Ballots(valid))
    ensures NonNegative(Standings(valid)) && Total(Standings(valid)) <= 1.0
  {
    var pool, ranked := Pool(Ballots(valid)), Standings(valid);
    PoolNonNegative(Ballots(valid));
    NormalisedBounds(pool);
    RankKeeps(Normalised(pool));
    forall i | 0 <= i < |ranked| ensures ranked[i].weight >= 0.0 { assert ranked[i] in Normalised(pool); }
  }

  lemma NormalisedBounds(pool: seq<Ballot>)
    requires NonNegative(pool)
    ensures (forall s :: s in Normalised(pool) ==> s.weight >= 0.0) && Total(Normalised(pool)) <= 1.0
  {
    TotalAbove(pool);
    if Total(pool) == 0.0 {
      AllZero(pool, Normalised(pool));
    } else {
      NormalisedTotal(pool, Normalised(pool), Total(pool));
      SelfPortion(Total(pool));
    }
  }

  lemma SelfPortion(total: real)
    requires total > 0.0
    ensures Portion(total, total) == 1.0
  {
  }

  lemma {:induction false} AllZero(pool: seq<Ballot>, shares: seq<Ballot>)
    requires |shares| == |pool| && forall i :: 0 <= i < |pool| ==> shares[i].weight == pool[i].weight
    ensures Total(shares) == Total(pool)
  {
    if pool != [] { AllZero(pool[..|pool| - 1], shares[..|pool| - 1]); }
  }

  /** Each character's confidence lies between the winner's share of the votes and one. */
  lemma ConfidencesInRange(valid: seq<Decoded>, r: Decoded, pos: nat)
    requires IsMerged(valid, r) && NonNegative(Ballots(valid)) && pos < |r.plate|
    ensures 0.0 <= Standings(valid)[0].weight <= r.charConfidences[pos] <= 1.0
  {
    assert PositionMerged(Standings(valid), r, pos);
    StandingsBounds(valid);
    CharacterSharesBounds(Standings(valid), r.plate, pos, r.plate[pos]);
  }

  /** The merged probability of a supported plate is the mean over all valid decodes, so in range when theirs are. */
  lemma MeanSupportIs(support: seq<real>, decodes: nat)
    requires 0 < |support| <= decodes && forall i :: 0 <= i < |support| ==> 0.0 <= support[i] <= 1.0
    ensures MeanSupport(support, decodes) == Sum(support) / decodes as real
    ensures 0.0 <= MeanSupport(support, decodes) <= 1.0
  {
    SumBounds(support);
    CancelCount(Sum(support), |support| as real, decodes as real);
    FractionInRange(Sum(support), decodes as real);
  }

  lemma CancelCount(sum: real, n: real, d: real)
    requires n > 0.0 && d > 0.0
    ensures sum / n * (n / d) == sum / d
  {
    assert sum / n * n == sum;
    assert sum / n * (n / d) == sum / n * n / d;
  }

  lemma FractionInRange(part: real, whole: real)
    requires 0.0 <= part <= whole && whole > 0.0
    ensures 0.0 <= part / whole <= 1.0
  {
  }

  lemma {:induction false} SumBounds(s: seq<real>)
    requires forall i :: 0 <= i < |s| ==> 0.0 <= s[i] <= 1.0
    ensures 0.0 <= Sum(s) <= |s| as real
  {
    if s != [] { SumBounds(s[..|s| - 1]); }
  }

  lemma {:induction false} SupportInRange(valid: seq<Decoded>, best: string)
    requires forall i :: 0 <= i < |valid| ==> 0.0 <= valid[i].probability <= 1.0
    ensures |Support(valid, best)| <= |valid|
    ensures forall i :: 0 <= i < |Support(valid, best)| ==> 0.0 <= Support(valid, best)[i] <= 1.0
  {
    if valid != [] { SupportInRange(valid[..|valid| - 1], best); }
  }

  /** The merged probability is in range when those of the decodes are. */
  lemma ProbabilityInRange(valid: seq<Decoded>, r: Decoded)
    requires IsMerged(valid, r) && NonNegative(Ballots(valid))
    requires forall i :: 0 <= i < |valid| ==> 0.0 <= valid[i].probability <= 1.0
    ensures 0.0 <= r.probability <= 1.0
  {
    SupportInRange(valid, r.plate);
    if Support(valid, r.plate) != [] { MeanSupportIs(Support(valid, r.plate), |valid|); }
    StandingsBounds(valid);
    TotalAbove(Standings(valid));
  }

  // ---------------------------------------------------------------- from the decodes

  /** Probabilities that are not negative make votes that are not negative. */
  lemma {:induction false} BallotsNonNegative(valid: seq<Decoded>)
    requires forall i, k :: 0 <= i < |valid| && 0 <= k < |valid[i].alternatives| ==> valid[i].alternatives[k].p >= 0.0
    ensures NonNegative(Ballots(valid))
  {
    if valid != [] {
      BallotsNonNegative(valid[..|valid| - 1]);
      var last := valid[|valid| - 1];
      forall k | 0 <= k < |last.alternatives| ensures BallotsOf(last)[k].weight >= 0.0 {}
    }
  }

  ghost predicate AllPlates(shares: seq<Ballot>, good: string -> bool) {
    forall i :: 0 <= i < |shares| ==> good(shares[i].key)
  }

  lemma {:induction false} BallotPlates(valid: seq<Decoded>, good: string -> bool)
    requires forall i, k :: 0 <= i < |valid| && 0 <= k < |valid[i].alternatives| ==>
      good(valid[i].alternatives[k].plate)
    ensures AllPlates(Ballots(valid), good)
  {
    if valid != [] { BallotPlates(valid[..|valid| - 1], good); }
  }

  /** The winner is a plate someone read: whatever holds of every alternative's plate holds of it. */
  lemma WinnerIsRead(valid: seq<Decoded>, r: Decoded, good: string -> bool)
    requires IsMerged(valid, r) && NonNegative(Ballots(valid))
    requires forall i, k :: 0 <= i < |valid| && 0 <= k < |valid[i].alternatives| ==>
      good(valid[i].alternatives[k].plate)
    ensures good(r.plate)
  {
    BallotPlates(valid, good);
    MostVotesWin(valid, r, r.plate);
  }

  // ---------------------------------------------------------------- end to end

  /** A result of the beam search, for whatever labels, rows and settings. */
  ghost predicate FromSearch(r: Decoded) {
    exists labels, rows, prune, width, nbest :: Decoder.IsSearchResult(labels, rows, prune, width, nbest, r)
  }

  /** What a caller relies on: a canonical plate, with probability and confidences in range. */
  ghost predicate Presentable(r: Decoded) {
    && PlateGrammar.IsStandard(r.plate)
    && PlateGrammar.Normalize(r.plate).Valid? && PlateGrammar.Normalize(r.plate).plate == r.plate
    && 0.0 <= r.probability <= 1.0 && |r.charConfidences| == |r.plate|
    && forall pos :: 0 <= pos < |r.charConfidences| ==> 0.0 <= r.charConfidences[pos] <= 1.0
  }

  lemma SearchIsPresentable(r: Decoded)
    requires r.valid
    ensures FromSearch(r) ==> Presentable(r) && Usable(r)
  {
    if FromSearch(r) {
      var labels, rows, prune, width, nbest :| Decoder.IsSearchResult(labels, rows, prune, width, nbest, r);
      Decoder.DecodedIsCanonical(labels, rows, prune, width, nbest, r);
      Decoder.AlternativesAreStandard(labels, rows, prune, width, nbest, r);
    }
  }

  /** What the merge relies on in a decode. */
  ghost predicate Usable(r: Decoded) { 0.0 <= r.probability <= 1.0 && Decoder.AreAlternatives(r.alternatives) }

  ghost predicate AllUsable(valid: seq<Decoded>) { forall i :: 0 <= i < |valid| ==> Usable(valid[i]) }

  ghost predicate AllFromSearch(results: seq<Decoded>) {
    forall i :: 0 <= i < |results| && results[i].valid ==> FromSearch(results[i])
  }

  lemma ValidAreUsable(results: seq<Decoded>)
    ensures AllFromSearch(results) ==> AllUsable(Valid(results))
  {
    var valid := Valid(results);
    forall i | AllFromSearch(results) && 0 <= i < |valid| ensures Usable(valid[i]) {
      var n :| 0 <= n < |results| && results[n] == valid[i];
      SearchIsPresentable(valid[i]);
    }
  }

  /** Whatever variants are merged, a valid result is presentable when the decodes come from the search. */
  lemma MergedIsPresentable(results: seq<Decoded>, merged: Option<Decoded>)
    requires IsMergeOf(results, merged)
    ensures AllFromSearch(results) && merged.Some? && merged.value.valid ==> Presentable(merged.value)
  {
    ValidAreUsable(results);
    if AllFromSearch(results) && merged.Some? && merged.value.valid {
      if |Valid(results)| > 1 {
        SeveralArePresentable(Valid(results), merged.value);
      } else {
        var n :| 0 <= n < |results| && results[n] == merged.value;
        SearchIsPresentable(results[n]);
      }
    }
  }

  lemma SeveralArePresentable(valid: seq<Decoded>, r: Decoded)
    requires IsMerged(valid, r) && AllUsable(valid)
    ensures Presentable(r)
  {
    BallotsNonNegative(valid);
    WinnerIsRead(valid, r, PlateGrammar.IsStandard);
    PlateGrammar.CanonicalIsFixed(r.plate);
    ProbabilityInRange(valid, r);
    forall pos | 0 <= pos < |r.charConfidences| ensures 0.0 <= r.charConfidences[pos] <= 1.0 {
      ConfidencesInRange(valid, r, pos);
    }
  }
}
