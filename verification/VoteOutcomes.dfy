/**
 * The ensemble's verdict spelt out: how much each plate gets from each decode, and how likely the winner is.
 */
module VoteOutcomes {
  import opened EnsembleVote
  import opened Options
  import opened Tally

  /** What one decode gives a plate: the chances of the alternatives that read it, times the decode's own, which
      counts as one in a million at least. */
  ghost function Gives(r: Decoded, plate: string): real {
    GivesUpTo(r, plate, |r.alternatives|)
  }

  ghost function GivesUpTo(r: Decoded, plate: string, n: nat): real
    requires n <= |r.alternatives|
  {
    if n == 0 then 0.0
    else
      var a, own := r.alternatives[n - 1], if r.probability > 0.000001 then r.probability else 0.000001;
      GivesUpTo(r, plate, n - 1) + if a.plate == plate then a.p * own else 0.0
  }

  /** What a plate gets from all the decodes that are valid and list an alternative. */
  ghost function Gets(results: seq<Decoded>, plate: string): real {
    if results == [] then 0.0
    else
      var last := results[|results| - 1];
      Gets(results[..|results| - 1], plate) + if last.valid && |last.alternatives| > 0 then Gives(last, plate) else 0.0
  }

  lemma {:induction false} VotesConcat(a: seq<Ballot>, b: seq<Ballot>, plate: string)
    ensures VotesFor(a + b, plate) == VotesFor(a, plate) + VotesFor(b, plate)
  {
    if b == [] {
      assert a + b == a;
    } else {
      assert (a + b)[..|a + b| - 1] == a + b[..|b| - 1];
      VotesConcat(a, b[..|b| - 1], plate);
    }
  }

  lemma {:induction false} GivesIs(r: Decoded, plate: string, n: nat)
    requires n <= |r.alternatives|
    ensures VotesFor(BallotsOf(r)[..n], plate) == GivesUpTo(r, plate, n)
  {
    if n > 0 {
      GivesIs(r, plate, n - 1);
      var ballots := BallotsOf(r);
      assert ballots[..n][..n - 1] == ballots[..n - 1] && ballots[..n][n - 1] == ballots[n - 1];
      VoteIs(r, n - 1);
    }
  }

  lemma VoteIs(r: Decoded, i: nat)
    requires i < |r.alternatives|
    ensures BallotsOf(r)[i].key == r.alternatives[i].plate
    ensures BallotsOf(r)[i].weight
      == r.alternatives[i].p * if r.probability > 0.000001 then r.probability else 0.000001
  {
  }

  lemma BallotsSnoc(valid: seq<Decoded>, last: Decoded)
    ensures Ballots(valid + [last]) == Ballots(valid) + BallotsOf(last)
  {
    assert (valid + [last])[..|valid|] == valid;
  }

  lemma GivesAll(r: Decoded, plate: string)
    ensures VotesFor(BallotsOf(r), plate) == Gives(r, plate)
  {
    GivesIs(r, plate, |r.alternatives|);
    assert BallotsOf(r)[..|r.alternatives|] == BallotsOf(r);
  }

  /** The votes that are pooled are what the plates get. */
  lemma {:induction false} GetsVotes(results: seq<Decoded>, plate: string)
    ensures VotesFor(Ballots(Valid(results)), plate) == Gets(results, plate)
  {
    if results != [] {
      var init, last := results[..|results| - 1], results[|results| - 1];
      GetsVotes(init, plate);
      if last.valid && |last.alternatives| > 0 {
        BallotsSnoc(Valid(init), last);
        VotesConcat(Ballots(Valid(init)), BallotsOf(last), plate);
        GivesAll(last, plate);
      }
    }
  }

  /** How many decodes count. */
  function CountValid(results: seq<Decoded>): nat {
    if results == [] then 0
    else
      var last := results[|results| - 1];
      CountValid(results[..|results| - 1]) + if last.valid && |last.alternatives| > 0 then 1 else 0
  }

  /** The probabilities of those of them that read the plate. */
  function SumReading(results: seq<Decoded>, plate: string): real {
    if results == [] then 0.0
    else
      var last := results[|results| - 1];
      SumReading(results[..|results| - 1], plate)
      + if last.valid && |last.alternatives| > 0 && last.plate == plate then last.probability else 0.0
  }

  predicate IsReadBy(results: seq<Decoded>, plate: string) {
    exists i :: 0 <= i < |results| && results[i].valid && |results[i].alternatives| > 0 && results[i].plate == plate
  }

  lemma {:induction false} ValidCounts(results: seq<Decoded>)
    ensures |Valid(results)| == CountValid(results)
  {
    if results != [] { ValidCounts(results[..|results| - 1]); }
  }

  lemma SupportSnoc(valid: seq<Decoded>, last: Decoded, plate: string)
    ensures Support(valid + [last], plate)
      == Support(valid, plate) + if last.plate == plate then [last.probability] else []
  {
    assert (valid + [last])[..|valid|] == valid;
  }

  lemma SumSnoc(s: seq<real>, last: real)
    ensures Sum(s + [last]) == Sum(s) + last
  {
    assert (s + [last])[..|s|] == s;
  }

  ghost predicate Supports(results: seq<Decoded>, plate: string, support: seq<real>) {
    && Sum(support) == SumReading(results, plate) && |support| <= CountValid(results)
    && (support != [] <==> IsReadBy(results, plate))
  }

  lemma {:induction false} SupportIs(results: seq<Decoded>, plate: string)
    ensures Supports(results, plate, Support(Valid(results), plate))
  {
    if results != [] {
      var init, last := results[..|results| - 1], results[|results| - 1];
      SupportIs(init, plate);
      SupportStep(init, last, plate);
      assert results == init + [last];
    }
  }

  lemma CountsSnoc(init: seq<Decoded>, last: Decoded, plate: string)
    ensures var counts := last.valid && |last.alternatives| > 0;
      && CountValid(init + [last]) == CountValid(init) + (if counts then 1 else 0)
      && SumReading(init + [last], plate)
         == SumReading(init, plate) + (if counts && last.plate == plate then last.probability else 0.0)
      && Valid(init + [last]) == if counts then Valid(init) + [last] else Valid(init)
  {
    assert (init + [last])[..|init|] == init;
  }

  lemma SupportStep(init: seq<Decoded>, last: Decoded, plate: string)
    requires Supports(init, plate, Support(Valid(init), plate))
    ensures Supports(init + [last], plate, Support(Valid(init + [last]), plate))
  {
    CountsSnoc(init, last, plate);
    ReadBySnoc(init, last, plate);
    SupportSnoc(Valid(init), last, plate);
    SumSnoc(Support(Valid(init), plate), last.probability);
    assert Support(Valid(init), plate) + [] == Support(Valid(init), plate);
  }

  lemma ReadBySnoc(init: seq<Decoded>, last: Decoded, plate: string)
    ensures IsReadBy(init + [last], plate) <==>
      IsReadBy(init, plate) || (last.valid && |last.alternatives| > 0 && last.plate == plate)
  {
    var all := init + [last];
    if IsReadBy(init, plate) {
      var i :| 0 <= i < |init| && init[i].valid && |init[i].alternatives| > 0 && init[i].plate == plate;
      assert all[i] == init[i];
    }
    assert all[|init|] == last;
  }

  /** Of two decodes or more that count, the plate that gets most wins; and if one of them read it, it is as likely as
      they make it together, divided by how many there are. */
  lemma VerdictIs(results: seq<Decoded>, merged: Option<Decoded>, plate: string)
    requires IsMergeOf(results, merged) && CountValid(results) >= 2
    requires forall i, k :: 0 <= i < |results| && 0 <= k < |results[i].alternatives| ==>
      results[i].alternatives[k].p >= 0.0
    ensures merged.Some? && merged.value.valid
    ensures var winner := merged.value.plate;
      && Gets(results, plate) <= Gets(results, winner)
      && (IsReadBy(results, winner) ==>
            merged.value.probability == SumReading(results, winner) / CountValid(results) as real)
  {
    ValidCounts(results);
    var valid, r := Valid(results), merged.value;
    BallotsNonNegative(valid);
    MostVotesWin(valid, r, plate);
    GetsVotes(results, plate);
    GetsVotes(results, r.plate);
    SupportIs(results, r.plate);
    if IsReadBy(results, r.plate) { MeanIs(Support(valid, r.plate), |valid|); }
  }

  lemma MeanIs(support: seq<real>, decodes: nat)
    requires 0 < |support| <= decodes
    ensures MeanSupport(support, decodes) == Sum(support) / decodes as real
  {
    CancelCount(Sum(support), |support| as real, decodes as real);
  }

  /** With one that counts it is the result, and with none the first decode is, if there is any. */
  lemma FewDecodes(results: seq<Decoded>, merged: Option<Decoded>)
    requires IsMergeOf(results, merged)
    ensures results == [] ==> merged == None
    ensures results != [] && CountValid(results) == 0 ==> merged == Some(results[0])
    ensures CountValid(results) == 1 ==>
              merged.Some? && merged.value in results && merged.value.valid && |merged.value.alternatives| > 0
  {
    ValidCounts(results);
  }

  // ---------------------------------------------------------------- shares of the votes

  /** The weight of the shares whose key is of a kind. */
  ghost function SumOf(shares: seq<Ballot>, kind: string -> bool): real {
    if shares == [] then 0.0
    else
      SumOf(shares[1..], kind) + if kind(shares[0].key) then shares[0].weight else 0.0
  }

  lemma {:induction false} SumConcat(a: seq<Ballot>, b: seq<Ballot>, kind: string -> bool)
    ensures SumOf(a + b, kind) == SumOf(a, kind) + SumOf(b, kind)
  {
    if a == [] {
      assert a + b == b;
    } else {
      assert (a + b)[1..] == a[1..] + b;
      SumConcat(a[1..], b, kind);
    }
  }

  lemma {:induction false} CastSum(pool: seq<Ballot>, vote: Ballot, kind: string -> bool)
    ensures SumOf(Cast(pool, vote), kind) == SumOf(pool, kind) + if kind(vote.key) then vote.weight else 0.0
  {
    if pool == [] {
      assert [vote][1..] == [];
    } else if pool[0].key == vote.key {
      var cast := [Share(vote.key, pool[0].weight + vote.weight)] + pool[1..];
      assert cast[1..] == pool[1..];
    } else {
      CastSum(pool[1..], vote, kind);
      assert ([pool[0]] + Cast(pool[1..], vote))[1..] == Cast(pool[1..], vote);
    }
  }

  lemma SumOfOne(vote: Ballot, kind: string -> bool)
    ensures SumOf([vote], kind) == if kind(vote.key) then vote.weight else 0.0
  {
    assert [vote][1..] == [];
  }

  lemma {:induction false} PoolSum(ballots: seq<Ballot>, kind: string -> bool)
    ensures SumOf(Pool(ballots), kind) == SumOf(ballots, kind)
  {
    if ballots != [] {
      var n := |ballots| - 1;
      PoolSum(ballots[..n], kind);
      CastSum(Pool(ballots[..n]), ballots[n], kind);
      SumConcat(ballots[..n], [ballots[n]], kind);
      SumOfOne(ballots[n], kind);
      assert ballots == ballots[..n] + [ballots[n]];
    }
  }

  lemma {:induction false} InsertSum(sorted: seq<Ballot>, s: Ballot, kind: string -> bool)
    ensures SumOf(Insert(sorted, s), kind) == SumOf(sorted, kind) + if kind(s.key) then s.weight else 0.0
  {
    if sorted == [] || sorted[0].weight < s.weight {
      assert ([s] + sorted)[1..] == sorted;
    } else {
      InsertSum(sorted[1..], s, kind);
      assert ([sorted[0]] + Insert(sorted[1..], s))[1..] == Insert(sorted[1..], s);
    }
  }

  lemma {:induction false} RankSum(shares: seq<Ballot>, kind: string -> bool)
    ensures SumOf(Rank(shares), kind) == SumOf(shares, kind)
  {
    if shares != [] {
      var n := |shares| - 1;
      RankSum(shares[..n], kind);
      InsertSum(Rank(shares[..n]), shares[n], kind);
      SumConcat(shares[..n], [shares[n]], kind);
      SumOfOne(shares[n], kind);
      assert shares == shares[..n] + [shares[n]];
    }
  }

  /** A part of a whole that is not nothing. */
  ghost function PartOf(part: real, whole: real): real { if whole == 0.0 then part else part / whole }

  lemma PartsAdd(a: real, b: real, whole: real)
    ensures PartOf(a, whole) + PartOf(b, whole) == PartOf(a + b, whole) && PartOf(0.0, whole) == 0.0
  {
  }

  lemma {:induction false} DividedSum(pool: seq<Ballot>, shares: seq<Ballot>, whole: real, kind: string -> bool)
    requires |shares| == |pool|
    requires forall i :: 0 <= i < |pool| ==>
      shares[i].key == pool[i].key && shares[i].weight == PartOf(pool[i].weight, whole)
    ensures SumOf(shares, kind) == PartOf(SumOf(pool, kind), whole)
  {
    PartsAdd(0.0, 0.0, whole);
    if pool != [] {
      DividedSum(pool[1..], shares[1..], whole, kind);
      PartsAdd(SumOf(pool[1..], kind), pool[0].weight, whole);
    }
  }

  lemma {:induction false} TotalIsSum(shares: seq<Ballot>)
    ensures Total(shares) == SumOf(shares, _ => true)
  {
    if shares != [] {
      var n := |shares| - 1;
      TotalIsSum(shares[..n]);
      SumConcat(shares[..n], [shares[n]], _ => true);
      SumOfOne(shares[n], _ => true);
      assert shares == shares[..n] + [shares[n]];
    }
  }

  lemma StandingsSum(valid: seq<Decoded>, kind: string -> bool)
    ensures SumOf(Standings(valid), kind) == PartOf(SumOf(Ballots(valid), kind), SumOf(Ballots(valid), _ => true))
  {
    var pool := Pool(Ballots(valid));
    TotalIsSum(pool);
    PoolSum(Ballots(valid), _ => true);
    PoolSum(Ballots(valid), kind);
    DividedSum(pool, Normalised(pool), Total(pool), kind);
    RankSum(Normalised(pool), kind);
  }

  /** Plates of the winner's length with the character at the position. */
  ghost function HasAt(best: string, pos: nat, c: char): string -> bool {
    plate => |plate| == |best| && pos < |plate| && plate[pos] == c
  }

  lemma {:induction false} CharactersSum(ranked: seq<Ballot>, best: string, pos: nat, c: char)
    requires pos < |best|
    ensures VotesFor(CharacterShares(ranked, best, pos), c) == SumOf(ranked, HasAt(best, pos, c))
  {
    if ranked != [] {
      var n := |ranked| - 1;
      var init, last := ranked[..n], ranked[n];
      CharactersSum(init, best, pos, c);
      SumConcat(init, [last], HasAt(best, pos, c));
      SumOfOne(last, HasAt(best, pos, c));
      assert ranked == init + [last];
      if |last.key| == |best| {
        var rest := CharacterShares(init, best, pos);
        assert (rest + [Share(last.key[pos], last.weight)])[..|rest|] == rest;
      }
    }
  }

  /** A character of the merged plate is as sure as the part of all the votes that goes to plates with it there. */
  lemma CharactersAre(valid: seq<Decoded>, r: Decoded, pos: nat)
    requires IsMerged(valid, r) && pos < |r.plate|
    ensures r.charConfidences[pos]
      == PartOf(SumOf(Ballots(valid), HasAt(r.plate, pos, r.plate[pos])), SumOf(Ballots(valid), _ => true))
  {
    assert PositionMerged(Standings(valid), r, pos);
    CharactersSum(Standings(valid), r.plate, pos, r.plate[pos]);
    StandingsSum(valid, HasAt(r.plate, pos, r.plate[pos]));
  }

  lemma RoundedWithin(x: real)
    ensures x - 0.00005 < Round4(x) <= x + 0.00005
  {
  }

  /** The merged alternatives are the first five of the standings, with their parts to four decimals. */
  lemma AlternativesAre(valid: seq<Decoded>, r: Decoded, i: nat)
    requires IsMerged(valid, r)
    ensures var ranked := Standings(valid);
      && |r.alternatives| == (if |ranked| < 5 then |ranked| else 5)
      && (i < |r.alternatives| ==>
            r.alternatives[i].plate == ranked[i].key
            && ranked[i].weight - 0.00005 < r.alternatives[i].p <= ranked[i].weight + 0.00005)
  {
    if i < |r.alternatives| { RoundedWithin(Standings(valid)[i].weight); }
  }
}
