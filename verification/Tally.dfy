/**
 * Weights tallied by key, as a `Map` in insertion order does, and ranked by a stable descending sort.
 */
module Tally {

  datatype Share<K> = Share(key: K, weight: real)

  /** A reading of one position with its probability. */
  datatype Choice = Choice(c: char, p: real)

  const TOP_CHOICES: nat := 3

  function Take<T>(s: seq<T>, n: nat): seq<T> {
    if n <= |s| then s[..n] else s
  }

  /** Rounding to four decimals. */
  function Round4(x: real): real { (x * 10_000.0 + 0.5).Floor as real / 10_000.0 }

  /** The weight given to one key. */
  function VotesFor<K(==)>(ballots: seq<Share<K>>, key: K): real {
    if ballots == [] then 0.0
    else
      var last := ballots[|ballots| - 1];
      VotesFor(ballots[..|ballots| - 1], key) + if last.key == key then last.weight else 0.0
  }

  function Total<K>(shares: seq<Share<K>>): real {
    if |shares| == 0 then 0.0 else Total(shares[..|shares| - 1]) + shares[|shares| - 1].weight
  }

  /** One weight into a `Map` in insertion order. */
  function Cast<K(==)>(pool: seq<Share<K>>, vote: Share<K>): seq<Share<K>> {
    if pool == [] then [vote]
    else if pool[0].key == vote.key then [Share(vote.key, pool[0].weight + vote.weight)] + pool[1..]
    else [pool[0]] + Cast(pool[1..], vote)
  }

  function Pool<K(==)>(ballots: seq<Share<K>>): seq<Share<K>> {
    if ballots == [] then [] else Cast(Pool(ballots[..|ballots| - 1]), ballots[|ballots| - 1])
  }

  function Insert<K>(sorted: seq<Share<K>>, s: Share<K>): seq<Share<K>> {
    if |sorted| == 0 || sorted[0].weight < s.weight then [s] + sorted else [sorted[0]] + Insert(sorted[1..], s)
  }

  /** A stable sort by descending weight. */
  function Rank<K>(shares: seq<Share<K>>): seq<Share<K>> {
    if |shares| == 0 then [] else Insert(Rank(shares[..|shares| - 1]), shares[|shares| - 1])
  }

  /** The three heaviest characters, with their weights rounded. */
  function TopChoices(shares: seq<Share<char>>): seq<Choice> {
    Rounded(Take(Rank(Pool(shares)), TOP_CHOICES))
  }

  function Rounded(shares: seq<Share<char>>): seq<Choice> {
    seq(|shares|, i requires 0 <= i < |shares| => Choice(shares[i].key, Round4(shares[i].weight)))
  }

  // ---------------------------------------------------------------- the pool counts the votes

  ghost predicate Distinct<K>(pool: seq<Share<K>>) {
    forall i, j :: 0 <= i < j < |pool| ==> pool[i].key != pool[j].key
  }

  /** The weight a pool has for a key; nothing for a key it does not hold. */
  function Held<K(==)>(pool: seq<Share<K>>, key: K): real {
    if pool == [] then 0.0 else if pool[0].key == key then pool[0].weight else Held(pool[1..], key)
  }

  ghost predicate Holds<K>(pool: seq<Share<K>>, key: K) {
    exists i :: 0 <= i < |pool| && pool[i].key == key
  }

  lemma {:induction false} CastHeld<K>(pool: seq<Share<K>>, vote: Share<K>, key: K)
    ensures Held(Cast(pool, vote), key) == Held(pool, key) + (if key == vote.key then vote.weight else 0.0)
  {
    if pool != [] && pool[0].key != vote.key { CastHeld(pool[1..], vote, key); }
  }

  lemma {:induction false} CastTotal<K>(pool: seq<Share<K>>, vote: Share<K>)
    ensures Total(Cast(pool, vote)) == Total(pool) + vote.weight
  {
    if pool == [] {
      TotalCons(vote, []);
      assert [vote] + [] == [vote];
    } else {
      assert [pool[0]] + pool[1..] == pool;
      TotalCons(pool[0], pool[1..]);
      if pool[0].key == vote.key {
        TotalCons(Share(vote.key, pool[0].weight + vote.weight), pool[1..]);
      } else {
        CastTotal(pool[1..], vote);
        TotalCons(pool[0], Cast(pool[1..], vote));
      }
    }
  }

  lemma {:induction false} CastHolds<K>(pool: seq<Share<K>>, vote: Share<K>, key: K)
    ensures Holds(Cast(pool, vote), key) <==> Holds(pool, key) || key == vote.key
  {
    if pool == [] {
      assert [vote][0].key == vote.key;
    } else {
      assert [pool[0]] + pool[1..] == pool;
      HoldsCons(pool[0], pool[1..], key);
      if pool[0].key == vote.key {
        HoldsCons(Share(vote.key, pool[0].weight + vote.weight), pool[1..], key);
      } else {
        CastHolds(pool[1..], vote, key);
        HoldsCons(pool[0], Cast(pool[1..], vote), key);
      }
    }
  }

  lemma {:induction false} CastDistinct<K>(pool: seq<Share<K>>, vote: Share<K>)
    requires Distinct(pool)
    ensures Distinct(Cast(pool, vote))
  {
    if pool != [] && pool[0].key != vote.key {
      CastDistinct(pool[1..], vote);
      CastHolds(pool[1..], vote, pool[0].key);
      var rest := Cast(pool[1..], vote);
      assert !Holds(pool[1..], pool[0].key);
      forall i | 0 <= i < |rest| ensures rest[i].key != pool[0].key {}
    }
  }

  lemma HoldsCons<K>(first: Share<K>, rest: seq<Share<K>>, key: K)
    ensures Holds([first] + rest, key) <==> Holds(rest, key) || first.key == key
  {
    var r := [first] + rest;
    if Holds(rest, key) {
      var i :| 0 <= i < |rest| && rest[i].key == key;
      assert r[i + 1].key == key;
    }
    if first.key == key { assert r[0].key == key; }
  }

  lemma {:induction false} TotalCons<K>(first: Share<K>, rest: seq<Share<K>>)
    ensures Total([first] + rest) == first.weight + Total(rest)
  {
    if rest == [] {
      assert [first] + rest == [first] && [first][..0] == [];
    } else {
      assert ([first] + rest)[..|rest|] == [first] + rest[..|rest| - 1];
      TotalCons(first, rest[..|rest| - 1]);
    }
  }

  lemma {:induction false} PoolHeld<K>(ballots: seq<Share<K>>, key: K)
    ensures Held(Pool(ballots), key) == VotesFor(ballots, key)
  {
    if ballots != [] {
      PoolHeld(ballots[..|ballots| - 1], key);
      CastHeld(Pool(ballots[..|ballots| - 1]), ballots[|ballots| - 1], key);
    }
  }

  lemma {:induction false} PoolDistinct<K>(ballots: seq<Share<K>>)
    ensures Distinct(Pool(ballots)) && Total(Pool(ballots)) == Total(ballots)
  {
    if ballots != [] {
      PoolDistinct(ballots[..|ballots| - 1]);
      CastDistinct(Pool(ballots[..|ballots| - 1]), ballots[|ballots| - 1]);
      CastTotal(Pool(ballots[..|ballots| - 1]), ballots[|ballots| - 1]);
    }
  }

  lemma HoldsSnoc<K>(init: seq<Share<K>>, last: Share<K>, key: K)
    ensures Holds(init + [last], key) <==> Holds(init, key) || last.key == key
  {
    var all := init + [last];
    if Holds(init, key) {
      var i :| 0 <= i < |init| && init[i].key == key;
      assert all[i].key == key;
    }
    if last.key == key { assert all[|init|].key == key; }
  }

  lemma {:induction false} PoolHolds<K>(ballots: seq<Share<K>>, key: K)
    ensures Holds(Pool(ballots), key) <==> Holds(ballots, key)
  {
    if ballots != [] {
      var init, last := ballots[..|ballots| - 1], ballots[|ballots| - 1];
      PoolHolds(init, key);
      CastHolds(Pool(init), last, key);
      HoldsSnoc(init, last, key);
      assert ballots == init + [last];
    }
  }

  /** The pool holds every key voted for, once, with the votes for it. */
  lemma PoolCounts<K>(ballots: seq<Share<K>>, key: K)
    ensures Distinct(Pool(ballots)) && Total(Pool(ballots)) == Total(ballots)
    ensures Held(Pool(ballots), key) == VotesFor(ballots, key)
    ensures Holds(Pool(ballots), key) <==> Holds(ballots, key)
  {
    PoolDistinct(ballots);
    PoolHeld(ballots, key);
    PoolHolds(ballots, key);
  }

  lemma {:induction false} HeldAt<K>(pool: seq<Share<K>>, i: nat)
    requires Distinct(pool) && i < |pool|
    ensures Held(pool, pool[i].key) == pool[i].weight
  {
    if i > 0 { HeldAt(pool[1..], i - 1); }
  }

  ghost predicate Descending<K>(ranked: seq<Share<K>>) {
    forall i, j :: 0 <= i < j < |ranked| ==> ranked[i].weight >= ranked[j].weight
  }

  lemma {:induction false} InsertKeeps<K>(sorted: seq<Share<K>>, s: Share<K>)
    requires Descending(sorted)
    ensures var r := Insert(sorted, s);
      Descending(r) && |r| == |sorted| + 1 && forall x :: x in r <==> x in sorted || x == s
  {
    if sorted != [] && sorted[0].weight >= s.weight {
      InsertKeeps(sorted[1..], s);
      assert sorted == [sorted[0]] + sorted[1..];
      InsertBelow(sorted[1..], s, sorted[0].weight);
      Prepend(sorted[0], Insert(sorted[1..], s));
    }
  }

  lemma {:induction false} InsertTotal<K>(sorted: seq<Share<K>>, s: Share<K>)
    ensures Total(Insert(sorted, s)) == Total(sorted) + s.weight
  {
    if sorted == [] || sorted[0].weight < s.weight {
      TotalCons(s, sorted);
    } else {
      assert [sorted[0]] + sorted[1..] == sorted;
      InsertTotal(sorted[1..], s);
      TotalCons(sorted[0], sorted[1..]);
      TotalCons(sorted[0], Insert(sorted[1..], s));
    }
  }

  lemma Prepend<K>(first: Share<K>, rest: seq<Share<K>>)
    requires Descending(rest) && AllBelow(rest, first.weight)
    ensures Descending([first] + rest)
  {
  }

  ghost predicate AllBelow<K>(shares: seq<Share<K>>, bound: real) {
    forall i :: 0 <= i < |shares| ==> shares[i].weight <= bound
  }

  lemma {:induction false} InsertBelow<K>(sorted: seq<Share<K>>, s: Share<K>, bound: real)
    requires AllBelow(sorted, bound) && s.weight <= bound
    ensures AllBelow(Insert(sorted, s), bound)
  {
    if |sorted| > 0 && sorted[0].weight >= s.weight { InsertBelow(sorted[1..], s, bound); }
  }

  lemma {:induction false} RankKeeps<K>(shares: seq<Share<K>>)
    ensures var r := Rank(shares);
      Descending(r) && Total(r) == Total(shares) && |r| == |shares| && forall x :: x in r <==> x in shares
  {
    if shares != [] {
      var init, last := shares[..|shares| - 1], shares[|shares| - 1];
      RankKeeps(init);
      InsertKeeps(Rank(init), last);
      assert Total(Rank(shares)) == Total(shares) by { InsertTotal(Rank(init), last); }
      assert shares == init + [last];
    }
  }

  ghost predicate NonNegative<K>(shares: seq<Share<K>>) {
    forall i :: 0 <= i < |shares| ==> shares[i].weight >= 0.0
  }

  lemma {:induction false} TotalAbove<K>(shares: seq<Share<K>>)
    requires NonNegative(shares)
    ensures Total(shares) >= 0.0 && forall i :: 0 <= i < |shares| ==> shares[i].weight <= Total(shares)
  {
    if shares != [] { TotalAbove(shares[..|shares| - 1]); }
  }

  lemma {:induction false} PoolNonNegative<K>(ballots: seq<Share<K>>)
    requires NonNegative(ballots)
    ensures NonNegative(Pool(ballots))
  {
    if ballots != [] {
      PoolNonNegative(ballots[..|ballots| - 1]);
      CastNonNegative(Pool(ballots[..|ballots| - 1]), ballots[|ballots| - 1]);
    }
  }

  lemma {:induction false} CastNonNegative<K>(pool: seq<Share<K>>, vote: Share<K>)
    requires NonNegative(pool) && vote.weight >= 0.0
    ensures NonNegative(Cast(pool, vote))
  {
    if pool != [] && pool[0].key != vote.key { CastNonNegative(pool[1..], vote); }
  }

  lemma {:induction false} NotHeld<K>(pool: seq<Share<K>>, key: K)
    requires !Holds(pool, key)
    ensures Held(pool, key) == 0.0
  {
    if pool != [] {
      assert pool[0].key != key;
      assert !Holds(pool[1..], key) by {
        forall i | 0 <= i < |pool[1..]| ensures pool[1..][i].key != key { assert pool[i + 1].key != key; }
      }
      NotHeld(pool[1..], key);
    }
  }

  // ---------------------------------------------------------------- the heaviest

  lemma {:induction false} InsertDistinct<K>(sorted: seq<Share<K>>, s: Share<K>)
    requires Distinct(sorted) && !Holds(sorted, s.key)
    ensures Distinct(Insert(sorted, s)) && forall key :: Holds(Insert(sorted, s), key) ==>
      Holds(sorted, key) || key == s.key
  {
    assert forall i :: 0 <= i < |sorted| ==> sorted[i].key != s.key;
    if |sorted| > 0 && sorted[0].weight >= s.weight {
      var rest := Insert(sorted[1..], s);
      forall key ensures Holds(sorted[1..], key) ==> Holds(sorted, key) {
        HoldsCons(sorted[0], sorted[1..], key);
        assert [sorted[0]] + sorted[1..] == sorted;
      }
      InsertDistinct(sorted[1..], s);
      forall i | 0 <= i < |rest| ensures rest[i].key != sorted[0].key {
        assert Holds(rest, rest[i].key);
        if Holds(sorted[1..], rest[i].key) {
          var k :| 0 <= k < |sorted[1..]| && sorted[1..][k].key == rest[i].key;
          assert sorted[k + 1].key == rest[i].key;
        }
      }
      forall key ensures Holds([sorted[0]] + rest, key) ==> Holds(sorted, key) || key == s.key {
        HoldsCons(sorted[0], rest, key);
        assert sorted[0].key == key ==> Holds(sorted, key);
      }
    } else {
      forall key ensures Holds([s] + sorted, key) ==> Holds(sorted, key) || key == s.key { HoldsCons(s, sorted, key); }
    }
  }

  lemma {:induction false} RankDistinct<K>(shares: seq<Share<K>>)
    requires Distinct(shares)
    ensures Distinct(Rank(shares)) && forall key :: Holds(Rank(shares), key) ==> Holds(shares, key)
  {
    if |shares| > 0 {
      var init, last := shares[..|shares| - 1], shares[|shares| - 1];
      RankDistinct(init);
      forall key ensures Holds(init, key) ==> Holds(shares, key) {
        HoldsSnoc(init, last, key);
        assert init + [last] == shares;
      }
      InsertDistinct(Rank(init), last);
      assert Holds(shares, last.key);
    }
  }

  /** The heaviest entries of a pool: distinct, in descending order, and none left out is heavier. */
  ghost predicate AreTop<K(!new)>(pool: seq<Share<K>>, n: nat, top: seq<Share<K>>) {
    && |top| <= n && Distinct(top) && Descending(top) && (forall i :: 0 <= i < |top| ==> top[i] in pool)
    && (forall s :: s in pool ==> s in top || (|top| == n && AllAbove(top, s.weight)))
  }

  ghost predicate AllAbove<K>(shares: seq<Share<K>>, bound: real) {
    forall i :: 0 <= i < |shares| ==> shares[i].weight >= bound
  }

  lemma TakeIsTop<K(!new)>(pool: seq<Share<K>>, n: nat)
    requires Distinct(pool)
    ensures AreTop(pool, n, Take(Rank(pool), n))
  {
    var ranked := Rank(pool);
    assert Descending(ranked) && SameMembers(ranked, pool) by { RankKeeps(pool); }
    assert Distinct(ranked) by { RankDistinct(pool); }
    CutIsTop(pool, ranked, n);
  }

  ghost predicate SameMembers<K(!new)>(a: seq<Share<K>>, b: seq<Share<K>>) { forall s :: s in a <==> s in b }

  lemma CutIsTop<K(!new)>(pool: seq<Share<K>>, ranked: seq<Share<K>>, n: nat)
    requires Descending(ranked) && Distinct(ranked) && SameMembers(ranked, pool)
    ensures AreTop(pool, n, Take(ranked, n))
  {
    forall s | s in pool ensures s in Take(ranked, n) || (n < |ranked| && AllAbove(Take(ranked, n), s.weight)) {
      var k :| 0 <= k < |ranked| && ranked[k] == s;
    }
  }

  /** The first of the ranking is the first of the heaviest. */
  lemma {:induction false} RankHead<K>(shares: seq<Share<K>>)
    requires |shares| > 0
    ensures |Rank(shares)| > 0 && Rank(shares)[0] == Heaviest(shares)
  {
    if |shares| > 1 { RankHead(shares[..|shares| - 1]); }
  }

  function Heaviest<K>(shares: seq<Share<K>>): Share<K>
    requires |shares| > 0
  {
    if |shares| == 1 then shares[0]
    else
      var before, last := Heaviest(shares[..|shares| - 1]), shares[|shares| - 1];
      if last.weight > before.weight then last else before
  }

  /** The character is among the choices, with its rounded weight. */
  ghost predicate Chosen(shares: seq<Share<char>>, choices: seq<Choice>, i: nat)
    requires i < |choices|
  {
    Holds(shares, choices[i].c) && choices[i].p == Round4(VotesFor(shares, choices[i].c))
  }

  /** The choices are at most three different characters, heaviest first, and none left out is heavier. */
  ghost predicate AreHeaviest(shares: seq<Share<char>>, choices: seq<Choice>) {
    && |choices| <= 3
    && (forall i :: 0 <= i < |choices| ==> Chosen(shares, choices, i))
    && (forall i, j :: 0 <= i < j < |choices| ==>
          choices[i].c != choices[j].c && VotesFor(shares, choices[i].c) >= VotesFor(shares, choices[j].c))
    && (forall c :: Holds(shares, c) && (forall i :: 0 <= i < |choices| ==> choices[i].c != c) ==>
          |choices| == 3 && forall i :: 0 <= i < |choices| ==>
            VotesFor(shares, choices[i].c) >= VotesFor(shares, c))
  }

  /** What a ranked entry is: a key of the ballots with the votes for it. */
  lemma RankedEntry(shares: seq<Share<char>>, i: nat)
    requires i < |Rank(Pool(shares))|
    ensures var s := Rank(Pool(shares))[i]; Holds(shares, s.key) && s.weight == VotesFor(shares, s.key)
  {
    var pool := Pool(shares);
    RankKeeps(pool);
    var s := Rank(pool)[i];
    assert s in pool;
    var k :| 0 <= k < |pool| && pool[k] == s;
    PoolCounts(shares, s.key);
    HeldAt(pool, k);
    assert Holds(pool, s.key);
  }

  lemma RankedSomewhere(shares: seq<Share<char>>, c: char) returns (i: nat)
    requires Holds(shares, c)
    ensures i < |Rank(Pool(shares))| && Rank(Pool(shares))[i].key == c
  {
    var pool := Pool(shares);
    PoolCounts(shares, c);
    var k :| 0 <= k < |pool| && pool[k].key == c;
    RankKeeps(pool);
    assert pool[k] in Rank(pool);
    i :| 0 <= i < |Rank(pool)| && Rank(pool)[i] == pool[k];
  }

  /** A ranked key is chosen, or three others at least as heavy are. */
  lemma RankedOrOutranked(shares: seq<Share<char>>, k: nat)
    requires k < |Rank(Pool(shares))|
    ensures var s, choices := Rank(Pool(shares))[k], TopChoices(shares);
      if k < |choices| then choices[k].c == s.key
      else |choices| == TOP_CHOICES && forall i :: 0 <= i < |choices| ==>
        VotesFor(shares, choices[i].c) >= VotesFor(shares, s.key)
  {
    RankKeeps(Pool(shares));
    RankedEntry(shares, k);
    forall i | 0 <= i < |TopChoices(shares)| && i <= k
      ensures VotesFor(shares, TopChoices(shares)[i].c) >= VotesFor(shares, Rank(Pool(shares))[k].key)
    {
      RankedEntry(shares, i);
    }
  }

  lemma TopChoicesAre(shares: seq<Share<char>>)
    ensures AreHeaviest(shares, TopChoices(shares))
  {
    var choices := TopChoices(shares);
    RankKeeps(Pool(shares));
    PoolDistinct(shares);
    RankDistinct(Pool(shares));
    forall i | 0 <= i < |choices| ensures Chosen(shares, choices, i) { RankedEntry(shares, i); }
    forall i, j | 0 <= i < j < |choices|
      ensures choices[i].c != choices[j].c && VotesFor(shares, choices[i].c) >= VotesFor(shares, choices[j].c)
    {
      RankedEntry(shares, i);
      RankedEntry(shares, j);
    }
    forall c | Holds(shares, c) && (forall i :: 0 <= i < |choices| ==> choices[i].c != c)
      ensures |choices| == TOP_CHOICES && forall i :: 0 <= i < |choices| ==>
        VotesFor(shares, choices[i].c) >= VotesFor(shares, c)
    {
      var k := RankedSomewhere(shares, c);
      RankedOrOutranked(shares, k);
    }
  }
}
