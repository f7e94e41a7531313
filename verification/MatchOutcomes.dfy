/**
 * The distances plates are compared by, spelt with their prices, and what a read plate resolves to in terms of them.
 */
module MatchOutcomes {
  import opened EditDistance
  import opened OpenPlateQuery
  import opened Options
  import opened PlateMatcher
  import Decoder = CtcDecoder
  import PlateGrammar
  import Tally

  // ---------------------------------------------------------------- prices

  predicate Both(a: char, b: char, group: set<char>) { a in group && b in group }

  /** Characters that recognisers mistake for one another. */
  predicate LookAlike(a: char, b: char) {
    a != b &&
    (Both(a, b, {'ب', 'پ', 'ت', 'ث'}) || Both(a, b, {'ج', 'ح'}) || Both(a, b, {'س', 'ش'})
     || Both(a, b, {'ص', 'ط'}) || Both(a, b, {'د', 'ذ'}) || Both(a, b, {'ز', 'ژ'})
     || Both(a, b, {'ق', 'ف'}) || Both(a, b, {'ک', 'گ'}) || Both(a, b, {'ه', '5'})
     || Both(a, b, {'ا', '1'}) || Both(a, b, {'4', '6'}) || Both(a, b, {'2', '3'})
     || Both(a, b, {'7', '8'}) || Both(a, b, {'6', '9'}) || Both(a, b, {'0', '5'}))
  }

  function Price(a: char, b: char): real { if a == b then 0.0 else if LookAlike(a, b) then 0.4 else 1.0 }

  ghost predicate InGroup(a: char, b: char, g: nat) { g < |CONFUSABLE| && Both(a, b, CONFUSABLE[g]) }

  lemma LookAlikeIff(a: char, b: char)
    ensures LookAlike(a, b) <==> Confusable(a, b)
  {
    if LookAlike(a, b) {
      assert exists g: nat :: InGroup(a, b, g) by {
        assert InGroup(a, b, 0) || InGroup(a, b, 1) || InGroup(a, b, 2) || InGroup(a, b, 3) || InGroup(a, b, 4)
          || InGroup(a, b, 5) || InGroup(a, b, 6) || InGroup(a, b, 7) || InGroup(a, b, 8) || InGroup(a, b, 9)
          || InGroup(a, b, 10) || InGroup(a, b, 11) || InGroup(a, b, 12) || InGroup(a, b, 13) || InGroup(a, b, 14);
      }
      var g: nat :| InGroup(a, b, g);
      assert a in CONFUSABLE[g] && b in CONFUSABLE[g];
    }
  }

  lemma PriceIs(a: char, b: char)
    ensures SubstitutionCost(a, b) == Price(a, b)
  {
    LookAlikeIff(a, b);
  }

  /** Two texts that differ in one character are as far apart as its price. */
  lemma OneCharacterApart(before: string, after: string, a: char, b: char)
    ensures Distance(before + [a] + after, before + [b] + after) == Price(a, b)
  {
    var x, y, n := before + [a] + after, before + [b] + after, |before|;
    SamePrices(x, y, n);
    PriceIs(a, b);
    assert x[n] == a && y[n] == b;
    forall i | n < i < |x| ensures x[i] == y[i] { assert x[i] == after[i - n - 1] == y[i]; }
    OnePrice(x, y, n, |x|);
    DistanceIsPositional(x, y);
  }

  lemma {:induction false} SamePrices(x: string, y: string, n: nat)
    requires n <= |x| && n <= |y| && x[..n] == y[..n]
    ensures PositionalCost(SubstitutionCost, x, y, n) == 0.0
  {
    if n > 0 {
      assert x[..n][n - 1] == y[..n][n - 1] && x[..n - 1] == x[..n][..n - 1] && y[..n - 1] == y[..n][..n - 1];
      SamePrices(x, y, n - 1);
    }
  }

  lemma {:induction false} OnePrice(x: string, y: string, i: nat, n: nat)
    requires |x| == |y| && i < n <= |x| && PositionalCost(SubstitutionCost, x, y, i) == 0.0
    requires forall k :: i < k < n ==> x[k] == y[k]
    ensures PositionalCost(SubstitutionCost, x, y, n) == SubstitutionCost(x[i], y[i])
  {
    if i < n - 1 { OnePrice(x, y, i, n - 1); }
  }

  // ---------------------------------------------------------------- the weighted distance

  ghost predicate FirstAt(choices: seq<Tally.Choice>, k: int, c: char) {
    0 <= k < |choices| && choices[k].c == c && forall j :: 0 <= j < k ==> choices[j].c != c
  }

  /** What a differing character costs: its price, or what the reading leaves open if it lists the other one there and
      that is less, times between 35 hundredths and one as the reading was sure of it. */
  ghost function PriceAt(info: Reading, i: nat, a: char, b: char): real {
    var sure := if i < |info.charConfidences| then info.charConfidences[i] else 1.0;
    var open :=
      if i < |info.positions| && exists k :: FirstAt(info.positions[i], k, b) then
        var k :| FirstAt(info.positions[i], k, b); 1.0 - info.positions[i][k].p
      else 1.0;
    if a == b then 0.0 else (if open < Price(a, b) then open else Price(a, b)) * (0.35 + 0.65 * sure)
  }

  lemma {:induction false} FirstListedIs(choices: seq<Tally.Choice>, c: char)
    ensures FirstListed(choices, c).None? ==> forall k :: 0 <= k < |choices| ==> choices[k].c != c
    ensures FirstListed(choices, c).Some? ==>
              exists k :: FirstAt(choices, k, c) && choices[k].p == FirstListed(choices, c).value
  {
    if choices != [] {
      if choices[0].c == c {
        assert FirstAt(choices, 0, c);
      } else {
        var rest := choices[1..];
        FirstListedIs(rest, c);
        if FirstListed(rest, c).Some? {
          var k :| FirstAt(rest, k, c) && rest[k].p == FirstListed(rest, c).value;
          FirstAfter(choices, k, c);
        } else {
          forall k | 0 <= k < |choices| ensures choices[k].c != c { if k > 0 { assert rest[k - 1].c != c; } }
        }
      }
    }
  }

  lemma FirstAfter(choices: seq<Tally.Choice>, k: int, c: char)
    requires choices != [] && choices[0].c != c && FirstAt(choices[1..], k, c)
    ensures FirstAt(choices, k + 1, c)
  {
    forall j | 0 <= j < k + 1 ensures choices[j].c != c { if j > 0 { assert choices[1..][j - 1].c != c; } }
  }

  lemma PriceAtIs(info: Reading, i: nat, a: char, b: char)
    ensures PositionCost(info, i, a, b) == PriceAt(info, i, a, b)
  {
    PriceIs(a, b);
    if i < |info.positions| { FirstListedIs(info.positions[i], b); }
  }

  /** Texts of different lengths are compared by their distance, and others character by character. */
  lemma WeightedIs(info: Reading, read: string, open: string, a: char, b: char)
    ensures |read| != |open| ==> Weighted(info, read, open) == Distance(read, open)
    ensures Weighted(info, "", "") == 0.0
    ensures |read| == |open| ==>
              Weighted(info, read + [a], open + [b]) == Weighted(info, read, open) + PriceAt(info, |read|, a, b)
  {
    if |read| == |open| {
      SumOfPrefix(info, read, open, read + [a], open + [b], |read|);
      PriceAtIs(info, |read|, a, b);
    }
  }

  lemma {:induction false} SumOfPrefix(info: Reading, read: string, open: string, more: string, others: string, n: nat)
    requires n <= |read| <= |more| && n <= |open| <= |others|
    requires more[..|read|] == read && others[..|open|] == open
    ensures WeightedSum(info, more, others, n) == WeightedSum(info, read, open, n)
  {
    if n > 0 { SumOfPrefix(info, read, open, more, others, n - 1); }
  }

  // ---------------------------------------------------------------- what is suggested

  /** Worth suggesting: at most six tenths away as weighted, or at most one as it stands. */
  ghost predicate Nearby(info: Reading, plate: string, open: OpenPlate) {
    Weighted(info, plate, open.plate) <= 0.6 || Distance(plate, open.plate) <= 1.0
  }

  /** Nearer as weighted, or as near and nearer as it stands. */
  ghost predicate Nearer(info: Reading, plate: string, a: OpenPlate, b: OpenPlate) {
    || Weighted(info, plate, a.plate) < Weighted(info, plate, b.plate)
    || (Weighted(info, plate, a.plate) == Weighted(info, plate, b.plate)
        && Distance(plate, a.plate) < Distance(plate, b.plate))
  }

  /** The suggestion names the pass, its plate and how far away it is, to three decimals. */
  ghost predicate Names(info: Reading, plate: string, open: OpenPlate, s: Suggestion) {
    && s.id == open.id && s.plate == open.plate
    && Weighted(info, plate, open.plate) - 0.0005 < s.distance <= Weighted(info, plate, open.plate) + 0.0005
  }

  /** One to three open passes, each once and nearest first; any other one nearby is no nearer than all three of them,
      or is filed under a nearer plate as well. */
  ghost predicate Suggests(info: Reading, plate: string, plates: seq<OpenPlate>, opens: seq<OpenPlate>,
                           suggestions: seq<Suggestion>)
  {
    && 1 <= |opens| <= 3 && |suggestions| == |opens|
    && (forall i :: 0 <= i < |opens| ==>
          opens[i] in plates && Nearby(info, plate, opens[i]) && Names(info, plate, opens[i], suggestions[i]))
    && (forall i, j :: 0 <= i < j < |opens| ==>
          opens[i].id != opens[j].id && !Nearer(info, plate, opens[j], opens[i]))
    && (forall o :: o in plates && Nearby(info, plate, o) ==> IsOutdone(info, plate, o, opens))
  }

  ghost predicate IsOutdone(info: Reading, plate: string, o: OpenPlate, opens: seq<OpenPlate>) {
    || (exists i :: 0 <= i < |opens| && opens[i].id == o.id && !Nearer(info, plate, o, opens[i]))
    || (|opens| == 3 && forall i :: 0 <= i < |opens| ==> !Nearer(info, plate, o, opens[i]))
  }

  lemma NearbyIff(info: Reading, plate: string, plates: seq<OpenPlate>, open: OpenPlate)
    ensures IsNear(info, plate, plates, Scored(open, Weighted(info, plate, open.plate), Distance(plate, open.plate)))
      <==> open in plates && Nearby(info, plate, open)
  {
  }

  lemma RoundedWithin(x: real)
    ensures x - 0.0005 < Round3(x) <= x + 0.0005
  {
  }

  function OpensOf(chosen: seq<Scored>): seq<OpenPlate> {
    seq(|chosen|, i requires 0 <= i < |chosen| => chosen[i].open)
  }

  lemma OutdoneIs(info: Reading, plate: string, plates: seq<OpenPlate>, near: set<Scored>, chosen: seq<Scored>,
                  o: OpenPlate)
    requires NearestFirst(near, chosen) && AllNear(info, plate, plates, near)
    requires o in plates && Nearby(info, plate, o)
    ensures IsOutdone(info, plate, o, OpensOf(chosen))
  {
    var s := Scored(o, Weighted(info, plate, o.plate), Distance(plate, o.plate));
    NearbyIff(info, plate, plates, o);
    assert NotPassedOver(s, chosen);
    forall i | 0 <= i < |chosen| ensures Before(s, chosen[i]) <==> Nearer(info, plate, o, OpensOf(chosen)[i]) {
      assert IsNear(info, plate, plates, chosen[i]);
    }
    if Listed(chosen, o.id) {
      var i :| 0 <= i < |chosen| && chosen[i].open.id == o.id;
      assert OpensOf(chosen)[i].id == o.id && !Nearer(info, plate, o, OpensOf(chosen)[i]);
    }
  }

  lemma ChosenNamed(info: Reading, plate: string, plates: seq<OpenPlate>, s: Scored, shown: Suggestion)
    requires IsNear(info, plate, plates, s) && shown == Suggestion(s.open.id, s.open.plate, Round3(s.weighted))
    ensures s.open in plates && Nearby(info, plate, s.open) && Names(info, plate, s.open, shown)
  {
    RoundedWithin(s.weighted);
  }

  lemma BeforeIff(info: Reading, plate: string, plates: seq<OpenPlate>, a: Scored, b: Scored)
    requires IsNear(info, plate, plates, a) && IsNear(info, plate, plates, b)
    ensures Before(a, b) <==> Nearer(info, plate, a.open, b.open)
  {
  }

  lemma ChosenSuggests(info: Reading, plate: string, plates: seq<OpenPlate>, near: set<Scored>, chosen: seq<Scored>)
    requires NearestFirst(near, chosen) && AllNear(info, plate, plates, near) && chosen != []
    ensures Suggests(info, plate, plates, OpensOf(chosen), PlateMatcher.Shown(chosen))
  {
    var opens, shown := OpensOf(chosen), PlateMatcher.Shown(chosen);
    forall i | 0 <= i < |chosen| ensures IsNear(info, plate, plates, chosen[i]) { assert chosen[i] in near; }
    forall i | 0 <= i < |opens|
      ensures opens[i] in plates && Nearby(info, plate, opens[i]) && Names(info, plate, opens[i], shown[i])
    {
      ChosenNamed(info, plate, plates, chosen[i], shown[i]);
    }
    forall i, j | 0 <= i < j < |opens| ensures opens[i].id != opens[j].id && !Nearer(info, plate, opens[j], opens[i]) {
      BeforeIff(info, plate, plates, chosen[j], chosen[i]);
    }
    forall o | o in plates && Nearby(info, plate, o) ensures IsOutdone(info, plate, o, opens) {
      OutdoneIs(info, plate, plates, near, chosen, o);
    }
  }

  /** When neither the plate nor an alternative is open, the passes suggested are the nearest ones; and when nothing is
      found, no open plate is nearby. */
  lemma SuggestsNearest(info: Reading, plate: string, tried: seq<string>, plates: seq<OpenPlate>, r: Resolution)
    requires Resolves(info, plate, tried, plates, r)
    ensures r.Fuzzy? ==> exists opens :: Suggests(info, plate, plates, opens, r.suggestions)
    ensures r.NotFound? ==> forall o :: o in plates ==> !Nearby(info, plate, o)
  {
    if r.Fuzzy? {
      var chosen, near :| r.suggestions == PlateMatcher.Shown(chosen) && NearestFirst(near, chosen)
        && AllNear(info, plate, plates, near);
      ChosenSuggests(info, plate, plates, near, chosen);
    }
    if r.NotFound? {
      forall o | o in plates ensures !Nearby(info, plate, o) { NearbyIff(info, plate, plates, o); }
    }
  }

  /** An alternative is tried, as it would be filed, exactly if it has a chance of a twentieth or more, in order. */
  lemma TriedIs(alternatives: seq<Decoder.Alternative>, last: Decoder.Alternative)
    ensures Tried([]) == []
    ensures Tried(alternatives + [last])
      == Tried(alternatives) + if last.p >= 0.05 then [PlateGrammar.CanonicalOrRaw(last.plate)] else []
  {
    assert (alternatives + [last])[..|alternatives|] == alternatives;
  }

  // ---------------------------------------------------------------- the order of the details

  /** The passes a resolution names, in its order. */
  function Named(r: Resolution): seq<nat> {
    match r
    case Matched(_, passes) => seq(|passes|, i requires 0 <= i < |passes| => passes[i].id)
    case ByAlternative(_, suggestions) => seq(|suggestions|, i requires 0 <= i < |suggestions| => suggestions[i].id)
    case Fuzzy(suggestions) => seq(|suggestions|, i requires 0 <= i < |suggestions| => suggestions[i].id)
    case NotFound => []
  }

  predicate IsFirst(ids: seq<nat>, k: int, id: nat) {
    0 <= k < |ids| && ids[k] == id && forall j :: 0 <= j < k ==> ids[j] != id
  }

  lemma {:induction false} PlaceIsFirst(ids: seq<nat>, id: nat)
    requires id in ids
    ensures IsFirst(ids, Place(ids, id), id)
  {
    if ids[0] != id {
      PlaceIsFirst(ids[1..], id);
      var k := Place(ids[1..], id);
      forall j | 0 <= j < k + 1 ensures ids[j] != id { if j > 0 { assert ids[1..][j - 1] != id; } }
    }
  }

  lemma FirstSnoc(ids: seq<nat>, last: nat, k: int, id: nat)
    ensures id in ids ==> (IsFirst(ids + [last], k, id) <==> IsFirst(ids, k, id))
    ensures id == last && id !in ids ==> (IsFirst(ids + [last], k, id) <==> k == |ids|)
  {
    var more := ids + [last];
    assert forall j :: 0 <= j < |ids| ==> more[j] == ids[j];
    if id in ids {
      var i :| 0 <= i < |ids| && ids[i] == id;
      assert more[i] == id;
      if IsFirst(more, k, id) { assert k <= i && ids[k] == id; }
    }
  }

  /** Keeping the first of each keeps the order of the firsts. */
  lemma {:induction false} OnceKeepsOrder(ids: seq<nat>, x: nat, y: nat, i: int, j: int, a: int, b: int)
    requires IsFirst(ids, i, x) && IsFirst(ids, j, y) && IsFirst(Once(ids), a, x) && IsFirst(Once(ids), b, y)
    ensures a <= b <==> i <= j
  {
    var n := |ids| - 1;
    var init, last := ids[..n], ids[n];
    assert ids == init + [last];
    FirstSnoc(init, last, i, x);
    FirstSnoc(init, last, j, y);
    if last !in Once(init) {
      FirstSnoc(Once(init), last, a, x);
      FirstSnoc(Once(init), last, b, y);
    }
    assert (x in init || x == last) && (y in init || y == last) by { assert ids[i] == x && ids[j] == y; }
    if x in init && y in init {
      assert Once(ids) == if last in Once(init) then Once(init) else Once(init) + [last];
      OnceKeepsOrder(init, x, y, i, j, a, b);
    } else {
      assert last !in Once(init) && Once(ids) == Once(init) + [last];
      assert x in init ==> a < |Once(init)| && i < n;
      assert y in init ==> b < |Once(init)| && j < n;
    }
  }

  /** The details come in the order in which the resolution names their passes. */
  lemma DetailsInOrder(r: Resolution, db: seq<DbPass>, scope: set<nat>, answer: Resolution, details: seq<DbPass>,
                       m: nat, n: nat, i: int, j: int)
    requires Answers(r, db, scope, answer, details) && m < n < |details|
    requires IsFirst(Named(r), i, details[m].id) && IsFirst(Named(r), j, details[n].id)
    ensures i <= j
  {
    var ids, x, y := IdsOf(r), details[m].id, details[n].id;
    assert details[m] in details && details[n] in details;
    assert ids == Once(Named(r));
    PlaceIsFirst(ids, x);
    PlaceIsFirst(ids, y);
    OnceKeepsOrder(Named(r), x, y, i, j, Place(ids, x), Place(ids, y));
  }
}
