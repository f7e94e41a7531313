/**
 * Resolving a recognised plate to the open gate passes: exactly, by an alternative reading, or by the
 * nearest plates under a distance weighted by how sure the recogniser was.
 */
module PlateMatcher {
  import opened EditDistance
  import opened FusionEvidence
  import opened OpenPlateQuery
  import opened Options
  import Cache = OpenPlateCache
  import Decoder = CtcDecoder
  import PlateGrammar
  import Tally

  /** What was recognised, with the confidences and readings that came with it. */
  datatype Reading = Reading(charConfidences: seq<real>, positions: seq<seq<Choice>>)

  // ---------------------------------------------------------------- the weighted distance

  function FirstListed(choices: seq<Choice>, c: char): Option<real> {
    if choices == [] then None else if choices[0].c == c then Some(choices[0].p) else FirstListed(choices[1..], c)
  }

  function Confidence(info: Reading, i: nat): real {
    if i < |info.charConfidences| then info.charConfidences[i] else 1.0
  }

  /** A character listed for the position costs at most what its reading leaves open. */
  function OpenCost(info: Reading, i: nat, a: char, b: char): real {
    var listed := if i < |info.positions| then FirstListed(info.positions[i], b) else None;
    match listed
    case Some(p) => Min(SubstitutionCost(a, b), 1.0 - p)
    case None => SubstitutionCost(a, b)
  }

  function Sureness(info: Reading, i: nat): real { 0.35 + 0.65 * Confidence(info, i) }

  function PositionCost(info: Reading, i: nat, a: char, b: char): real {
    if a == b then 0.0 else Scale(OpenCost(info, i, a, b), Sureness(info, i))
  }

  function WeightedSum(info: Reading, read: string, open: string, n: nat): real
    requires n <= |read| && n <= |open|
  {
    if n == 0 then 0.0 else WeightedSum(info, read, open, n - 1) + PositionCost(info, n - 1, read[n - 1], open[n - 1])
  }

  ghost function Weighted(info: Reading, read: string, open: string): real {
    if |read| != |open| then Distance(read, open) else WeightedSum(info, read, open, |read|)
  }

  /** `weightedDistance`. */
  method WeightedDistance(info: Reading, read: string, open: string) returns (total: real)
    ensures total == Weighted(info, read, open)
  {
    if |read| != |open| {
      total := PlateDistance(read, open);
      return;
    }
    total := 0.0;
    for i := 0 to |read|
      invariant total == WeightedSum(info, read, open, i)
    {
      total := total + PositionCost(info, i, read[i], open[i]);
    }
  }

  ghost predicate InRange(info: Reading) {
    && (forall i :: 0 <= i < |info.charConfidences| ==> 0.0 <= info.charConfidences[i] <= 1.0)
    && (forall i, k :: 0 <= i < |info.positions| && 0 <= k < |info.positions[i]| ==>
          0.0 <= info.positions[i][k].p <= 1.0)
  }

  lemma {:induction false} FirstListedInRange(choices: seq<Choice>, c: char)
    requires forall k :: 0 <= k < |choices| ==> 0.0 <= choices[k].p <= 1.0
    ensures FirstListed(choices, c).Some? ==> 0.0 <= FirstListed(choices, c).value <= 1.0
  {
    if choices != [] { FirstListedInRange(choices[1..], c); }
  }

  /** The position is open only to a certain reading: the character is listed there with probability one. */
  ghost predicate CertainlyListed(info: Reading, i: nat, c: char) {
    i < |info.positions| && FirstListed(info.positions[i], c) == Some(1.0)
  }

  lemma PositionCostBounds(info: Reading, i: nat, a: char, b: char)
    requires InRange(info)
    ensures 0.0 <= PositionCost(info, i, a, b) <= SubstitutionCost(a, b)
    ensures PositionCost(info, i, a, b) == 0.0 <==> a == b || CertainlyListed(info, i, b)
  {
    if i < |info.positions| { FirstListedInRange(info.positions[i], b); }
    ScaleBounds(OpenCost(info, i, a, b), Sureness(info, i));
  }

  lemma ScaleBounds(cost: real, sureness: real)
    requires cost >= 0.0 && 0.35 <= sureness <= 1.0
    ensures 0.0 <= Scale(cost, sureness) <= cost && (Scale(cost, sureness) == 0.0 <==> cost == 0.0)
  {
    if cost > 0.0 {
      assert cost * sureness > 0.0;
      assert cost * (1.0 - sureness) >= 0.0;
      assert cost * (1.0 - sureness) == cost - cost * sureness;
    }
  }

  ghost predicate Explained(info: Reading, read: string, open: string, n: nat)
    requires n <= |read| && n <= |open|
  {
    forall i :: 0 <= i < n ==> read[i] == open[i] || CertainlyListed(info, i, open[i])
  }

  /** For plates of one length the weighted distance is at most the positional cost, and zero exactly when every
      differing character was itself read with certainty. */
  lemma {:induction false} WeightedBounds(info: Reading, read: string, open: string, n: nat)
    requires InRange(info) && n <= |read| && n <= |open|
    ensures 0.0 <= WeightedSum(info, read, open, n) <= PositionalCost(SubstitutionCost, read, open, n)
    ensures WeightedSum(info, read, open, n) == 0.0 <==> Explained(info, read, open, n)
  {
    if n > 0 {
      WeightedBounds(info, read, open, n - 1);
      PositionCostBounds(info, n - 1, read[n - 1], open[n - 1]);
    }
  }

  // ---------------------------------------------------------------- resolution

  datatype Suggestion = Suggestion(id: nat, plate: string, distance: real)

  datatype Resolution =
    | Matched(plate: string, passes: seq<OpenPlate>)
    | ByAlternative(plate: string, suggestions: seq<Suggestion>)
    | Fuzzy(suggestions: seq<Suggestion>)
    | NotFound

  datatype Scored = Scored(open: OpenPlate, weighted: real, distance: real)

  const SUGGEST_MAX_WEIGHTED: real := 0.6
  const SUGGEST_MAX_DISTANCE: real := 1.0
  const MIN_ALTERNATIVE_P: real := 0.05
  const MAX_SUGGESTIONS: nat := 3

  /** The passes filed under a plate. */
  function Filed(plates: seq<OpenPlate>, plate: string): seq<OpenPlate> {
    if plates == [] then []
    else
      var rest, last := Filed(plates[..|plates| - 1], plate), plates[|plates| - 1];
      if last.plate == plate then rest + [last] else rest
  }

  predicate Near(s: Scored) { s.weighted <= SUGGEST_MAX_WEIGHTED || s.distance <= SUGGEST_MAX_DISTANCE }

  /** First by weighted distance, then by distance. */
  predicate Before(a: Scored, b: Scored) {
    a.weighted < b.weighted || (a.weighted == b.weighted && a.distance < b.distance)
  }

  function Insert(sorted: seq<Scored>, s: Scored): seq<Scored> {
    if sorted == [] || Before(s, sorted[0]) then [s] + sorted else [sorted[0]] + Insert(sorted[1..], s)
  }

  ghost predicate Ordered(sorted: seq<Scored>) {
    forall i, j :: 0 <= i < j < |sorted| ==> !Before(sorted[j], sorted[i])
  }

  predicate Listed(chosen: seq<Scored>, id: nat) { exists i :: 0 <= i < |chosen| && chosen[i].open.id == id }

  /** The first of each pass. */
  function Unique(sorted: seq<Scored>): seq<Scored> {
    if sorted == [] then []
    else
      var rest, last := Unique(sorted[..|sorted| - 1]), sorted[|sorted| - 1];
      if Listed(rest, last.open.id) then rest else rest + [last]
  }

  function Chosen(sorted: seq<Scored>): seq<Scored> { Tally.Take(Unique(sorted), MAX_SUGGESTIONS) }

  lemma {:induction false} InsertKeeps(sorted: seq<Scored>, s: Scored)
    requires Ordered(sorted)
    ensures Ordered(Insert(sorted, s)) && forall x :: x in Insert(sorted, s) <==> x in sorted || x == s
  {
    if sorted != [] && !Before(s, sorted[0]) {
      InsertKeeps(sorted[1..], s);
      assert sorted == [sorted[0]] + sorted[1..];
      PrependOrdered(sorted[0], Insert(sorted[1..], s));
    } else if sorted != [] {
      assert forall x :: x in sorted ==> !Before(x, s);
      PrependOrdered(s, sorted);
    }
  }

  lemma PrependOrdered(first: Scored, rest: seq<Scored>)
    requires Ordered(rest) && forall x :: x in rest ==> !Before(x, first)
    ensures Ordered([first] + rest)
  {
  }

  /** A scored plate is not passed over: its pass is suggested, or three others are and it comes before none of them;
      and its pass is suggested by no later plate. */
  ghost predicate NotPassedOver(s: Scored, chosen: seq<Scored>) {
    && (Listed(chosen, s.open.id)
          || (|chosen| == MAX_SUGGESTIONS && forall i :: 0 <= i < |chosen| ==> !Before(s, chosen[i])))
    && (forall i :: 0 <= i < |chosen| && chosen[i].open.id == s.open.id ==> !Before(s, chosen[i]))
  }

  ghost predicate DistinctPasses(chosen: seq<Scored>) {
    forall i, j :: 0 <= i < j < |chosen| ==> chosen[i].open.id != chosen[j].open.id
  }

  /** What the suggestions are: near passes, each once, nearest first, at most three, and none left out comes before one
      suggested. */
  ghost predicate NearestFirst(scored: set<Scored>, chosen: seq<Scored>) {
    && |chosen| <= MAX_SUGGESTIONS && Ordered(chosen) && DistinctPasses(chosen)
    && (forall i :: 0 <= i < |chosen| ==> chosen[i] in scored)
    && (forall s :: s in scored ==> NotPassedOver(s, chosen))
  }

  function ElementsOf(s: seq<Scored>): set<Scored> { set x | x in s }

  ghost predicate Represented(s: Scored, unique: seq<Scored>) {
    exists i :: 0 <= i < |unique| && unique[i].open.id == s.open.id && !Before(s, unique[i])
  }

  /** Keeping the first of each pass keeps the order, and each pass by its nearest plate. */
  lemma UniqueKeeps(sorted: seq<Scored>)
    requires Ordered(sorted)
    ensures var unique := Unique(sorted);
      && Ordered(unique) && DistinctPasses(unique)
      && (forall i :: 0 <= i < |unique| ==> unique[i] in sorted)
      && (forall s :: s in sorted ==> Represented(s, unique))
  {
    UniqueOrdered(sorted);
    forall s | s in sorted ensures Represented(s, Unique(sorted)) { UniqueRepresents(sorted, s); }
  }

  ghost predicate AllFrom(unique: seq<Scored>, sorted: seq<Scored>) {
    forall i :: 0 <= i < |unique| ==> unique[i] in sorted
  }

  lemma {:induction false} UniqueOrdered(sorted: seq<Scored>)
    requires Ordered(sorted)
    ensures Ordered(Unique(sorted)) && DistinctPasses(Unique(sorted)) && AllFrom(Unique(sorted), sorted)
  {
    if sorted != [] {
      var init, last := sorted[..|sorted| - 1], sorted[|sorted| - 1];
      UniqueOrdered(init);
      assert sorted == init + [last];
      LastComesLast(init, last, Unique(init));
      AppendUnique(Unique(init), last);
    }
  }

  lemma {:induction false} UniqueRepresents(sorted: seq<Scored>, s: Scored)
    requires Ordered(sorted) && s in sorted
    ensures Represented(s, Unique(sorted))
  {
    var init, last := sorted[..|sorted| - 1], sorted[|sorted| - 1];
    assert sorted == init + [last];
    if s in init { UniqueRepresents(init, s); }
    UniqueOrdered(init);
    LastComesLast(init, last, Unique(init));
    StaysRepresented(s, init, last);
  }

  lemma LastComesLast(init: seq<Scored>, last: Scored, rest: seq<Scored>)
    requires Ordered(init + [last]) && AllFrom(rest, init)
    ensures forall i :: 0 <= i < |rest| ==> !Before(last, rest[i])
  {
    forall i | 0 <= i < |rest| ensures !Before(last, rest[i]) {
      var k :| 0 <= k < |init| && init[k] == rest[i];
      assert (init + [last])[k] == rest[i] && (init + [last])[|init|] == last;
    }
  }

  lemma AppendUnique(rest: seq<Scored>, last: Scored)
    requires Ordered(rest) && DistinctPasses(rest) && forall i :: 0 <= i < |rest| ==> !Before(last, rest[i])
    ensures Ordered(rest + [last]) && (!Listed(rest, last.open.id) ==> DistinctPasses(rest + [last]))
  {
  }

  lemma StaysRepresented(s: Scored, init: seq<Scored>, last: Scored)
    requires s in init ==> Represented(s, Unique(init))
    requires s in init || s == last
    requires forall i :: 0 <= i < |Unique(init)| ==> !Before(last, Unique(init)[i])
    ensures Represented(s, Unique(init + [last]))
  {
    var rest, after := Unique(init), Unique(init + [last]);
    assert (init + [last])[..|init|] == init;
    if s in init {
      var i :| 0 <= i < |rest| && rest[i].open.id == s.open.id && !Before(s, rest[i]);
      assert after[i] == rest[i];
    } else if Listed(rest, last.open.id) {
      var i :| 0 <= i < |rest| && rest[i].open.id == last.open.id;
      assert after[i] == rest[i];
    } else {
      assert after[|rest|] == last;
    }
  }

  /** The suggestions are the nearest. */
  lemma ChosenIsNearest(sorted: seq<Scored>)
    requires Ordered(sorted)
    ensures NearestFirst(ElementsOf(sorted), Chosen(sorted))
  {
    UniqueKeeps(sorted);
    forall s | s in ElementsOf(sorted) ensures NotPassedOver(s, Chosen(sorted)) {
      assert Represented(s, Unique(sorted));
      CutPassesNoneOver(s, Unique(sorted));
    }
  }

  lemma CutPassesNoneOver(s: Scored, unique: seq<Scored>)
    requires Ordered(unique) && DistinctPasses(unique) && Represented(s, unique)
    ensures NotPassedOver(s, Tally.Take(unique, MAX_SUGGESTIONS))
  {
    var chosen := Tally.Take(unique, MAX_SUGGESTIONS);
    var k :| 0 <= k < |unique| && unique[k].open.id == s.open.id && !Before(s, unique[k]);
    if k < |chosen| {
      assert chosen[k] == unique[k];
    } else {
      forall i | 0 <= i < |chosen| ensures !Before(s, chosen[i]) && chosen[i].open.id != s.open.id {
        assert chosen[i] == unique[i] && !Before(unique[k], unique[i]);
      }
    }
  }

  /** The loop that keeps the first of each pass, and the cut. */
  method Choose(sorted: seq<Scored>) returns (chosen: seq<Scored>)
    requires Ordered(sorted)
    ensures chosen == Chosen(sorted) && NearestFirst(ElementsOf(sorted), chosen)
  {
    var unique: seq<Scored> := [];
    for i := 0 to |sorted|
      invariant unique == Unique(sorted[..i])
    {
      assert sorted[..i + 1][..i] == sorted[..i];
      if !Listed(unique, sorted[i].open.id) { unique := unique + [sorted[i]]; }
    }
    assert sorted[..|sorted|] == sorted;
    chosen := Tally.Take(unique, MAX_SUGGESTIONS);
    ChosenIsNearest(sorted);
  }

  /** An open plate within a threshold of the one read, with its two distances. */
  ghost predicate IsNear(info: Reading, plate: string, plates: seq<OpenPlate>, s: Scored) {
    && s.open in plates && Near(s)
    && s.weighted == Weighted(info, plate, s.open.plate) && s.distance == Distance(plate, s.open.plate)
  }

  ghost predicate AllNear(info: Reading, plate: string, plates: seq<OpenPlate>, near: set<Scored>) {
    forall s :: s in near <==> IsNear(info, plate, plates, s)
  }

  /** Scores the open plates near the one read, in the order of the stable sort. */
  method ScoreNear(info: Reading, plate: string, plates: seq<OpenPlate>) returns (sorted: seq<Scored>)
    ensures Ordered(sorted)
    ensures forall s :: s in sorted <==> IsNear(info, plate, plates, s)
  {
    sorted := [];
    for i := 0 to |plates|
      invariant Ordered(sorted)
      invariant forall s :: s in sorted <==> IsNear(info, plate, plates[..i], s)
    {
      var weighted := WeightedDistance(info, plate, plates[i].plate);
      var distance := PlateDistance(plate, plates[i].plate);
      var s := Scored(plates[i], weighted, distance);
      assert plates[..i + 1] == plates[..i] + [plates[i]];
      if Near(s) {
        InsertKeeps(sorted, s);
        sorted := Insert(sorted, s);
      }
    }
    assert plates[..|plates|] == plates;
  }

  /** Rounding to three decimals. */
  function Round3(x: real): real { (x * 1_000.0 + 0.5).Floor as real / 1_000.0 }

  function Shown(chosen: seq<Scored>): seq<Suggestion> {
    seq(|chosen|, i requires 0 <= i < |chosen| =>
      Suggestion(chosen[i].open.id, chosen[i].open.plate, Round3(chosen[i].weighted)))
  }

  /** The alternatives worth trying, in order, each as it would be filed. */
  function Tried(alternatives: seq<Decoder.Alternative>): seq<string> {
    if alternatives == [] then []
    else
      var rest, last := Tried(alternatives[..|alternatives| - 1]), alternatives[|alternatives| - 1];
      if last.p >= MIN_ALTERNATIVE_P then rest + [PlateGrammar.CanonicalOrRaw(last.plate)] else rest
  }

  ghost predicate NothingFiled(plates: seq<OpenPlate>, texts: seq<string>) {
    forall i :: 0 <= i < |texts| ==> Filed(plates, texts[i]) == []
  }

  /** How a read plate resolves against the open plates: an exact match first, then the first alternative with an open
      pass, then the nearest passes, and otherwise nothing. */
  ghost predicate Resolves(info: Reading, plate: string, tried: seq<string>, plates: seq<OpenPlate>, r: Resolution) {
    match r
    case Matched(p, passes) => p == plate && passes == Filed(plates, plate) != []
    case ByAlternative(p, suggestions) =>
      Filed(plates, plate) == []
      && (exists k :: 0 <= k < |tried| && tried[k] == p && NothingFiled(plates, tried[..k])) && Filed(plates, p) != []
      && |suggestions| == |Filed(plates, p)|
      && forall i :: 0 <= i < |suggestions| ==>
           suggestions[i] == Suggestion(Filed(plates, p)[i].id, Filed(plates, p)[i].plate,
             Distance(plate, Filed(plates, p)[i].plate))
    case Fuzzy(suggestions) =>
      Filed(plates, plate) == [] && NothingFiled(plates, tried) && suggestions != []
      && exists chosen, near ::
           suggestions == Shown(chosen) && NearestFirst(near, chosen) && AllNear(info, plate, plates, near)
    case NotFound =>
      Filed(plates, plate) == [] && NothingFiled(plates, tried) && forall s :: !IsNear(info, plate, plates, s)
  }

  /** The index built when open plates are loaded. */
  method IndexByPlate(plates: seq<OpenPlate>) returns (byPlate: map<string, seq<OpenPlate>>)
    ensures forall p :: p in byPlate <==> Filed(plates, p) != []
    ensures forall p :: p in byPlate ==> byPlate[p] == Filed(plates, p)
  {
    byPlate := map[];
    for i := 0 to |plates|
      invariant forall p :: p in byPlate <==> Filed(plates[..i], p) != []
      invariant forall p :: p in byPlate ==> byPlate[p] == Filed(plates[..i], p)
    {
      assert plates[..i + 1][..i] == plates[..i];
      var p := plates[i].plate;
      byPlate := byPlate[p := (if p in byPlate then byPlate[p] else []) + [plates[i]]];
    }
    assert plates[..|plates|] == plates;
  }

  /** `match`, up to the details fetched for the guard. */
  method Resolve(info: Reading, read: string, alternatives: seq<Decoder.Alternative>, plates: seq<OpenPlate>)
    returns (plate: string, r: Resolution)
    ensures plate == PlateGrammar.CanonicalOrRaw(read) && Resolves(info, plate, Tried(alternatives), plates, r)
  {
    var byPlate := IndexByPlate(plates);
    plate := PlateGrammar.CanonicalOrRaw(read);
    if plate in byPlate { return plate, Matched(plate, byPlate[plate]); }
    for k := 0 to |alternatives|
      invariant NothingFiled(plates, Tried(alternatives[..k]))
    {
      assert alternatives[..k + 1][..k] == alternatives[..k];
      if alternatives[k].p >= MIN_ALTERNATIVE_P {
        var text := PlateGrammar.CanonicalOrRaw(alternatives[k].plate);
        if text in byPlate {
          var suggestions := SuggestAll(plate, byPlate[text]);
          TriedIsPrefix(alternatives, k);
          return plate, ByAlternative(text, suggestions);
        }
      }
    }
    assert alternatives[..|alternatives|] == alternatives;
    r := ResolveNear(info, plate, Tried(alternatives), plates);
  }

  /** The alternatives tried before one are a prefix of all those tried. */
  lemma {:induction false} TriedIsPrefix(alternatives: seq<Decoder.Alternative>, k: nat)
    requires k < |alternatives| && alternatives[k].p >= MIN_ALTERNATIVE_P
    ensures var before, all := Tried(alternatives[..k]), Tried(alternatives);
      |before| < |all| && all[..|before|] == before
        && all[|before|] == PlateGrammar.CanonicalOrRaw(alternatives[k].plate)
  {
    var init := alternatives[..|alternatives| - 1];
    if k < |init| {
      TriedIsPrefix(init, k);
      assert init[..k] == alternatives[..k];
    }
  }

  method ResolveNear(info: Reading, plate: string, tried: seq<string>, plates: seq<OpenPlate>) returns (r: Resolution)
    requires Filed(plates, plate) == [] && NothingFiled(plates, tried)
    ensures Resolves(info, plate, tried, plates, r)
  {
    var sorted := ScoreNear(info, plate, plates);
    if sorted == [] {
      forall s ensures !IsNear(info, plate, plates, s) { assert s !in sorted; }
      return NotFound;
    }
    var chosen := Choose(sorted);
    assert sorted[0] in ElementsOf(sorted);
    assert AllNear(info, plate, plates, ElementsOf(sorted));
    r := Fuzzy(Shown(chosen));
  }

  method SuggestAll(plate: string, hits: seq<OpenPlate>) returns (suggestions: seq<Suggestion>)
    ensures |suggestions| == |hits|
    ensures forall i :: 0 <= i < |hits| ==>
      suggestions[i] == Suggestion(hits[i].id, hits[i].plate, Distance(plate, hits[i].plate))
  {
    suggestions := [];
    for i := 0 to |hits|
      invariant |suggestions| == i
      invariant forall k :: 0 <= k < i ==>
        suggestions[k] == Suggestion(hits[k].id, hits[k].plate, Distance(plate, hits[k].plate))
    {
      var distance := PlateDistance(plate, hits[i].plate);
      suggestions := suggestions + [Suggestion(hits[i].id, hits[i].plate, distance)];
    }
  }

  lemma {:induction false} FiledAre(plates: seq<OpenPlate>, plate: string)
    ensures forall p :: p in Filed(plates, plate) <==> p in plates && p.plate == plate
  {
    if plates != [] {
      FiledAre(plates[..|plates| - 1], plate);
      assert plates == plates[..|plates| - 1] + [plates[|plates| - 1]];
    }
  }

  /** A plate is matched exactly when some open pass bears it, and then to all of those passes. */
  lemma MatchedIffOpen(info: Reading, plate: string, tried: seq<string>, plates: seq<OpenPlate>, r: Resolution)
    requires Resolves(info, plate, tried, plates, r)
    ensures r.Matched? <==> exists p :: p in plates && p.plate == plate
    ensures r.Matched? ==> forall p :: p in r.passes <==> p in plates && p.plate == plate
  {
    FiledAre(plates, plate);
    if r.Matched? {
      assert r.passes[0] in Filed(plates, plate);
    }
  }

  // ---------------------------------------------------------------- the details shown

  /** The first occurrence of each. */
  function Once(ids: seq<nat>): (once: seq<nat>)
    ensures forall id :: id in once <==> id in ids
  {
    if ids == [] then []
    else
      assert ids == ids[..|ids| - 1] + [ids[|ids| - 1]];
      var rest, last := Once(ids[..|ids| - 1]), ids[|ids| - 1];
      if last in rest then rest else rest + [last]
  }

  function PassIds(passes: seq<OpenPlate>): seq<nat> {
    seq(|passes|, i requires 0 <= i < |passes| => passes[i].id)
  }

  function SuggestedIds(suggestions: seq<Suggestion>): seq<nat> {
    seq(|suggestions|, i requires 0 <= i < |suggestions| => suggestions[i].id)
  }

  function IdsOf(r: Resolution): seq<nat> {
    match r
    case Matched(_, passes) => Once(PassIds(passes))
    case ByAlternative(_, suggestions) => Once(SuggestedIds(suggestions))
    case Fuzzy(suggestions) => Once(SuggestedIds(suggestions))
    case NotFound => []
  }

  /** The details are found by id and by the factories in scope; the status plays no part. */
  predicate IsShown(p: DbPass, scope: set<nat>, ids: seq<nat>) { p.id in ids && p.factory in scope }

  /** `gatePassesForGuard`. */
  function Details(db: seq<DbPass>, scope: set<nat>, ids: seq<nat>): (rows: seq<DbPass>)
    ensures forall p :: p in rows <==> p in db && IsShown(p, scope, ids)
  {
    if db == [] then []
    else
      assert db == db[..|db| - 1] + [db[|db| - 1]];
      var rest, last := Details(db[..|db| - 1], scope, ids), db[|db| - 1];
      if IsShown(last, scope, ids) then rest + [last] else rest
  }

  function Place(ids: seq<nat>, id: nat): nat {
    if ids == [] then 0 else if ids[0] == id then 0 else 1 + Place(ids[1..], id)
  }

  function InsertByPlace(ids: seq<nat>, sorted: seq<DbPass>, p: DbPass): seq<DbPass> {
    if sorted == [] || Place(ids, p.id) < Place(ids, sorted[0].id) then [p] + sorted
    else [sorted[0]] + InsertByPlace(ids, sorted[1..], p)
  }

  /** A stable sort by the place of the id. */
  function ByPlace(ids: seq<nat>, rows: seq<DbPass>): seq<DbPass> {
    if rows == [] then [] else InsertByPlace(ids, ByPlace(ids, rows[..|rows| - 1]), rows[|rows| - 1])
  }

  ghost predicate InPlace(ids: seq<nat>, rows: seq<DbPass>) {
    forall i, j :: 0 <= i < j < |rows| ==> Place(ids, rows[i].id) <= Place(ids, rows[j].id)
  }

  lemma {:induction false} InsertByPlaceKeeps(ids: seq<nat>, sorted: seq<DbPass>, p: DbPass)
    requires InPlace(ids, sorted)
    ensures var r := InsertByPlace(ids, sorted, p); InPlace(ids, r) && forall q :: q in r <==> q in sorted || q == p
  {
    if sorted != [] && Place(ids, p.id) >= Place(ids, sorted[0].id) {
      InsertByPlaceKeeps(ids, sorted[1..], p);
      assert sorted == [sorted[0]] + sorted[1..];
      PrependInPlace(ids, sorted[0], InsertByPlace(ids, sorted[1..], p));
    }
  }

  lemma PrependInPlace(ids: seq<nat>, first: DbPass, rest: seq<DbPass>)
    requires InPlace(ids, rest) && forall q :: q in rest ==> Place(ids, first.id) <= Place(ids, q.id)
    ensures InPlace(ids, [first] + rest)
  {
  }

  lemma {:induction false} ByPlaceSorts(ids: seq<nat>, rows: seq<DbPass>)
    ensures var r := ByPlace(ids, rows); InPlace(ids, r) && forall q :: q in r <==> q in rows
  {
    if rows != [] {
      ByPlaceSorts(ids, rows[..|rows| - 1]);
      InsertByPlaceKeeps(ids, ByPlace(ids, rows[..|rows| - 1]), rows[|rows| - 1]);
      assert rows == rows[..|rows| - 1] + [rows[|rows| - 1]];
    }
  }

  /** What the guard is told: the resolution, unless it was a match and no matched pass is left in scope, and the
      details in the order of the resolution. */
  ghost predicate Answers(r: Resolution, db: seq<DbPass>, scope: set<nat>, answer: Resolution, details: seq<DbPass>) {
    var ids := IdsOf(r);
    var lost := r.Matched? && forall p :: p in db ==> !IsShown(p, scope, ids);
    && answer == (if lost then NotFound else r)
    && InPlace(ids, details) && forall p :: p in details <==> p in db && IsShown(p, scope, ids)
  }

  /** `resolved`: also says whether the cached plates must be dropped. */
  method Answer(r: Resolution, db: seq<DbPass>, scope: set<nat>)
    returns (answer: Resolution, details: seq<DbPass>, invalidated: bool)
    ensures Answers(r, db, scope, answer, details) && (invalidated <==> answer != r)
  {
    var rows := Details(db, scope, IdsOf(r));
    ByPlaceSorts(IdsOf(r), rows);
    details := ByPlace(IdsOf(r), rows);
    invalidated := r.Matched? && details == [];
    if invalidated {
      forall p | p in db ensures !IsShown(p, scope, IdsOf(r)) { assert p !in details; }
    } else if r.Matched? {
      assert details[0] in details;
    }
    answer := if invalidated then NotFound else r;
  }

  /** `match`: the resolution against the cached plates, and the answer with the details as they are now. */
  method Match(info: Reading, read: string, alternatives: seq<Decoder.Alternative>, plates: seq<OpenPlate>,
               db: seq<DbPass>, scope: set<nat>)
    returns (plate: string, r: Resolution, answer: Resolution, details: seq<DbPass>, invalidated: bool)
    ensures plate == PlateGrammar.CanonicalOrRaw(read) && Resolves(info, plate, Tried(alternatives), plates, r)
    ensures Answers(r, db, scope, answer, details) && (invalidated <==> answer != r)
  {
    plate, r := Resolve(info, read, alternatives, plates);
    answer, details, invalidated := Answer(r, db, scope);
  }

  /** Some listed pass of that identity bears the plate. */
  ghost predicate FiledUnder(plates: seq<OpenPlate>, plate: string, id: nat) {
    exists i :: 0 <= i < |plates| && plates[i].plate == plate && plates[i].id == id
  }

  /** A match names exactly the listed passes that bear the plate. */
  lemma MatchedIds(info: Reading, plate: string, tried: seq<string>, plates: seq<OpenPlate>, r: Resolution, id: nat)
    requires Resolves(info, plate, tried, plates, r) && r.Matched?
    ensures id in IdsOf(r) <==> FiledUnder(plates, plate, id)
  {
    FiledAre(plates, plate);
    var ids := PassIds(r.passes);
    if id in ids {
      var i :| 0 <= i < |ids| && ids[i] == id;
      assert r.passes[i] in plates;
      var k :| 0 <= k < |plates| && plates[k] == r.passes[i];
    }
    if FiledUnder(plates, plate, id) {
      var k :| 0 <= k < |plates| && plates[k].plate == plate && plates[k].id == id;
      assert plates[k] in r.passes;
      var i :| 0 <= i < |r.passes| && r.passes[i] == plates[k];
      assert ids[i] == id;
    }
  }

  /** The guard is told of a match exactly when a pass filed under the plate is still in scope, open or not; and is then
      shown exactly those passes. */
  lemma MatchedIffInScope(info: Reading, plate: string, tried: seq<string>, plates: seq<OpenPlate>, r: Resolution,
                          db: seq<DbPass>, scope: set<nat>, answer: Resolution, details: seq<DbPass>)
    requires Resolves(info, plate, tried, plates, r) && Answers(r, db, scope, answer, details)
    ensures answer.Matched? <==> exists p :: p in db && p.factory in scope && FiledUnder(plates, plate, p.id)
    ensures r.Matched? ==>
              forall p :: p in details <==> p in db && p.factory in scope && FiledUnder(plates, plate, p.id)
  {
    if r.Matched? {
      forall p | p in db
        ensures IsShown(p, scope, IdsOf(r)) <==> p.factory in scope && FiledUnder(plates, plate, p.id)
      {
        MatchedIds(info, plate, tried, plates, r, p.id);
      }
    } else {
      forall id ensures !FiledUnder(plates, plate, id) { NoneFiled(info, plate, tried, plates, r, id); }
    }
  }

  lemma NoneFiled(info: Reading, plate: string, tried: seq<string>, plates: seq<OpenPlate>, r: Resolution, id: nat)
    requires Resolves(info, plate, tried, plates, r) && !r.Matched?
    ensures !FiledUnder(plates, plate, id)
  {
    MatchedIffOpen(info, plate, tried, plates, r);
  }

  ghost predicate UniqueIds(db: seq<DbPass>) { forall i, j :: 0 <= i < j < |db| ==> db[i].id != db[j].id }

  lemma SameId(db: seq<DbPass>, p: DbPass, q: DbPass)
    requires UniqueIds(db) && p in db && q in db && p.id == q.id
    ensures p == q
  {
  }

  /** A pass that the loaded plates list under a plate was open then. */
  lemma FiledIsOpen(db: seq<DbPass>, scope: set<nat>, plate: string, id: nat) returns (p: DbPass)
    requires FiledUnder(Query(db, scope), plate, id)
    ensures p in db && IsOpen(p, scope) && p.id == id && PlateGrammar.CanonicalOrRaw(p.plate) == plate
  {
    var plates := Query(db, scope);
    var k :| 0 <= k < |plates| && plates[k].plate == plate && plates[k].id == id;
    QueryIsOpen(db, scope);
    assert ShowsOpen(db, scope, plates[k]);
    p :| p in db && IsOpen(p, scope) && plates[k] == OpenPlateQuery.Shown(p);
  }

  /** Of plates that are up to date, a match stands, and every pass shown is open and bears the plate. */
  lemma FreshMatchIsOpen(info: Reading, plate: string, tried: seq<string>, r: Resolution,
                         db: seq<DbPass>, scope: set<nat>, answer: Resolution, details: seq<DbPass>)
    requires UniqueIds(db) && Resolves(info, plate, tried, Query(db, scope), r) && r.Matched?
    requires Answers(r, db, scope, answer, details)
    ensures answer == r && details != []
    ensures forall p :: p in details ==> IsOpen(p, scope) && PlateGrammar.CanonicalOrRaw(p.plate) == plate
  {
    var plates := Query(db, scope);
    MatchedIffInScope(info, plate, tried, plates, r, db, scope, answer, details);
    forall p | p in details ensures IsOpen(p, scope) && PlateGrammar.CanonicalOrRaw(p.plate) == plate {
      var q := FiledIsOpen(db, scope, plate, p.id);
      SameId(db, p, q);
    }
    MatchedIffOpen(info, plate, tried, plates, r);
    var open :| open in plates && open.plate == plate;
    var k :| 0 <= k < |plates| && plates[k] == open;
    assert FiledUnder(plates, plate, open.id);
    var p := FiledIsOpen(db, scope, plate, open.id);
    assert p in details;
  }

  /** Over every run of the cache: with no change event on its way, what the guard is shown of a match against the
      cached plates is open. */
  lemma QuietMatchIsOpen(db: seq<DbPass>, ttl: int, scopes: nat -> set<nat>, steps: seq<Cache.Step<seq<DbPass>>>,
                         actor: nat, info: Reading, plate: string, tried: seq<string>, r: Resolution,
                         answer: Resolution, details: seq<DbPass>)
    requires var s := Cache.After(db, ttl, QueryIn(scopes), steps);
      && actor in s.cache && s.undelivered == {} && UniqueIds(s.history[|s.history| - 1])
      && Resolves(info, plate, tried, s.cache[actor].plates, r) && r.Matched?
      && Answers(r, s.history[|s.history| - 1], scopes(actor), answer, details)
    ensures answer == r && details != []
    ensures forall p :: p in details ==> IsOpen(p, scopes(actor)) && PlateGrammar.CanonicalOrRaw(p.plate) == plate
  {
    var s := Cache.After(db, ttl, QueryIn(scopes), steps);
    CacheHoldsOpenPasses(db, ttl, scopes, steps, actor);
    FreshMatchIsOpen(info, plate, tried, r, s.history[|s.history| - 1], scopes(actor), answer, details);
  }

  /** Of plates that need not be, a match shows a closed pass exactly when a pass they list under the plate has closed
      since and is still in scope. */
  lemma ShowsClosedIff(info: Reading, plate: string, tried: seq<string>, plates: seq<OpenPlate>, r: Resolution,
                       db: seq<DbPass>, scope: set<nat>, answer: Resolution, details: seq<DbPass>)
    requires Resolves(info, plate, tried, plates, r) && r.Matched? && Answers(r, db, scope, answer, details)
    ensures (exists p :: p in details && !IsOpen(p, scope))
      <==> exists p :: p in db && p.factory in scope && !p.approved && FiledUnder(plates, plate, p.id)
  {
    MatchedIffInScope(info, plate, tried, plates, r, db, scope, answer, details);
  }

  /** A pass that closes after the plates were loaded is still matched, and shown to the guard as it now is. */
  lemma ClosedPassIsShown(plate: string, info: Reading)
    requires PlateGrammar.IsCanonical(plate)
    ensures var open := DbPass(1, plate, 0, true, 0);
      var closed := open.(approved := false);
      var plates := Query([open], {0});
      Resolves(info, plate, [], plates, Matched(plate, plates))
      && Answers(Matched(plate, plates), [closed], {0}, Matched(plate, plates), [closed]) && !IsOpen(closed, {0})
  {
    var open := DbPass(1, plate, 0, true, 0);
    PlateGrammar.CanonicalIsKept(plate);
    QueryOne(open);
    OneMatched(plate, info, OpenPlate(1, plate, 0), open.(approved := false));
  }

  lemma OneMatched(plate: string, info: Reading, open: OpenPlate, row: DbPass)
    requires open.plate == plate && row.id == open.id && row.factory == 0
    ensures Resolves(info, plate, [], [open], Matched(plate, [open]))
    ensures Answers(Matched(plate, [open]), [row], {0}, Matched(plate, [open]), [row])
  {
    assert [open][..0] == [] && Filed([open], plate) == [open];
    assert PassIds([open]) == [open.id] && [open.id][..0] == [] && Once([open.id]) == [open.id];
    assert IsShown(row, {0}, [open.id]);
  }

  lemma QueryOne(open: DbPass)
    requires open.approved && open.factory == 0
    ensures Query([open], {0}) == [OpenPlateQuery.Shown(open)]
  {
    OneRow(open);
    assert Newest([open]) == [open] by { assert [open][..0] == []; }
    ProjectedOne([open]);
  }

  lemma ProjectedOne(rows: seq<DbPass>)
    requires |rows| == 1
    ensures Projected(Limited(rows)) == [OpenPlateQuery.Shown(rows[0])]
  {
  }

  lemma OneRow(open: DbPass)
    requires open.approved && open.factory == 0
    ensures OpenRows([open], {0}) == [open]
  {
    assert [open][..0] == [];
    assert OpenRows([open][..0], {0}) == [];
    assert IsOpen(open, {0});
  }
}
