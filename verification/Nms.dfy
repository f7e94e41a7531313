/**
 * Greedy suppression of overlapping plate boxes, and the overlapping tiles the detector scans.
 */
module Nms {

  datatype Box = Box(x1: real, y1: real, x2: real, y2: real)

  const EPSILON: real := 0.000000001

  function Max(a: real, b: real): real { if a >= b then a else b }

  function Min(a: real, b: real): real { if a <= b then a else b }

  function Area(b: Box): real { (b.x2 - b.x1) * (b.y2 - b.y1) }

  function Intersection(a: Box, b: Box): real {
    Max(0.0, Min(a.x2, b.x2) - Max(a.x1, b.x1)) * Max(0.0, Min(a.y2, b.y2) - Max(a.y1, b.y1))
  }

  /** The overlap of two boxes is at most the threshold.  A zero denominator compares as not within it. */
  predicate Within(a: Box, b: Box, threshold: real) { Fits(Intersection(a, b), Area(a) + Area(b), threshold) }

  predicate Fits(shared: real, areas: real, threshold: real) {
    var union := areas - shared + EPSILON;
    union != 0.0 && shared / union <= threshold
  }

  lemma WithinSymmetric(a: Box, b: Box, threshold: real)
    ensures Within(a, b, threshold) == Within(b, a, threshold)
  {
    assert Intersection(a, b) == Intersection(b, a) && Area(a) + Area(b) == Area(b) + Area(a);
  }

  // ---------------------------------------------------------------- the loop

  /** Which pairs of boxes may both be kept. */
  type Compatible = (nat, nat) -> bool

  function WithinPair(boxes: seq<Box>, threshold: real): Compatible {
    (i: nat, j: nat) => i < |boxes| && j < |boxes| && Within(boxes[i], boxes[j], threshold)
  }

  function Filter(order: seq<nat>, ok: Compatible, best: nat): seq<nat> {
    if order == [] then []
    else
      var rest, last := Filter(order[..|order| - 1], ok, best), order[|order| - 1];
      if ok(best, last) then rest + [last] else rest
  }

  lemma {:induction false} FilterShrinks(order: seq<nat>, ok: Compatible, best: nat)
    ensures |Filter(order, ok, best)| <= |order|
  {
    if order != [] { FilterShrinks(order[..|order| - 1], ok, best); }
  }

  /** Keeping the best of the order and everything compatible with it, over and over. */
  function Greedy(order: seq<nat>, ok: Compatible): seq<nat>
    decreases |order|
  {
    if order == [] then []
    else
      FilterShrinks(order[1..], ok, order[0]);
      [order[0]] + Greedy(Filter(order[1..], ok, order[0]), ok)
  }

  /** `nms`: the remaining order strictly shrinks while the best of it is kept. */
  method Suppress(boxes: seq<Box>, threshold: real, sorted: seq<nat>) returns (keep: seq<nat>)
    ensures keep == Greedy(sorted, WithinPair(boxes, threshold))
  {
    var order := sorted;
    var ok := WithinPair(boxes, threshold);
    keep := [];
    while order != []
      invariant keep + Greedy(order, ok) == Greedy(sorted, ok)
      decreases |order|
    {
      var best := order[0];
      keep := keep + [best];
      FilterShrinks(order[1..], ok, best);
      order := Remaining(order[1..], ok, best);
    }
  }

  /** The rest of the order that is compatible with the best. */
  method Remaining(order: seq<nat>, ok: Compatible, best: nat) returns (remaining: seq<nat>)
    ensures remaining == Filter(order, ok, best)
  {
    remaining := [];
    for k := 0 to |order|
      invariant remaining == Filter(order[..k], ok, best)
    {
      assert order[..k + 1] == order[..k] + [order[k]];
      if ok(best, order[k]) { remaining := remaining + [order[k]]; }
    }
    assert order[..|order|] == order;
  }

  // ---------------------------------------------------------------- what is kept

  ghost predicate Distinct(order: seq<nat>) { forall i, j :: 0 <= i < j < |order| ==> order[i] != order[j] }

  /** Best scores first. */
  ghost predicate Descending(order: seq<nat>, score: nat -> real) {
    forall i, j :: 0 <= i < j < |order| ==> score(order[i]) >= score(order[j])
  }

  /** A subsequence: what it keeps is in the order, and stays distinct and descending. */
  lemma {:induction false} FilterMembers(order: seq<nat>, ok: Compatible, best: nat)
    ensures forall i :: i in Filter(order, ok, best) <==> i in order && ok(best, i)
  {
    if order != [] {
      FilterMembers(order[..|order| - 1], ok, best);
      assert order == order[..|order| - 1] + [order[|order| - 1]];
    }
  }

  lemma {:induction false} FilterKeeps(order: seq<nat>, ok: Compatible, best: nat, score: nat -> real)
    requires Distinct(order) && Descending(order, score)
    ensures var r := Filter(order, ok, best);
      Distinct(r) && Descending(r, score) && forall i :: i in r <==> i in order && ok(best, i)
  {
    FilterMembers(order, ok, best);
    if order != [] {
      var init, last := order[..|order| - 1], order[|order| - 1];
      FilterKeeps(init, ok, best, score);
      LastIsLeast(order, score);
      AppendKeeps(Filter(init, ok, best), last, score);
    }
  }

  lemma LastIsLeast(order: seq<nat>, score: nat -> real)
    requires order != [] && Distinct(order) && Descending(order, score)
    ensures forall i :: i in order[..|order| - 1] ==> i != order[|order| - 1] && score(i) >= score(order[|order| - 1])
  {
  }

  lemma AppendKeeps(rest: seq<nat>, last: nat, score: nat -> real)
    requires Distinct(rest) && Descending(rest, score) && forall i :: i in rest ==> i != last && score(i) >= score(last)
    ensures Distinct(rest + [last]) && Descending(rest + [last], score)
  {
  }

  ghost predicate PairwiseCompatible(keep: seq<nat>, ok: Compatible) {
    forall i, j :: 0 <= i < j < |keep| ==> ok(keep[i], keep[j])
  }

  /** A box was dropped because of a kept box of at least its score. */
  ghost predicate Suppressed(keep: seq<nat>, ok: Compatible, score: nat -> real, d: nat) {
    exists k :: k in keep && score(k) >= score(d) && !ok(k, d)
  }

  lemma {:induction false} GreedySelects(order: seq<nat>, ok: Compatible, score: nat -> real)
    requires Distinct(order) && Descending(order, score)
    ensures var keep := Greedy(order, ok);
      && Distinct(keep) && Descending(keep, score) && PairwiseCompatible(keep, ok)
      && forall k :: k in keep ==> k in order
    decreases |order|
  {
    if order != [] {
      var best, rest := order[0], order[1..];
      assert order == [best] + rest;
      FilterKeeps(rest, ok, best, score);
      FilterShrinks(rest, ok, best);
      GreedySelects(Filter(rest, ok, best), ok, score);
      FirstIsBest(order, score);
      BestFirst(best, Greedy(Filter(rest, ok, best), ok), ok, score);
    }
  }

  lemma FirstIsBest(order: seq<nat>, score: nat -> real)
    requires order != [] && Distinct(order) && Descending(order, score)
    ensures forall i :: i in order[1..] ==> i != order[0] && score(order[0]) >= score(i)
  {
  }

  lemma BestFirst(best: nat, kept: seq<nat>, ok: Compatible, score: nat -> real)
    requires Distinct(kept) && Descending(kept, score) && PairwiseCompatible(kept, ok)
    requires forall k :: k in kept ==> k != best && score(best) >= score(k) && ok(best, k)
    ensures Distinct([best] + kept) && Descending([best] + kept, score) && PairwiseCompatible([best] + kept, ok)
  {
  }

  lemma {:induction false} GreedyExplains(order: seq<nat>, ok: Compatible, score: nat -> real, d: nat)
    requires Distinct(order) && Descending(order, score) && d in order && d !in Greedy(order, ok)
    ensures Suppressed(Greedy(order, ok), ok, score, d)
    decreases |order|
  {
    var best, rest := order[0], order[1..];
    var remaining := Filter(rest, ok, best);
    var kept := Greedy(remaining, ok);
    FilterKeeps(rest, ok, best, score);
    FilterShrinks(rest, ok, best);
    var k :| 0 <= k < |order| && order[k] == d;
    assert best in [best] + kept;
    assert rest[k - 1] == d;
    if ok(best, d) {
      GreedyExplains(remaining, ok, score, d);
    }
  }

  /** The greedy selection is separated, and explains everything it drops. */
  lemma GreedyKeeps(order: seq<nat>, ok: Compatible, score: nat -> real)
    requires Distinct(order) && Descending(order, score)
    ensures var keep := Greedy(order, ok);
      && Distinct(keep) && Descending(keep, score) && PairwiseCompatible(keep, ok)
      && (forall k :: k in keep ==> k in order)
      && (forall d :: d in order && d !in keep ==> Suppressed(keep, ok, score, d))
  {
    GreedySelects(order, ok, score);
    forall d | d in order && d !in Greedy(order, ok) ensures Suppressed(Greedy(order, ok), ok, score, d) {
      GreedyExplains(order, ok, score, d);
    }
  }

  /** Boxes that are all compatible are all kept. */
  lemma {:induction false} CompatibleStays(order: seq<nat>, ok: Compatible)
    requires PairwiseCompatible(order, ok)
    ensures Greedy(order, ok) == order
    decreases |order|
  {
    if order != [] {
      FilterAll(order[1..], ok, order[0]);
      CompatibleStays(order[1..], ok);
    }
  }

  lemma {:induction false} FilterAll(order: seq<nat>, ok: Compatible, best: nat)
    requires forall i :: 0 <= i < |order| ==> ok(best, order[i])
    ensures Filter(order, ok, best) == order
  {
    if order != [] {
      FilterAll(order[..|order| - 1], ok, best);
      assert order == order[..|order| - 1] + [order[|order| - 1]];
    }
  }

  /** The order `argsort` gives: every index once, best scores first, ties in any order. */
  ghost predicate SortsDescending(order: seq<nat>, scores: seq<real>) {
    && Distinct(order) && (forall i: nat :: i in order <==> i < |scores|)
    && forall i, j :: 0 <= i < j < |order| && order[i] < |scores| && order[j] < |scores| ==>
      scores[order[i]] >= scores[order[j]]
  }

  function ScoreOf(scores: seq<real>): nat -> real { (i: nat) => if i < |scores| then scores[i] else 0.0 }

  /** Non-maximum suppression: distinct boxes in descending score, pairwise within the threshold; and every dropped box
      overlaps a kept one of at least its score beyond the threshold. */
  lemma NmsKeeps(boxes: seq<Box>, scores: seq<real>, threshold: real, order: seq<nat>)
    requires |boxes| == |scores| && SortsDescending(order, scores)
    ensures var keep := Greedy(order, WithinPair(boxes, threshold));
      && Distinct(keep) && (forall i :: 0 <= i < |keep| ==> keep[i] < |boxes|)
      && (forall i, j :: 0 <= i < j < |keep| ==>
            scores[keep[i]] >= scores[keep[j]] && Within(boxes[keep[i]], boxes[keep[j]], threshold))
      && (forall d: nat :: d < |boxes| && d !in keep ==>
            exists k :: k in keep && k < |boxes| && scores[k] >= scores[d] && !Within(boxes[k], boxes[d], threshold))
  {
    var ok, score := WithinPair(boxes, threshold), ScoreOf(scores);
    var keep := Greedy(order, ok);
    forall i | 0 <= i < |order| ensures order[i] < |scores| { assert order[i] in order; }
    GreedyKeeps(order, ok, score);
    forall i | 0 <= i < |keep| ensures keep[i] < |boxes| { assert keep[i] in order; }
    forall i, j | 0 <= i < j < |keep|
      ensures scores[keep[i]] >= scores[keep[j]] && Within(boxes[keep[i]], boxes[keep[j]], threshold)
    {
      assert ok(keep[i], keep[j]) && score(keep[i]) >= score(keep[j]);
    }
    forall d: nat | d < |boxes| && d !in keep
      ensures exists k :: k in keep && k < |boxes| && scores[k] >= scores[d] && !Within(boxes[k], boxes[d], threshold)
    {
      assert Suppressed(keep, ok, score, d);
      var k :| k in keep && score(k) >= score(d) && !ok(k, d);
      assert k in order;
    }
  }

  // ---------------------------------------------------------------- merging detections

  datatype Detection = Detection(box: Box, conf: real)

  function BoxesOf(dets: seq<Detection>): seq<Box> { seq(|dets|, i requires 0 <= i < |dets| => dets[i].box) }

  function ConfidencesOf(dets: seq<Detection>): seq<real> { seq(|dets|, i requires 0 <= i < |dets| => dets[i].conf) }

  ghost predicate Separated(dets: seq<Detection>, threshold: real) {
    forall i, j :: 0 <= i < j < |dets| ==> dets[i].conf >= dets[j].conf && Within(dets[i].box, dets[j].box, threshold)
  }

  /** Every detection left out overlaps a merged one of at least its confidence beyond the threshold. */
  ghost predicate Absorbs(merged: seq<Detection>, dets: seq<Detection>, threshold: real) {
    forall d :: d in dets && d !in merged ==> AbsorbedIn(merged, d, threshold)
  }

  ghost predicate AbsorbedIn(merged: seq<Detection>, d: Detection, threshold: real) {
    exists k :: k in merged && k.conf >= d.conf && !Within(k.box, d.box, threshold)
  }

  /** Suppression over detections gathered from several scales and tiles. */
  method MergeDetections(dets: seq<Detection>, threshold: real, order: seq<nat>) returns (merged: seq<Detection>)
    requires SortsDescending(order, ConfidencesOf(dets))
    ensures Separated(merged, threshold) && Absorbs(merged, dets, threshold)
    ensures forall d :: d in merged ==> d in dets
  {
    if |dets| < 2 { return dets; }
    var keep := Suppress(BoxesOf(dets), threshold, order);
    NmsKeeps(BoxesOf(dets), ConfidencesOf(dets), threshold, order);
    merged := [];
    for i := 0 to |keep|
      invariant |merged| == i && forall k :: 0 <= k < i ==> merged[k] == dets[keep[k]]
    {
      merged := merged + [dets[keep[i]]];
    }
    PickedMerges(dets, threshold, order, keep, merged);
  }

  lemma PickedMerges(dets: seq<Detection>, threshold: real, order: seq<nat>, keep: seq<nat>, merged: seq<Detection>)
    requires SortsDescending(order, ConfidencesOf(dets)) && keep == Greedy(order, WithinPair(BoxesOf(dets), threshold))
    requires |merged| == |keep| && forall k :: 0 <= k < |keep| ==> keep[k] < |dets| && merged[k] == dets[keep[k]]
    ensures Separated(merged, threshold) && Absorbs(merged, dets, threshold)
  {
    NmsKeeps(BoxesOf(dets), ConfidencesOf(dets), threshold, order);
    forall d | d in dets && d !in merged ensures AbsorbedIn(merged, d, threshold) {
      var n :| 0 <= n < |dets| && dets[n] == d;
      PickedAbsorbs(dets, threshold, order, keep, merged, n);
    }
  }

  lemma PickedIn(dets: seq<Detection>, keep: seq<nat>, merged: seq<Detection>, n: nat)
    requires |merged| == |keep| && forall k :: 0 <= k < |keep| ==> keep[k] < |dets| && merged[k] == dets[keep[k]]
    requires n < |dets| && n in keep
    ensures dets[n] in merged
  {
    var j :| 0 <= j < |keep| && keep[j] == n;
    assert merged[j] in merged;
  }

  lemma PickedAbsorbs(dets: seq<Detection>, threshold: real, order: seq<nat>, keep: seq<nat>, merged: seq<Detection>,
          n: nat)
    requires SortsDescending(order, ConfidencesOf(dets)) && keep == Greedy(order, WithinPair(BoxesOf(dets), threshold))
    requires |merged| == |keep| && forall k :: 0 <= k < |keep| ==> keep[k] < |dets| && merged[k] == dets[keep[k]]
    requires n < |dets| && dets[n] !in merged
    ensures AbsorbedIn(merged, dets[n], threshold)
  {
    var boxes, confidences := BoxesOf(dets), ConfidencesOf(dets);
    NmsKeeps(boxes, confidences, threshold, order);
    if n in keep { PickedIn(dets, keep, merged, n); }
    var k :| k in keep && k < |boxes| && confidences[k] >= confidences[n] && !Within(boxes[k], boxes[n], threshold);
    var j :| 0 <= j < |keep| && keep[j] == k;
    assert merged[j] == dets[k] && merged[j] in merged;
  }

  /** Merging what was merged keeps every detection, whatever the order of ties. */
  lemma MergedStays(dets: seq<Detection>, threshold: real, order: seq<nat>)
    requires Separated(dets, threshold) && SortsDescending(order, ConfidencesOf(dets))
    ensures Greedy(order, WithinPair(BoxesOf(dets), threshold)) == order
  {
    var ok := WithinPair(BoxesOf(dets), threshold);
    forall i, j | 0 <= i < j < |order| ensures ok(order[i], order[j]) {
      assert order[i] in order && order[j] in order;
      if order[i] < order[j] {
        assert Within(dets[order[i]].box, dets[order[j]].box, threshold);
      } else {
        assert Within(dets[order[j]].box, dets[order[i]].box, threshold);
        WithinSymmetric(dets[order[i]].box, dets[order[j]].box, threshold);
      }
    }
    CompatibleStays(order, ok);
  }

  // ---------------------------------------------------------------- tiles

  datatype Tile = Tile(x: int, y: int, w: int, h: int)

  function TileSize(extent: int, fraction: real): int {
    var size := (extent as real * fraction).Floor;
    if size > 1 then size else 1
  }

  /** Where the tiles of one axis begin. */
  function Offsets(extent: int, size: int): seq<int> {
    if extent == size then [0] else if extent > size then [0, extent - size] else [extent - size, 0]
  }

  method TileWindows(width: int, height: int, fraction: real) returns (tiles: seq<Tile>)
    ensures forall t :: t in tiles <==>
      t.w == TileSize(width, fraction) && t.h == TileSize(height, fraction) && t.x in Offsets(width, t.w)
        && t.y in Offsets(height, t.h)
  {
    var tw, th := TileSize(width, fraction), TileSize(height, fraction);
    var xs, ys := Offsets(width, tw), Offsets(height, th);
    tiles := [];
    for j := 0 to |ys|
      invariant forall t :: t in tiles <==> t.w == tw && t.h == th && t.x in xs && t.y in ys[..j]
    {
      assert ys[..j + 1] == ys[..j] + [ys[j]];
      for i := 0 to |xs|
        invariant forall t :: t in tiles <==>
          t.w == tw && t.h == th && ((t.x in xs && t.y in ys[..j]) || (t.x in xs[..i] && t.y == ys[j]))
      {
        assert xs[..i + 1] == xs[..i] + [xs[i]];
        tiles := tiles + [Tile(xs[i], ys[j], tw, th)];
      }
      assert xs[..|xs|] == xs;
    }
    assert ys[..|ys|] == ys;
  }

  /** Some tile of one axis holds the position. */
  predicate Covers(extent: int, size: int, p: int) {
    exists o :: o in Offsets(extent, size) && o <= p < o + size
  }

  ghost predicate CoversAll(extent: int, size: int) {
    forall p :: 0 <= p < extent ==> Covers(extent, size, p)
  }

  /** Two tiles cover an axis exactly when twice their size does. */
  lemma TwoTilesCover(extent: int, size: int)
    requires 1 <= size <= extent
    ensures CoversAll(extent, size) <==> 2 * size >= extent
    ensures forall o :: o in Offsets(extent, size) ==> 0 <= o && o + size <= extent
  {
    var os := Offsets(extent, size);
    if 2 * size >= extent {
      forall p | 0 <= p < extent ensures Covers(extent, size, p) {
        if p < size { assert os[0] in os && os[0] <= p < os[0] + size; } else { assert os[1] in os
          && os[1] <= p < os[1] + size; }
      }
    } else {
      assert !Covers(extent, size, size) by {
        forall o | o in os ensures !(o <= size < o + size) { assert o == 0 || o == extent - size; }
      }
    }
  }

  const FRACTION: real := 0.62

  /** The default tiles lie in the image, and cover every pixel of it exactly when neither side is three pixels. */
  lemma DefaultTilesCover(width: int, height: int)
    requires width >= 1 && height >= 1
    ensures var tw, th := TileSize(width, FRACTION), TileSize(height, FRACTION);
      && (CoversAll(width, tw) && CoversAll(height, th) <==> width != 3 && height != 3)
      && (forall o :: o in Offsets(width, tw) ==> 0 <= o && o + tw <= width)
      && (forall o :: o in Offsets(height, th) ==> 0 <= o && o + th <= height)
  {
    TwoTilesCover(width, TileSize(width, FRACTION));
    TwoTilesCover(height, TileSize(height, FRACTION));
  }
}
