/**
 * When two boxes overlap too much, told from the stretches of their sides, and where the tiles of an image are.
 */
module NmsOutcomes {
  import opened Nms

  predicate IsBox(b: Box) { b.x1 <= b.x2 && b.y1 <= b.y2 }

  /** How much two stretches of a line have in common: one inside the other, one reaching into the other, or nothing. */
  function Common(a1: real, a2: real, b1: real, b2: real): real {
    if b1 <= a1 && a2 <= b2 then a2 - a1
    else if a1 <= b1 && b2 <= a2 then b2 - b1
    else if a1 < b1 < a2 then a2 - b1
    else if b1 < a1 < b2 then b2 - a1
    else 0.0
  }

  function Shared(a: Box, b: Box): real { Common(a.x1, a.x2, b.x1, b.x2) * Common(a.y1, a.y2, b.y1, b.y2) }

  function Surface(b: Box): real { (b.x2 - b.x1) * (b.y2 - b.y1) }

  /** The area of both boxes together. */
  function Together(a: Box, b: Box): real { Surface(a) + Surface(b) - Shared(a, b) }

  /** At most that fraction of an area, which counts as a billionth more. */
  predicate IsPart(shared: real, threshold: real, area: real) { shared <= threshold * (area + 0.000000001) }

  lemma CommonIs(a1: real, a2: real, b1: real, b2: real)
    requires a1 <= a2 && b1 <= b2
    ensures Max(0.0, Min(a2, b2) - Max(a1, b1)) == Common(a1, a2, b1, b2)
    ensures 0.0 <= Common(a1, a2, b1, b2) <= a2 - a1
  {
  }

  lemma SharedIs(a: Box, b: Box)
    requires IsBox(a) && IsBox(b)
    ensures Intersection(a, b) == Shared(a, b)
  {
    CommonIs(a.x1, a.x2, b.x1, b.x2);
    CommonIs(a.y1, a.y2, b.y1, b.y2);
  }

  lemma ProductAtMost(a: real, b: real, c: real, d: real)
    requires 0.0 <= a <= c && 0.0 <= b <= d
    ensures 0.0 <= a * b <= c * d
  {
    assert a * b <= c * b by { assert (c - a) * b >= 0.0; }
    assert c * b <= c * d by { assert c * (d - b) >= 0.0; }
  }

  lemma SurfaceNotNegative(b: Box)
    requires IsBox(b)
    ensures Surface(b) >= 0.0
  {
    ProductAtMost(0.0, 0.0, b.x2 - b.x1, b.y2 - b.y1);
  }

  lemma SharedAtMost(a: Box, b: Box)
    requires IsBox(a) && IsBox(b)
    ensures 0.0 <= Shared(a, b) <= Surface(a)
  {
    var width, height := Common(a.x1, a.x2, b.x1, b.x2), Common(a.y1, a.y2, b.y1, b.y2);
    assert 0.0 <= width <= a.x2 - a.x1 by { CommonIs(a.x1, a.x2, b.x1, b.x2); }
    assert 0.0 <= height <= a.y2 - a.y1 by { CommonIs(a.y1, a.y2, b.y1, b.y2); }
    assert Shared(a, b) == width * height && Surface(a) == (a.x2 - a.x1) * (a.y2 - a.y1);
    ProductAtMost(width, height, a.x2 - a.x1, a.y2 - a.y1);
  }

  lemma AtMostTimes(part: real, whole: real, threshold: real)
    requires whole > 0.0
    ensures part / whole <= threshold <==> part <= threshold * whole
  {
    var ratio := part / whole;
    assert ratio * whole == part;
    if ratio <= threshold { assert (threshold - ratio) * whole >= 0.0; }
    if ratio > threshold { assert (ratio - threshold) * whole > 0.0; }
  }

  lemma FitsIff(shared: real, areas: real, threshold: real)
    requires areas - shared >= 0.0
    ensures Fits(shared, areas, threshold) <==> IsPart(shared, threshold, areas - shared)
  {
    AtMostTimes(shared, areas - shared + 0.000000001, threshold);
  }

  lemma AreaIs(b: Box)
    ensures Area(b) == Surface(b)
  {
  }

  lemma WithinFits(a: Box, b: Box, threshold: real)
    ensures Within(a, b, threshold) <==> Fits(Intersection(a, b), Area(a) + Area(b), threshold)
  {
  }

  /** Two boxes may both be kept exactly if what they share is at most that fraction of their area together, which
      counts as a billionth more. */
  lemma WithinIff(a: Box, b: Box, threshold: real)
    requires IsBox(a) && IsBox(b)
    ensures Within(a, b, threshold) <==> IsPart(Shared(a, b), threshold, Together(a, b))
  {
    var shared, surfaces := Shared(a, b), Surface(a) + Surface(b);
    assert Within(a, b, threshold) <==> Fits(shared, surfaces, threshold) by {
      WithinFits(a, b, threshold);
      SharedIs(a, b);
      AreaIs(a);
      AreaIs(b);
    }
    SharedAtMost(a, b);
    SurfaceNotNegative(b);
    FitsIff(shared, surfaces, threshold);
  }

  /** So boxes that are apart are both kept, and of two equal boxes of at least one pixel one is dropped. */
  lemma ApartOrEqual(a: Box, b: Box, threshold: real)
    requires IsBox(a) && IsBox(b) && 0.0 <= threshold <= 0.9
    ensures a.x2 <= b.x1 || a.y2 <= b.y1 ==> Within(a, b, threshold)
    ensures a == b && Surface(a) >= 1.0 ==> !Within(a, b, threshold)
  {
    WithinIff(a, b, threshold);
    SharedAtMost(a, b);
    SurfaceNotNegative(b);
    if a.x2 <= b.x1 || a.y2 <= b.y1 {
      SharedNothing(a, b);
      NothingIsPart(threshold, Together(a, b));
    } else if a == b && Surface(a) >= 1.0 {
      WholeIsNoPart(threshold, Surface(a));
    }
  }

  lemma NothingIsPart(threshold: real, area: real)
    requires threshold >= 0.0 && area >= 0.0
    ensures IsPart(0.0, threshold, area)
  {
  }

  lemma WholeIsNoPart(threshold: real, area: real)
    requires threshold <= 0.9 && area >= 1.0
    ensures !IsPart(area, threshold, area)
  {
    assert (0.9 - threshold) * (area + 0.000000001) >= 0.0;
  }

  lemma SharedNothing(a: Box, b: Box)
    requires IsBox(a) && IsBox(b) && (a.x2 <= b.x1 || a.y2 <= b.y1)
    ensures Shared(a, b) == 0.0
  {
    if a.x2 <= b.x1 {
      assert Common(a.x1, a.x2, b.x1, b.x2) == 0.0;
    } else {
      assert Common(a.y1, a.y2, b.y1, b.y2) == 0.0;
    }
  }

  /** An axis has a tile at its beginning and one at its end, in order, which are one tile if they are the same; by
      default tiles are the largest whole number of pixels in 62 hundredths of the axis, but at least one. */
  lemma TilesAre(extent: int, size: int)
    requires 1 <= size <= extent
    ensures var offsets := Offsets(extent, size);
      && (forall o :: o in offsets <==> o == 0 || o == extent - size)
      && (forall i, j :: 0 <= i < j < |offsets| ==> offsets[i] < offsets[j])
    ensures size == TileSize(extent, FRACTION) <==>
              if extent == 1 then size == 1 else 100 * size <= 62 * extent < 100 * (size + 1)
  {
  }
}
