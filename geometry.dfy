/** Axis-aligned layout boxes and their overlap (the `Box` record, whose `label` field is `kind` here, with its
    `area` and `iou` methods). */
module Geometry {
  import opened Wrappers
  import opened Stats

  /** A detected layout region on one page, in integer pixel coordinates;
      `(x1, y1)` is the top-left corner and `(x2, y2)` the bottom-right one. */
  datatype Box = Box(x1: int, y1: int, x2: int, y2: int, kind: string, score: real, page: int)

  /** A box of positive width and height. */
  predicate WellFormed(b: Box)
  {
    b.x2 > b.x1 && b.y2 > b.y1
  }

  function Clamp(v: int): nat
  {
    if v < 0 then 0 else v
  }

  /** `area`: width and height, each clamped at zero, multiplied. */
  function Area(b: Box): (r: nat)
    ensures WellFormed(b) ==> r == (b.x2 - b.x1) * (b.y2 - b.y1) && r > 0
    ensures r == 0 <==> !WellFormed(b)
  {
    Clamp(b.x2 - b.x1) * Clamp(b.y2 - b.y1)
  }


  /** Length of the common part of the intervals [lo1, hi1] and [lo2, hi2], zero when they do not meet. */
  function Overlap(lo1: int, hi1: int, lo2: int, hi2: int): (r: nat)
    ensures r <= Clamp(hi1 - lo1) && r <= Clamp(hi2 - lo2)
    ensures r == 0 <==> Min(hi1, hi2) <= Max(lo1, lo2)
  {
    Clamp(Min(hi1, hi2) - Max(lo1, lo2))
  }

  /** Boxes that share no interior point: apart along x or along y. */
  predicate Disjoint(a: Box, b: Box)
  {
    a.x2 <= b.x1 || b.x2 <= a.x1 || a.y2 <= b.y1 || b.y2 <= a.y1
  }

  lemma MulMono(a: nat, b: nat, c: nat, d: nat)
    requires a <= c && b <= d
    ensures a * b <= c * d
  {
    assert a * b <= c * b;
    assert c * b <= c * d;
  }

  /** Intersection area: the larger of the tops and lefts, the smaller of the
      bottoms and rights, each axis clamped at zero before multiplying. */
  function Intersection(a: Box, b: Box): (r: nat)
    ensures r <= Area(a) && r <= Area(b)
    ensures r == 0 <==> Disjoint(a, b) || !WellFormed(a) || !WellFormed(b)
  {
    var w := Overlap(a.x1, a.x2, b.x1, b.x2);
    var h := Overlap(a.y1, a.y2, b.y1, b.y2);
    MulMono(w, h, Clamp(a.x2 - a.x1), Clamp(a.y2 - a.y1));
    MulMono(w, h, Clamp(b.x2 - b.x1), Clamp(b.y2 - b.y1));
    w * h
  }

  /** Union area: both areas less the part counted twice. */
  function Union(a: Box, b: Box): (r: int)
    ensures r >= Area(a) && r >= Area(b)
    ensures r == 0 <==> !WellFormed(a) && !WellFormed(b)
  {
    Area(a) + Area(b) - Intersection(a, b)
  }

  /** `iou`: intersection over union; `None` where the division by a zero
      union raises, which happens exactly when both boxes are degenerate. */
  function IoU(a: Box, b: Box): (r: Option<real>)
    ensures r.Some? <==> WellFormed(a) || WellFormed(b)
    ensures r.Some? ==> 0.0 <= r.value <= 1.0
  {
    var u := Union(a, b);
    if u == 0 then None
    else
      var i := Intersection(a, b);
      DivBounds(i as real, u as real, 0.0, 1.0);
      Some((i as real) / (u as real))
  }

  /** `iou` meets the threshold: defined and at least `t`. */
  predicate IoUAtLeast(a: Box, b: Box, t: real)
  {
    IoU(a, b).Some? && IoU(a, b).value >= t
  }

  /** A well-formed box overlaps itself completely. */
  lemma IoUSelf(a: Box)
    requires WellFormed(a)
    ensures IoU(a, a) == Some(1.0)
  {
    assert Intersection(a, a) == Area(a);
    assert Union(a, a) == Area(a) > 0;
    var r := Area(a) as real;
    assert r / r == 1.0;
  }

  /** Overlap does not depend on the order of the two boxes. */
  lemma IoUSymmetric(a: Box, b: Box)
    ensures Intersection(a, b) == Intersection(b, a)
    ensures IoU(a, b) == IoU(b, a)
  {
    assert Overlap(a.x1, a.x2, b.x1, b.x2) == Overlap(b.x1, b.x2, a.x1, a.x2);
    assert Overlap(a.y1, a.y2, b.y1, b.y2) == Overlap(b.y1, b.y2, a.y1, a.y2);
  }

  /** Boxes apart along either axis have IoU 0 whenever it is defined. */
  lemma IoUDisjoint(a: Box, b: Box)
    requires Disjoint(a, b)
    requires WellFormed(a) || WellFormed(b)
    ensures IoU(a, b) == Some(0.0)
  {
  }

  /** Boxes that share interior points have positive IoU. */
  lemma IoUOverlapping(a: Box, b: Box)
    requires WellFormed(a) && WellFormed(b) && !Disjoint(a, b)
    ensures IoU(a, b).Some? && IoU(a, b).value > 0.0
  {
  }

  // ---------------------------------------------------------------------------
  // The formula as written in `iou`, for the discrepancies listed in README.md.

  /** Line 118 multiplies an `int` by the tuple `(y_min2, y_max1)`; `max(0, <tuple>)`
      then raises `TypeError`, so as written `iou` returns on no input. */
  function WrittenIoU(a: Box, b: Box): Option<real>
  {
    None
  }

  lemma WrittenIoURaisesOnSelf(a: Box)
    requires WellFormed(a)
    ensures WrittenIoU(a, a) == None && IoU(a, a) == Some(1.0)
  {
    IoUSelf(a);
  }

  /** The intersection as written once the tuple is read as the difference
      `y_min2 - y_max1`: the vertical extent ends at the LARGER bottom, and the
      product rather than each axis is clamped at zero. */
  function WrittenIntersection(a: Box, b: Box): (r: int)
    ensures WellFormed(a) && WellFormed(b) ==> r >= Intersection(a, b)
    ensures WellFormed(a) && WellFormed(b) && a.y2 == b.y2 ==> r == Intersection(a, b)
  {
    var xMax1 := Max(a.x1, b.x1);
    var xMin2 := Min(a.x2, b.x2);
    var yMax1 := Max(a.y1, b.y1);
    var yMin2 := Max(a.y2, b.y2);
    if WellFormed(a) && WellFormed(b) then
      WrittenCovers(xMin2 - xMax1, yMin2 - yMax1, Overlap(a.x1, a.x2, b.x1, b.x2), Overlap(a.y1, a.y2, b.y1, b.y2));
      Clamp((xMin2 - xMax1) * (yMin2 - yMax1))
    else Clamp((xMin2 - xMax1) * (yMin2 - yMax1))
  }

  /** A product with one side clamped and the other enlarged is no smaller. */
  lemma WrittenCovers(dx: int, dy: int, w: nat, h: nat)
    requires w == Clamp(dx) && h <= dy
    ensures Clamp(dx * dy) >= w * h
    ensures h == dy ==> Clamp(dx * dy) == w * h
  {
    if dx > 0 {
      MulMono(w, h, w, dy);
    }
  }

  /** Two 10x10 boxes stacked one above the other, 10 pixels apart, get a
      positive intersection as written, where the boxes do not meet. */
  lemma WrittenIntersectionOfStackedBoxes()
    ensures var a, b := Box(0, 0, 10, 10, "text", 0.9, 0), Box(0, 20, 10, 30, "text", 0.8, 0);
      Disjoint(a, b) && WrittenIntersection(a, b) == 100 && Intersection(a, b) == 0
  {
  }
}
