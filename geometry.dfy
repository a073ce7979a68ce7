/** Axis-aligned rectangles and the intersection test used by box selection. */
module Geometry {
  import opened Common

  datatype Rect = Rect(x: real, y: real, width: real, height: real)

  /** The closed interval [lo1, hi1] meets [lo2, hi2]. */
  predicate Overlap(lo1: real, hi1: real, lo2: real, hi2: real)
  {
    Max(lo1, lo2) <= Min(hi1, hi2)
  }

  /**
   * `rectsIntersect(a, b)`: true unless one rectangle lies strictly to one side of the
   * other. Rectangles that only touch along an edge intersect; for rectangles of
   * non-negative size this is exactly "the projections on both axes overlap".
   */
  function RectsIntersect(a: Rect, b: Rect): (r: bool)
    ensures a.width >= 0.0 && a.height >= 0.0 && b.width >= 0.0 && b.height >= 0.0 ==>
              (r <==> (Overlap(a.x, a.x + a.width, b.x, b.x + b.width) &&
                       Overlap(a.y, a.y + a.height, b.y, b.y + b.height)))
  {
    !(a.x + a.width < b.x || a.x > b.x + b.width || a.y + a.height < b.y || a.y > b.y + b.height)
  }

  /** The test does not depend on the order of its arguments. */
  lemma {:induction false} IntersectSymmetric(a: Rect, b: Rect)
    ensures RectsIntersect(a, b) == RectsIntersect(b, a)
  {
  }
}
