/** Axis-aligned rectangles in page coordinates, the overlap test the pointer
    handlers use to decide whether a cursor lies over a nested trackpad, and the
    saturating clamp that keeps a cursor inside its screen. */
module Geometry {

  /** A bounding rectangle as the layout reports it: its four edges. */
  datatype Rect = Rect(left: real, top: real, right: real, bottom: real)

  function Width(r: Rect): real { r.right - r.left }

  function Height(r: Rect): real { r.bottom - r.top }

  /** The overlap predicate `isOver`: strict on all four sides, so two
      rectangles that only share an edge do not overlap. For well-ordered
      rectangles it holds exactly when their intersection has positive
      width and height (the left edge of the intersection is the larger of
      the two left edges, its right edge the smaller of the right edges). */
  predicate IsOver(c: Rect, t: Rect): (b: bool)
    ensures Width(c) > 0.0 && Height(c) > 0.0 && Width(t) > 0.0 && Height(t) > 0.0 ==>
      (b <==> Max(c.left, t.left) < Min(c.right, t.right) && Max(c.top, t.top) < Min(c.bottom, t.bottom))
  {
    c.left < t.right && c.right > t.left && c.top < t.bottom && c.bottom > t.top
  }

  /** The point (x, y) lies in the open interior of r. */
  predicate StrictlyInside(x: real, y: real, r: Rect) {
    r.left < x < r.right && r.top < y < r.bottom
  }

  function Max(a: real, b: real): real { if a < b then b else a }

  function Min(a: real, b: real): real { if a < b then a else b }

  lemma IsOverSymmetric(a: Rect, b: Rect)
    ensures IsOver(a, b) <==> IsOver(b, a)
  {
  }

  /** Touching along an edge is not being over. */
  lemma SharedEdgeIsNotOver(a: Rect, b: Rect)
    requires a.right == b.left || a.left == b.right || a.bottom == b.top || a.top == b.bottom
    ensures !IsOver(a, b)
  {
  }

  /** For rectangles of positive area, the strict test holds exactly when some
      point lies in the open interior of both, i.e. the intersection has
      positive area. */
  lemma IsOverIffCommonInteriorPoint(a: Rect, b: Rect)
    requires Width(a) > 0.0 && Height(a) > 0.0 && Width(b) > 0.0 && Height(b) > 0.0
    ensures IsOver(a, b) <==> exists x, y :: StrictlyInside(x, y, a) && StrictlyInside(x, y, b)
  {
    if IsOver(a, b) {
      var x := (Max(a.left, b.left) + Min(a.right, b.right)) / 2.0;
      var y := (Max(a.top, b.top) + Min(a.bottom, b.bottom)) / 2.0;
      assert StrictlyInside(x, y, a) && StrictlyInside(x, y, b);
    }
  }

  /** Saturating clamp of v into [lo, hi] (the two conditional assignments of
      `moveBy`, lower bound first). */
  function Clamp(v: real, lo: real, hi: real): (r: real)
    requires lo <= hi
    ensures lo <= r <= hi
    ensures lo <= v <= hi ==> r == v
  {
    if v < lo then lo else if v > hi then hi else v
  }

  /** The clamp returns the point of [lo, hi] nearest to v. */
  lemma ClampIsNearest(v: real, lo: real, hi: real, w: real)
    requires lo <= hi && lo <= w <= hi
    ensures var r := Clamp(v, lo, hi); (if r < v then v - r else r - v) <= (if w < v then v - w else w - v)
  {
  }

  lemma ClampIdempotent(v: real, lo: real, hi: real)
    requires lo <= hi
    ensures Clamp(Clamp(v, lo, hi), lo, hi) == Clamp(v, lo, hi)
  {
  }
}
