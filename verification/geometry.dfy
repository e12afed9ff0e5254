/** The shared rectangle behaviour of every game entity (`RectEntity`). */
module Geometry {

  /** An axis-aligned rectangle with top-left corner (x, y), width w and
      height h, in canvas units. */
  datatype Rect = Rect(x: real, y: real, w: real, h: real) {

    function CenterX(): real { x + w / 2.0 }

    function CenterY(): real { y + h / 2.0 }

    /** Every rectangle the game builds has a positive width and height. */
    predicate HasArea() { w > 0.0 && h > 0.0 }
  }

  /** `RectEntity.intersects`: the rectangles overlap unless one of the four
      separating conditions holds. */
  predicate Intersects(a: Rect, b: Rect) {
    !(a.x + a.w <= b.x ||
      a.x >= b.x + b.w ||
      a.y + a.h <= b.y ||
      a.y >= b.y + b.h)
  }

  /** The point (px, py) lies strictly inside r. */
  predicate StrictlyInside(px: real, py: real, r: Rect) {
    r.x < px < r.x + r.w && r.y < py < r.y + r.h
  }

  function Max(a: real, b: real): real { if a >= b then a else b }

  function Min(a: real, b: real): real { if a <= b then a else b }

  /** Overlap does not depend on which rectangle asks. */
  lemma IntersectsSymmetric(a: Rect, b: Rect)
    ensures Intersects(a, b) <==> Intersects(b, a)
  {
  }

  /** Rectangles that only share (part of) an edge do not overlap. */
  lemma TouchingEdgesDoNotOverlap(a: Rect, b: Rect)
    requires a.x + a.w == b.x || b.x + b.w == a.x || a.y + a.h == b.y || b.y + b.h == a.y
    ensures !Intersects(a, b)
  {
  }

  /** For rectangles with area, `Intersects` is exactly "some point lies
      strictly inside both": an independent, geometric reading of the four
      separation tests. */
  lemma IntersectsIffCommonInteriorPoint(a: Rect, b: Rect)
    requires a.HasArea() && b.HasArea()
    ensures Intersects(a, b) <==>
            exists px: real, py: real :: StrictlyInside(px, py, a) && StrictlyInside(px, py, b)
  {
    if Intersects(a, b) {
      var px := (Max(a.x, b.x) + Min(a.x + a.w, b.x + b.w)) / 2.0;
      var py := (Max(a.y, b.y) + Min(a.y + a.h, b.y + b.h)) / 2.0;
      assert StrictlyInside(px, py, a) && StrictlyInside(px, py, b);
    }
  }
}
