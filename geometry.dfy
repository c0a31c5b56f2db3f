/**
 * Core Graphics values over the reals: `CGPoint`, `CGVector` and `CGRect`,
 * with the rectangle accessors the transition reads (min/max/mid, width,
 * height, `contains`) and the point helpers it uses (difference, squared
 * Euclidean distance, clamping into a rectangle).
 */
module Geometry {
  datatype Point = Point(x: real, y: real)
  datatype Vector = Vector(dx: real, dy: real)

  /** A rectangle as Core Graphics stores it: the size may be negative. */
  datatype Rect = Rect(origin: Point, width: real, height: real)

  const Zero := Point(0.0, 0.0)

  function Min(a: real, b: real): real { if a <= b then a else b }
  function Max(a: real, b: real): real { if a <= b then b else a }
  function Abs(a: real): (r: real)
    ensures r >= 0.0 && (r == a || r == -a)
  {
    if a < 0.0 then -a else a
  }

  // The accessors standardise the rectangle first, as `CGRect.minX` etc. do.
  function MinX(r: Rect): real { Min(r.origin.x, r.origin.x + r.width) }
  function MaxX(r: Rect): real { Max(r.origin.x, r.origin.x + r.width) }
  function MinY(r: Rect): real { Min(r.origin.y, r.origin.y + r.height) }
  function MaxY(r: Rect): real { Max(r.origin.y, r.origin.y + r.height) }

  /** `CGRect.width`: the width of the standardised rectangle. */
  function Width(r: Rect): (w: real)
    ensures w >= 0.0 && w == MaxX(r) - MinX(r) && w == Abs(r.width)
  {
    Abs(r.width)
  }

  function Height(r: Rect): (h: real)
    ensures h >= 0.0 && h == MaxY(r) - MinY(r) && h == Abs(r.height)
  {
    Abs(r.height)
  }

  /** `CGRect.center`: the midpoint of the rectangle. */
  function Center(r: Rect): (c: Point)
    ensures MinX(r) <= c.x <= MaxX(r) && MinY(r) <= c.y <= MaxY(r)
    ensures c.x - MinX(r) == MaxX(r) - c.x && c.y - MinY(r) == MaxY(r) - c.y
  {
    Point((MinX(r) + MaxX(r)) / 2.0, (MinY(r) + MaxY(r)) / 2.0)
  }

  /**
   * `CGRect.contains(_:)`: a point is inside when it lies in the interior or on
   * the minimum-x or minimum-y side, so an empty rectangle contains nothing.
   */
  predicate Contains(r: Rect, p: Point) {
    MinX(r) <= p.x < MaxX(r) && MinY(r) <= p.y < MaxY(r)
  }


  /** Point subtraction `a - b`, componentwise. */
  function Sub(a: Point, b: Point): (d: Point)
    ensures Point(b.x + d.x, b.y + d.y) == a
  {
    Point(a.x - b.x, a.y - b.y)
  }

  /** The square of the Euclidean distance; it orders pairs as the distance does. */
  function SqDist(a: Point, b: Point): (d: real)
    ensures d >= 0.0
    ensures a == b ==> d == 0.0
  {
    var dx := a.x - b.x;
    var dy := a.y - b.y;
    SumOfSquaresSign(dx, dy);
    dx * dx + dy * dy
  }

  lemma SquareSign(a: real)
    ensures a * a >= 0.0
    ensures a != 0.0 ==> a * a > 0.0
  {
    if a < 0.0 {
      assert a * a == (-a) * (-a);
    }
  }

  lemma SumOfSquaresSign(dx: real, dy: real)
    ensures dx * dx + dy * dy >= 0.0
  {
    SquareSign(dx);
    SquareSign(dy);
  }

  /** Clamping of one coordinate into `[lo, hi]`. */
  function ClampReal(a: real, lo: real, hi: real): (r: real)
    requires lo <= hi
    ensures lo <= r <= hi
    ensures lo <= a <= hi ==> r == a
    ensures a < lo ==> r == lo
    ensures hi < a ==> r == hi
  {
    if a < lo then lo else if hi < a then hi else a
  }

  /** `CGPoint.clamp(_:)`: the nearest point of the closed rectangle. */
  function Clamp(p: Point, r: Rect): (c: Point)
    ensures MinX(r) <= c.x <= MaxX(r) && MinY(r) <= c.y <= MaxY(r)
    ensures Contains(r, p) ==> c == p
  {
    Point(ClampReal(p.x, MinX(r), MaxX(r)), ClampReal(p.y, MinY(r), MaxY(r)))
  }
}
