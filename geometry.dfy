/**
 * Plain geometric values shared by the animations and the drawing code: a
 * 2D point and a pair of scale factors over reals, the same two over
 * floats (`Float`, with infinities and NaN) for the animated values, and an
 * axis-aligned rectangle.
 */
module Geometry {
  import opened JavaNum

  /** A point; the platform's mutable point is modelled as a value. */
  datatype Point = Point(x: real, y: real)

  /** Horizontal and vertical scale factors. */
  datatype ScaleXY = ScaleXY(scaleX: real, scaleY: real)

  /**
   * A point with float coordinates, infinities and NaN included, as the
   * value callbacks and the split position hand it on.
   */
  datatype FloatPoint = FloatPoint(x: Float, y: Float)

  /** Scale factors as floats, as a scale animation blends them. */
  datatype FloatScaleXY = FloatScaleXY(scaleX: Float, scaleY: Float)

  predicate FinitePoint(p: FloatPoint) { p.x.Num? && p.y.Num? }
  predicate FiniteScale(s: FloatScaleXY) { s.scaleX.Num? && s.scaleY.Num? }

  /** The point moved by (dx, dy), in float arithmetic. */
  function Translate(p: FloatPoint, dx: Float, dy: Float): (r: FloatPoint)
    ensures FinitePoint(p) && dx.Num? && dy.Num? ==>
      FinitePoint(r) && r.x.v - p.x.v == dx.v && r.y.v - p.y.v == dy.v
  {
    FloatPoint(FAdd(p.x, dx), FAdd(p.y, dy))
  }

  /** Interpolation of each coordinate on its own, at the same progress. */
  function LerpPoint(a: FloatPoint, b: FloatPoint, t: Float): (r: FloatPoint)
    ensures FinitePoint(a) && FinitePoint(b) && t == Num(0.0) ==> r == a
    ensures FinitePoint(a) && FinitePoint(b) && t == Num(1.0) ==> r == b
    ensures t == NaN ==> r == FloatPoint(NaN, NaN)
  {
    FloatPoint(FLerp(a.x, b.x, t), FLerp(a.y, b.y, t))
  }

  /** Interpolation of each scale factor on its own, at the same progress. */
  function LerpScale(a: FloatScaleXY, b: FloatScaleXY, t: Float): (r: FloatScaleXY)
    ensures FiniteScale(a) && FiniteScale(b) && t == Num(0.0) ==> r == a
    ensures FiniteScale(a) && FiniteScale(b) && t == Num(1.0) ==> r == b
    ensures t == NaN ==> r == FloatScaleXY(NaN, NaN)
  {
    FloatScaleXY(FLerp(a.scaleX, b.scaleX, t), FLerp(a.scaleY, b.scaleY, t))
  }

  /** An axis-aligned rectangle; the platform's mutable rectangle is modelled as a value. */
  datatype Rect = Rect(left: real, top: real, right: real, bottom: real)

  const EmptyRect: Rect := Rect(0.0, 0.0, 0.0, 0.0)

  function Width(r: Rect): real { r.right - r.left }
  function Height(r: Rect): real { r.bottom - r.top }

  /** Two rectangles overlap in an area of positive size. */
  predicate Intersects(a: Rect, b: Rect)
  {
    a.left < b.right && b.left < a.right && a.top < b.bottom && b.top < a.bottom
  }

  /** The rectangle grown by `d` on every side. */
  function Outset(r: Rect, d: real): (o: Rect)
    ensures Width(o) == Width(r) + 2.0 * d && Height(o) == Height(r) + 2.0 * d
  {
    Rect(r.left - d, r.top - d, r.right + d, r.bottom + d)
  }

  /** The smallest rectangle holding both. */
  function Union(a: Rect, b: Rect): (u: Rect)
    ensures Inside(a, u) && Inside(b, u)
  {
    Rect(Min(a.left, b.left), Min(a.top, b.top), Max(a.right, b.right), Max(a.bottom, b.bottom))
  }

  /** `a` lies within `b`. */
  predicate Inside(a: Rect, b: Rect)
  {
    b.left <= a.left && b.top <= a.top && a.right <= b.right && a.bottom <= b.bottom
  }
}
