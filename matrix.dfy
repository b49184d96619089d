/**
 * 3x3 affine matrices, as the platform's matrix object holds them, and the
 * elementary transforms the animations compose. `pre`-style operations
 * multiply on the right: `m.preConcat(n)` leaves `m * n`.
 *
 * A matrix is kept as the product of the factors applied to it; its nine
 * values, row-major, are `ValuesOf(m)`. Two matrices are interchangeable
 * when `Same(m, n)`. Trigonometry and powers are not modelled; they arrive
 * as a `Trig` record of functions.
 */
module Matrices {

  /** The nine values of a matrix, first row first. */
  datatype Grid = Grid(
    a: real, b: real, c: real,
    d: real, e: real, f: real,
    g: real, h: real, i: real)

  datatype Matrix = Elements(grid: Grid) | Concat(left: Matrix, right: Matrix)

  /** The product of two grids. */
  function Times(x: Grid, y: Grid): Grid
  {
    Grid(
      x.a * y.a + x.b * y.d + x.c * y.g, x.a * y.b + x.b * y.e + x.c * y.h, x.a * y.c + x.b * y.f + x.c * y.i,
      x.d * y.a + x.e * y.d + x.f * y.g, x.d * y.b + x.e * y.e + x.f * y.h, x.d * y.c + x.e * y.f + x.f * y.i,
      x.g * y.a + x.h * y.d + x.i * y.g, x.g * y.b + x.h * y.e + x.i * y.h, x.g * y.c + x.h * y.f + x.i * y.i)
  }

  /** The values a matrix holds. */
  function ValuesOf(m: Matrix): Grid
  {
    match m
    case Elements(g) => g
    case Concat(l, r) => Times(ValuesOf(l), ValuesOf(r))
  }

  /** Both matrices hold the same values. */
  predicate Same(m: Matrix, n: Matrix)
  {
    ValuesOf(m) == ValuesOf(n)
  }

  /** A matrix set from an element array of nine values. */
  function FromElements(v: seq<real>): (m: Matrix)
    requires |v| == 9
    ensures ValuesOf(m) == Grid(v[0], v[1], v[2], v[3], v[4], v[5], v[6], v[7], v[8])
  {
    Elements(Grid(v[0], v[1], v[2], v[3], v[4], v[5], v[6], v[7], v[8]))
  }

  const IdentityGrid: Grid := Grid(1.0, 0.0, 0.0, 0.0, 1.0, 0.0, 0.0, 0.0, 1.0)
  const Identity: Matrix := Elements(IdentityGrid)

  /** `m` followed by `n`: the matrix `m * n`. */
  function Mul(m: Matrix, n: Matrix): Matrix
  {
    Concat(m, n)
  }

  /** The identity is neutral on both sides. */
  lemma MulIdentity(m: Matrix)
    ensures Same(Mul(m, Identity), m) && Same(Mul(Identity, m), m)
  {
    var x := ValuesOf(m);
    assert Times(x, IdentityGrid) == x;
    assert Times(IdentityGrid, x) == x;
  }

  /** A product depends only on the values of its factors. */
  lemma MulSame(m: Matrix, m': Matrix, n: Matrix, n': Matrix)
    requires Same(m, m') && Same(n, n')
    ensures Same(Mul(m, n), Mul(m', n'))
  {
  }

  /** A point (x, y) mapped through an affine grid. */
  function MapPoint(g: Grid, x: real, y: real): (real, real)
  {
    (g.a * x + g.b * y + g.c, g.d * x + g.e * y + g.f)
  }

  /** An affine grid: its last row is 0 0 1. */
  predicate Affine(g: Grid)
  {
    g.g == 0.0 && g.h == 0.0 && g.i == 1.0
  }

  /** Mapping through a product of affine grids maps through the right factor first. */
  lemma MapTimes(x: Grid, y: Grid, px: real, py: real)
    requires Affine(y)
    ensures MapPoint(Times(x, y), px, py) == MapPoint(x, MapPoint(y, px, py).0, MapPoint(y, px, py).1)
  {
    var t := Times(x, y);
    var q := MapPoint(y, px, py);
    MapTimesRow(x.a, x.b, x.c, t.a, t.b, t.c, y, px, py, q.0, q.1);
    MapTimesRow(x.d, x.e, x.f, t.d, t.e, t.f, y, px, py, q.0, q.1);
    MapThrough(t, x, px, py, q.0, q.1);
  }

  /** Two grids that agree on the rows of a point's image map it to the same point. */
  lemma MapThrough(t: Grid, x: Grid, px: real, py: real, qx: real, qy: real)
    requires t.a * px + t.b * py + t.c == x.a * qx + x.b * qy + x.c
    requires t.d * px + t.e * py + t.f == x.d * qx + x.e * qy + x.f
    ensures MapPoint(t, px, py) == MapPoint(x, qx, qy)
  {
    var l, r := MapPoint(t, px, py), MapPoint(x, qx, qy);
    assert l.0 == r.0 && l.1 == r.1;
  }

  /** One row of `MapTimes`: the row (p, q, r) of the left factor makes the row (u, v, w) of the product. */
  lemma MapTimesRow(p: real, q: real, r: real, u: real, v: real, w: real, y: Grid, px: real, py: real, qx: real, qy: real)
    requires Affine(y)
    requires u == p * y.a + q * y.d + r * y.g && v == p * y.b + q * y.e + r * y.h && w == p * y.c + q * y.f + r * y.i
    requires qx == y.a * px + y.b * py + y.c && qy == y.d * px + y.e * py + y.f
    ensures u * px + v * py + w == p * qx + q * qy + r
  {
    calc {
      u * px + v * py + w;
      (p * y.a + q * y.d) * px + (p * y.b + q * y.e) * py + (p * y.c + q * y.f + r);
      p * (y.a * px) + q * (y.d * px) + p * (y.b * py) + q * (y.e * py) + p * y.c + q * y.f + r;
      p * (y.a * px + y.b * py + y.c) + q * (y.d * px + y.e * py + y.f) + r;
      p * qx + q * qy + r;
    }
  }

  /** The cosine, sine and tangent of an angle in degrees, and `pow`, as the platform computes them. */
  datatype Trig = Trig(cosDeg: real -> real, sinDeg: real -> real, tanDeg: real -> real, pow: (real, real) -> real)

  /** Trigonometry exact where the animations rely on it: at 0 and 90 degrees, and `pow` at exponents 0 and 1. */
  ghost predicate Exact(t: Trig)
  {
    && t.cosDeg(0.0) == 1.0 && t.sinDeg(0.0) == 0.0 && t.tanDeg(0.0) == 0.0
    && t.cosDeg(90.0) == 0.0 && t.sinDeg(90.0) == 1.0
    && (forall x :: t.pow(x, 0.0) == 1.0)
    && (forall x :: t.pow(x, 1.0) == x)
  }

  function Translation(dx: real, dy: real): (m: Matrix)
    ensures dx == 0.0 && dy == 0.0 ==> m == Identity
    ensures forall x, y :: MapPoint(ValuesOf(m), x, y) == (x + dx, y + dy)
  {
    Elements(Grid(1.0, 0.0, dx, 0.0, 1.0, dy, 0.0, 0.0, 1.0))
  }

  function Scaling(sx: real, sy: real): (m: Matrix)
    ensures sx == 1.0 && sy == 1.0 ==> m == Identity
  {
    Elements(Grid(sx, 0.0, 0.0, 0.0, sy, 0.0, 0.0, 0.0, 1.0))
  }

  /** A rotation by `degrees` about the origin. */
  function Rotation(t: Trig, degrees: real): (m: Matrix)
    ensures Exact(t) && degrees == 0.0 ==> m == Identity
  {
    var c, s := t.cosDeg(degrees), t.sinDeg(degrees);
    Elements(Grid(c, -s, 0.0, s, c, 0.0, 0.0, 0.0, 1.0))
  }

  /** A rotation by `degrees` about the pivot (px, py): move the pivot to the origin, rotate, move back. */
  function RotationAbout(t: Trig, degrees: real, px: real, py: real): Matrix
  {
    Mul(Translation(px, py), Mul(Rotation(t, degrees), Translation(-px, -py)))
  }

  /** Whatever the angle, a rotation about a pivot leaves the pivot where it is. */
  lemma {:induction false} RotationAboutFixesPivot(t: Trig, degrees: real, px: real, py: real)
    ensures MapPoint(ValuesOf(RotationAbout(t, degrees, px, py)), px, py) == (px, py)
  {
    var back, rot, there := ValuesOf(Translation(px, py)), ValuesOf(Rotation(t, degrees)), ValuesOf(Translation(-px, -py));
    MapTimes(rot, there, px, py);
    assert MapPoint(there, px, py) == (0.0, 0.0);
    MapTimes(back, Times(rot, there), px, py);
  }

  /** A rotation about any pivot by 0 degrees leaves every point where it is. */
  lemma RotationAboutZero(t: Trig, px: real, py: real)
    requires Exact(t)
    ensures Same(RotationAbout(t, 0.0, px, py), Identity)
  {
    var there := ValuesOf(Translation(-px, -py));
    assert Rotation(t, 0.0) == Identity;
    TimesIdentityLeft(there);
    TranslationsCancel(px, py);
  }

  lemma TimesIdentityLeft(g: Grid)
    ensures Times(IdentityGrid, g) == g
  {
  }

  /** Moving by (px, py) undoes moving by (-px, -py). */
  lemma TranslationsCancel(px: real, py: real)
    ensures Times(ValuesOf(Translation(px, py)), ValuesOf(Translation(-px, -py))) == IdentityGrid
  {
    var a := Grid(1.0, 0.0, px, 0.0, 1.0, py, 0.0, 0.0, 1.0);
    var b := Grid(1.0, 0.0, -px, 0.0, 1.0, -py, 0.0, 0.0, 1.0);
    assert Times(a, b) == IdentityGrid;
  }

  /** A rotation about the origin is the plain rotation. */
  lemma RotationAboutOrigin(t: Trig, degrees: real)
    ensures Same(RotationAbout(t, degrees, 0.0, 0.0), Rotation(t, degrees))
  {
    var r := ValuesOf(Rotation(t, degrees));
    assert Times(r, IdentityGrid) == r;
    assert Times(IdentityGrid, r) == r;
  }
}
