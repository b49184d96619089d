/**
 * Reading one keyframe: a static value, a plain keyframe, or a keyframe of
 * a multi-dimensional value whose axes may each be eased by their own
 * curve. The JSON reader is replaced by the fields it reads. Easing curves
 * are known by identity only; those made from control points go through a
 * shared cache of weak references keyed by the hash of the clamped points.
 */
module KeyframeParsers {
  import opened Wrappers
  import opened JavaNum
  import opened Geometry
  import K = Keyframes
  import Composition
  import Utils

  /** The bound a control point's y coordinate is clamped to; its x is clamped into [-1, 1]. */
  const MAX_CP_VALUE: real := 100.0

  /** The one linear curve every linear keyframe shares. */
  const LINEAR: K.Curve := 0

  /** One axis entry of a per-axis control point: a number for both curves, or a pair [x curve, y curve]. */
  datatype AxisEntry = Both(v: real) | Each(forX: real, forY: real)

  /**
   * An `o` or `i` control point as written: an object of per-axis entries
   * `x` and `y`, or any other value. `asPoint` is the point the generic
   * point reader makes of the value, before scaling.
   */
  datatype ControlPointJson =
    | PerAxis(x: Option<AxisEntry>, y: Option<AxisEntry>, asPoint: Point)
    | Other(asPoint: Point)

  /**
   * The fields of a keyframe object as read: `t` the start frame, `s` and
   * `e` the values as the value parser makes them, `o` and `i` the control
   * points, `h` the hold flag, `to` and `ti` the path tangents as written.
   * A field read twice keeps its last value; a missing one is None.
   */
  datatype KeyframeFields<T> = KeyframeFields(
    t: Option<real>, s: Option<T>, e: Option<T>, o: Option<ControlPointJson>, i: Option<ControlPointJson>,
    h: Option<int>, to: Option<Point>, ti: Option<Point>)

  /** A keyframe's JSON: what the value parser reads from it as a whole, and the fields read from it as an object. */
  datatype KeyframeJson<T> = KeyframeJson(value: T, fields: KeyframeFields<T>)

  /** The generic point reader scales both coordinates. */
  function ScalePoint(p: Point, scale: real): Point
  {
    Point(p.x * scale, p.y * scale)
  }

  function ScaleOpt(p: Option<Point>, scale: real): Option<Point>
  {
    if p.Some? then Some(ScalePoint(p.value, scale)) else None
  }

  /** `h` holds the value only when it is exactly 1. */
  predicate Hold<T>(f: KeyframeFields<T>)
  {
    f.h == Some(1)
  }

  function StartFrame<T>(f: KeyframeFields<T>): real
  {
    if f.t.Some? then f.t.value else 0.0
  }

  /** Both control points are per-axis objects. */
  predicate BothPerAxis<T>(f: KeyframeFields<T>)
  {
    f.o.Some? && f.i.Some? && f.o.value.PerAxis? && f.i.value.PerAxis?
  }

  /** Both control points are plain values. */
  predicate BothPlain<T>(f: KeyframeFields<T>)
  {
    f.o.Some? && f.i.Some? && f.o.value.Other? && f.i.value.Other?
  }

  // ---------------------------------------------------------------------
  // oKeyFrame / iKeyFrame

  /** The coordinates one axis entry gives the x curve and the y curve; a missing entry gives 0 to both. */
  function Spread(entry: Option<AxisEntry>): (real, real)
  {
    match entry
    case None => (0.0, 0.0)
    case Some(Both(v)) => (v, v)
    case Some(Each(a, b)) => (a, b)
  }

  /**
   * `oKeyFrame` and `iKeyFrame`: the list [x-curve point, y-curve point,
   * point]. A per-axis object fills the first two, where the `x` entry gives
   * both curve points their x and the `y` entry their y; any other value is
   * read as one point at the given scale into the third.
   */
  function CurvePoints(cp: ControlPointJson, scale: real): (r: seq<Option<Point>>)
    ensures |r| == 3
    ensures cp.PerAxis? <==> r[0].Some? && r[1].Some?
    ensures cp.PerAxis? <==> r[2].None?
  {
    match cp
    case PerAxis(x, y, _) =>
      var (xx, yx) := Spread(x);
      var (xy, yy) := Spread(y);
      [Some(Point(xx, xy)), Some(Point(yx, yy)), None]
    case Other(p) => [None, None, Some(ScalePoint(p, scale))]
  }

  /** A number entry gives both curves the same coordinate; a pair gives each its own. */
  lemma AxisEntriesSpread(cp: ControlPointJson, scale: real)
    requires cp.PerAxis?
    ensures var r := CurvePoints(cp, scale);
      && (cp.x.Some? && cp.x.value.Both? ==> r[0].value.x == cp.x.value.v == r[1].value.x)
      && (cp.x.Some? && cp.x.value.Each? ==> r[0].value.x == cp.x.value.forX && r[1].value.x == cp.x.value.forY)
      && (cp.y.Some? && cp.y.value.Both? ==> r[0].value.y == cp.y.value.v == r[1].value.y)
      && (cp.y.Some? && cp.y.value.Each? ==> r[0].value.y == cp.y.value.forX && r[1].value.y == cp.y.value.forY)
      && (cp.x.None? ==> r[0].value.x == 0.0 == r[1].value.x)
      && (cp.y.None? ==> r[0].value.y == 0.0 == r[1].value.y)
  {
  }

  /**
   * How the multi-dimensional parser reads the `o` list as written:
   * elements 0, 1 and 3. The list has three elements, so the read fails.
   */
  function ReadOAsWritten(points: seq<Option<Point>>): (r: Result<(Option<Point>, Option<Point>, Option<Point>)>)
  {
    if |points| <= 3 then Err(IndexOutOfBounds) else Ok((points[0], points[1], points[3]))
  }

  /** Every `o` field of a multi-dimensional keyframe fails to read as written. */
  lemma OFieldFailsAsWritten(cp: ControlPointJson, scale: real)
    ensures ReadOAsWritten(CurvePoints(cp, scale)) == Err(IndexOutOfBounds)
  {
  }

  /** The control points of an `o` or `i` field, read as elements 0, 1 and 2 of its list; none when absent. */
  function ControlPointsOf(cp: Option<ControlPointJson>, scale: real): (r: (Option<Point>, Option<Point>, Option<Point>))
    ensures cp.None? ==> r == (None, None, None)
    ensures cp.Some? && cp.value.Other? ==> r.0.None? && r.1.None? && r.2 == Some(ScalePoint(cp.value.asPoint, scale))
    ensures cp.Some? && cp.value.PerAxis? ==> r.0.Some? && r.1.Some? && r.2.None?
  {
    if cp.None? then (None, None, None)
    else
      var pts := CurvePoints(cp.value, scale);
      (pts[0], pts[1], pts[2])
  }

  // ---------------------------------------------------------------------
  // The curve cache

  /** Control points clamped as the curve maker takes them: x into [-1, 1], y into [-100, 100]. */
  function ClampControl(p: Point): (r: Point)
    ensures -1.0 <= r.x <= 1.0 && -MAX_CP_VALUE <= r.y <= MAX_CP_VALUE
    ensures -1.0 <= p.x <= 1.0 && -MAX_CP_VALUE <= p.y <= MAX_CP_VALUE ==> r == p
  {
    Point(Clamp(p.x, -1.0, 1.0), Clamp(p.y, -MAX_CP_VALUE, MAX_CP_VALUE))
  }

  /** The cache key of a curve: the hash of its clamped control points. */
  function CurveHash(cp1: Point, cp2: Point): int
  {
    var a, b := ClampControl(cp1), ClampControl(cp2);
    Utils.HashOf([a.x, a.y, b.x, b.y])
  }

  /** Control points that differ only beyond the clamp bounds key the same curve. */
  lemma ClampedPointsShareKey(cp1: Point, cp2: Point)
    ensures CurveHash(ClampControl(cp1), ClampControl(cp2)) == CurveHash(cp1, cp2)
  {
    assert ClampControl(ClampControl(cp1)) == ClampControl(cp1);
    assert ClampControl(ClampControl(cp2)) == ClampControl(cp2);
  }

  /** The weak references of the cache, None once the collector has cleared one. */
  type Refs = map<int, Option<K.Curve>>

  /** The cache holds a curve that is still alive for `h`. */
  predicate Live(refs: Refs, h: int)
  {
    h in refs && refs[h].Some?
  }

  /**
   * A cache lookup for `h` when `made` curves exist: a live curve is reused;
   * otherwise a new curve, numbered `made`, is made and stored. The result
   * is the curve, the references after, and the count after.
   */
  function Lookup(refs: Refs, made: nat, h: int): (r: (K.Curve, Refs, nat))
    ensures Live(r.1, h) && r.1[h] == Some(r.0)
    ensures forall g :: g != h ==> (g in r.1 <==> g in refs) && (g in refs ==> r.1[g] == refs[g])
    ensures made <= r.2 <= made + 1
  {
    if Live(refs, h) then (refs[h].value, refs, made)
    else (made, refs[h := Some(made)], made + 1)
  }

  /** A live curve is reused: the cache and the count stay as they are. */
  lemma LookupReuses(refs: Refs, made: nat, h: int)
    requires Live(refs, h)
    ensures Lookup(refs, made, h) == (refs[h].value, refs, made)
  {
  }

  /** A second lookup of the same key, with nothing collected in between, gives the same curve and changes nothing. */
  lemma LookupAgain(refs: Refs, made: nat, h: int)
    ensures var (c, refs', made') := Lookup(refs, made, h);
      Lookup(refs', made', h) == (c, refs', made')
  {
    var (c, refs', made') := Lookup(refs, made, h);
    LookupReuses(refs', made', h);
  }

  /** Every live curve in the cache was made before, and none is the linear curve. */
  ghost predicate CacheValid(refs: Refs, made: nat)
  {
    LINEAR < made && forall h :: Live(refs, h) ==> LINEAR < refs[h].value < made
  }

  /** A lookup keeps the cache valid; a curve it makes is new, unlike every curve cached before. */
  lemma LookupKeepsValid(refs: Refs, made: nat, h: int)
    requires CacheValid(refs, made)
    ensures var (c, refs', made') := Lookup(refs, made, h);
      && CacheValid(refs', made')
      && c != LINEAR
      && (made' == made + 1 ==> forall g :: Live(refs, g) ==> refs[g].value != c)
  {
    var (c, refs', made') := Lookup(refs, made, h);
    forall g | Live(refs', g)
      ensures LINEAR < refs'[g].value < made'
    {
      if g != h {
        assert Live(refs, g);
      }
    }
  }

  /**
   * The parser's static state: the curve cache and the count of curves
   * made, which numbers the next new curve. Curve 0 is the linear one.
   */
  class KeyframeParser {
    var refs: Refs
    var made: nat

    ghost predicate Valid()
      reads this
    {
      CacheValid(refs, made)
    }

    constructor ()
      ensures refs == map[] && made == LINEAR + 1
      ensures Valid()
    {
      refs, made := map[], LINEAR + 1;
    }

    /** A curve made for one keyframe, outside the cache: new, and never the linear one. */
    method NewCurve() returns (c: K.Curve)
      requires Valid()
      modifies this`made
      ensures Valid()
      ensures c == old(made) && made == old(made) + 1
      ensures c != LINEAR && forall h :: Live(refs, h) ==> refs[h].value != c
    {
      c := made;
      made := made + 1;
    }

    /** The collector clears the weak reference stored for `h`. */
    method Collect(h: int)
      requires Valid() && h in refs
      modifies this`refs
      ensures Valid()
      ensures refs == old(refs)[h := None] && !Live(refs, h)
    {
      refs := refs[h := None];
    }

    /** `interpolatorFor`: the curve for the clamped control points, reused from the cache when still alive. */
    method InterpolatorFor(cp1: Point, cp2: Point) returns (c: K.Curve)
      requires Valid()
      modifies this`refs, this`made
      ensures Valid()
      ensures (c, refs, made) == Lookup(old(refs), old(made), CurveHash(cp1, cp2))
    {
      var a, b := ClampControl(cp1), ClampControl(cp2);
      var hash := Utils.HashFor(a.x, a.y, b.x, b.y);
      LookupKeepsValid(refs, made, hash);
      if hash in refs && refs[hash].Some? {
        c := refs[hash].value;
      } else {
        c := made;
        made := made + 1;
        refs := refs[hash := Some(c)];
      }
    }

    /**
     * `parseKeyframe`: a held keyframe ends on its start value and gets a
     * new curve of its own; otherwise both control points give a cached
     * curve, and anything less the linear one. The end frame is left open.
     */
    method ParseKeyframe<T>(composition: Composition.LottieComposition?, f: KeyframeFields<T>, scale: real)
      returns (k: K.Keyframe<T>)
      requires Valid()
      modifies this`refs, this`made
      ensures Valid() && fresh(k)
      ensures k.composition == composition && k.startFrame == StartFrame(f) && k.endFrame.None?
      ensures k.startValue == f.s && k.endValue == (if Hold(f) then f.s else f.e)
      ensures k.interpolator.Some? && k.xInterpolator.None? && k.yInterpolator.None? && !k.IsStatic()
      ensures Hold(f) ==> k.interpolator.value == old(made) && made == old(made) + 1 && refs == old(refs)
      ensures !Hold(f) && f.o.Some? && f.i.Some? ==>
        (k.interpolator.value, refs, made) == Lookup(old(refs), old(made), CurveHash(f.o.value.asPoint, f.i.value.asPoint))
      ensures !Hold(f) && (f.o.None? || f.i.None?) ==>
        k.interpolator == Some(LINEAR) && refs == old(refs) && made == old(made)
      ensures k.pathCp1 == ScaleOpt(f.to, scale) && k.pathCp2 == ScaleOpt(f.ti, scale)
    {
      var endValue := f.e;
      var interpolator: K.Curve;
      if Hold(f) {
        endValue := f.s;
        interpolator := NewCurve();
      } else if f.o.Some? && f.i.Some? {
        interpolator := InterpolatorFor(f.o.value.asPoint, f.i.value.asPoint);
      } else {
        interpolator := LINEAR;
      }
      k := new K.Keyframe(composition, f.s, endValue, Some(interpolator), StartFrame(f), None);
      k.pathCp1 := ScaleOpt(f.to, scale);
      k.pathCp2 := ScaleOpt(f.ti, scale);
    }

    /**
     * `parseMultiDimensionalKeyframe`, reading `o` as `i` is read: a held
     * keyframe ends on its start value and is linear; two plain control
     * points give one cached curve; two per-axis control points give a
     * cached curve per axis, x first; anything else is linear.
     */
    method ParseMultiDimensionalKeyframe<T>(composition: Composition.LottieComposition?, f: KeyframeFields<T>, scale: real)
      returns (k: K.Keyframe<T>)
      requires Valid()
      modifies this`refs, this`made
      ensures Valid() && fresh(k)
      ensures k.composition == composition && k.startFrame == StartFrame(f) && k.endFrame.None?
      ensures k.startValue == f.s && k.endValue == (if Hold(f) then f.s else f.e)
      ensures !k.IsStatic()
      ensures k.xInterpolator.Some? <==> !Hold(f) && BothPerAxis(f)
      ensures Hold(f) || !(BothPlain(f) || BothPerAxis(f)) ==>
        k.interpolator == Some(LINEAR) && refs == old(refs) && made == old(made)
      ensures !Hold(f) && BothPlain(f) ==>
        && k.interpolator.Some? && k.xInterpolator.None?
        && (k.interpolator.value, refs, made)
        == Lookup(old(refs), old(made), CurveHash(ScalePoint(f.o.value.asPoint, scale), ScalePoint(f.i.value.asPoint, scale)))
      ensures !Hold(f) && BothPerAxis(f) ==>
        var (xo, yo, _) := ControlPointsOf(f.o, scale);
        var (xi, yi, _) := ControlPointsOf(f.i, scale);
        var (xc, refs1, made1) := Lookup(old(refs), old(made), CurveHash(xo.value, xi.value));
        && k.interpolator.None? && k.xInterpolator == Some(xc) && k.yInterpolator.Some?
        && (k.yInterpolator.value, refs, made) == Lookup(refs1, made1, CurveHash(yo.value, yi.value))
      ensures k.pathCp1 == ScaleOpt(f.to, scale) && k.pathCp2 == ScaleOpt(f.ti, scale)
    {
      var (xCp1, yCp1, cp1) := ControlPointsOf(f.o, scale);
      var (xCp2, yCp2, cp2) := ControlPointsOf(f.i, scale);
      var endValue := f.e;
      var interpolator: Option<K.Curve> := None;
      var xInterpolator: Option<K.Curve> := None;
      var yInterpolator: Option<K.Curve> := None;
      if Hold(f) {
        endValue := f.s;
        interpolator := Some(LINEAR);
      } else if cp1.Some? && cp2.Some? {
        var c := InterpolatorFor(cp1.value, cp2.value);
        interpolator := Some(c);
      } else if xCp1.Some? && yCp1.Some? && xCp2.Some? && yCp2.Some? {
        var xc := InterpolatorFor(xCp1.value, xCp2.value);
        var yc := InterpolatorFor(yCp1.value, yCp2.value);
        xInterpolator, yInterpolator := Some(xc), Some(yc);
      } else {
        interpolator := Some(LINEAR);
      }
      if xInterpolator.Some? && yInterpolator.Some? {
        k := new K.Keyframe.Split(composition, f.s, endValue, xInterpolator, yInterpolator, StartFrame(f), None);
      } else {
        k := new K.Keyframe(composition, f.s, endValue, interpolator, StartFrame(f), None);
      }
      k.pathCp1 := ScaleOpt(f.to, scale);
      k.pathCp2 := ScaleOpt(f.ti, scale);
    }

    /** `parseStaticValue`: the value at both ends, no curve, the whole progress range. */
    method ParseStaticValue<T>(value: T) returns (k: K.Keyframe<T>)
      ensures fresh(k)
      ensures k.startValue == Some(value) && k.endValue == Some(value) && k.IsStatic()
      ensures k.composition == null
      ensures K.StartProgressOf(k.composition, k.startFrame) == Num(0.0)
      ensures K.EndProgressOf(k.composition, k.startFrame, k.endFrame) == Num(1.0)
    {
      k := new K.Keyframe.Static(value);
    }

    /**
     * `parse`: an animated multi-dimensional value goes to the
     * multi-dimensional parser, an animated one to the plain parser, and
     * anything else is read as a static value.
     */
    method Parse<T>(composition: Composition.LottieComposition?, json: KeyframeJson<T>, scale: real,
                    animated: bool, multiDimensional: bool)
      returns (k: K.Keyframe<T>)
      requires Valid()
      modifies this`refs, this`made
      ensures Valid() && fresh(k)
      ensures !animated ==>
        && k.IsStatic() && k.startValue == Some(json.value) && k.endValue == Some(json.value)
        && refs == old(refs) && made == old(made)
      ensures animated ==>
        && !k.IsStatic() && k.composition == composition && k.startFrame == StartFrame(json.fields)
        && k.startValue == json.fields.s
        && k.endValue == (if Hold(json.fields) then json.fields.s else json.fields.e)
      ensures animated && !multiDimensional ==> k.xInterpolator.None? && k.yInterpolator.None?
      ensures animated && multiDimensional ==>
        (k.xInterpolator.Some? <==> !Hold(json.fields) && BothPerAxis(json.fields))
    {
      if animated && multiDimensional {
        k := ParseMultiDimensionalKeyframe(composition, json.fields, scale);
      } else if animated {
        k := ParseKeyframe(composition, json.fields, scale);
      } else {
        k := ParseStaticValue(json.value);
      }
    }
  }
}
