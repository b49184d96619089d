/**
 * Reading a shape's path data: vertices with in and out tangents, joined by
 * cubic curves, and closed back to the first vertex when `c` says so. The
 * JSON reader is replaced by the fields it reads; the point lists are those
 * the point reader makes of `v`, `i` and `o` at the given scale.
 */
module ShapeParsers {
  import opened Wrappers
  import opened Geometry

  /** A cubic segment: two control points and the vertex it ends at. */
  datatype CubicCurve = CubicCurve(cp1: Point, cp2: Point, vertex: Point)

  /** A shape: where it starts, whether it closes, and its curves in order. */
  datatype ShapeData = ShapeData(initialPoint: Point, closed: bool, curves: seq<CubicCurve>)

  /**
   * The fields of a shape object as read: `c` the closed flag (false when
   * missing), and the vertex, in-tangent and out-tangent lists. A field read
   * twice keeps its last value; a missing one is None.
   */
  datatype ShapeFields = ShapeFields(c: bool, v: Option<seq<Point>>, i: Option<seq<Point>>, o: Option<seq<Point>>)

  /** The shape's JSON: the object, bare or wrapped in a one-element array. */
  datatype ShapeJson = ShapeJson(wrapped: bool, fields: ShapeFields)

  const ORIGIN: Point := Point(0.0, 0.0)

  /** `MiscUtils.addPoints`: the componentwise sum. */
  function AddPoints(a: Point, b: Point): Point
  {
    Point(a.x + b.x, a.y + b.y)
  }

  /** The curve from `previous`, leaving by `outTangent`, to `vertex`, arriving by `inTangent`; tangents are relative to their vertex. */
  function Join(previous: Point, outTangent: Point, vertex: Point, inTangent: Point): CubicCurve
  {
    CubicCurve(AddPoints(previous, outTangent), AddPoints(vertex, inTangent), vertex)
  }

  /** The tangent lists are long enough for every read the curves make: in[1..n), out[0..n-1), and in[0], out[n-1] when closed. */
  predicate TangentsCover(n: nat, ins: seq<Point>, outs: seq<Point>, closed: bool)
  {
    (n >= 2 ==> |outs| >= n - 1 && |ins| >= n) && (closed ==> |outs| >= n && |ins| >= 1)
  }

  /** The curves joining the first n vertices in order. */
  function OpenCurves(v: seq<Point>, ins: seq<Point>, outs: seq<Point>, n: nat): (r: seq<CubicCurve>)
    requires n <= |v| && TangentsCover(n, ins, outs, false)
    ensures |r| == if n == 0 then 0 else n - 1
  {
    if n <= 1 then []
    else OpenCurves(v, ins, outs, n - 1) + [Join(v[n - 2], outs[n - 2], v[n - 1], ins[n - 1])]
  }

  /** The curve closing the shape: from the last vertex back to the first. */
  function ClosingCurve(v: seq<Point>, ins: seq<Point>, outs: seq<Point>): CubicCurve
    requires |v| >= 1 && TangentsCover(|v|, ins, outs, true)
  {
    Join(v[|v| - 1], outs[|v| - 1], v[0], ins[0])
  }

  /**
   * The shape the fields describe: missing lists are an illegal argument;
   * no vertices give an open, empty shape at the origin whatever `c` says;
   * tangent lists too short for a read fail on that read; otherwise the
   * shape starts at the first vertex with a curve to each next vertex and,
   * when closed, one back to the first.
   */
  function ShapeOf(f: ShapeFields): (r: Result<ShapeData>)
    ensures f.v.None? || f.i.None? || f.o.None? <==> r == Err(IllegalArgument)
    ensures r.Ok? && f.v.value == [] ==> r.value == ShapeData(ORIGIN, false, [])
    ensures r.Ok? && f.v.value != [] ==>
      && r.value.initialPoint == f.v.value[0] && r.value.closed == f.c
      && |r.value.curves| == |f.v.value| - 1 + (if f.c then 1 else 0)
  {
    if f.v.None? || f.i.None? || f.o.None? then Err(IllegalArgument)
    else
      var v, ins, outs := f.v.value, f.i.value, f.o.value;
      if v == [] then Ok(ShapeData(ORIGIN, false, []))
      else if !TangentsCover(|v|, ins, outs, f.c) then Err(IndexOutOfBounds)
      else
        var open := OpenCurves(v, ins, outs, |v|);
        Ok(ShapeData(v[0], f.c, if f.c then open + [ClosingCurve(v, ins, outs)] else open))
  }

  /** Curve j joins vertex j to vertex j + 1, by the out tangent of the one and the in tangent of the other. */
  lemma {:induction false} OpenCurveAt(v: seq<Point>, ins: seq<Point>, outs: seq<Point>, n: nat, j: nat)
    requires n <= |v| && TangentsCover(n, ins, outs, false) && j + 1 < n
    ensures OpenCurves(v, ins, outs, n)[j] == Join(v[j], outs[j], v[j + 1], ins[j + 1])
  {
    if j + 2 < n {
      OpenCurveAt(v, ins, outs, n - 1, j);
    }
  }

  /** Each curve of a parsed shape, by position: curve j ends at vertex j + 1, and the closing one at vertex 0. */
  lemma ShapeCurves(f: ShapeFields)
    requires ShapeOf(f).Ok? && f.v.value != []
    ensures var (v, ins, outs, s) := (f.v.value, f.i.value, f.o.value, ShapeOf(f).value);
      && (forall j :: 0 <= j < |v| - 1 ==> s.curves[j] == Join(v[j], outs[j], v[j + 1], ins[j + 1]))
      && (f.c ==> s.curves[|v| - 1] == Join(v[|v| - 1], outs[|v| - 1], v[0], ins[0]))
  {
    var (v, ins, outs, s) := (f.v.value, f.i.value, f.o.value, ShapeOf(f).value);
    forall j | 0 <= j < |v| - 1
      ensures s.curves[j] == Join(v[j], outs[j], v[j + 1], ins[j + 1])
    {
      OpenCurveAt(v, ins, outs, |v|, j);
    }
  }

  /** Every curve ends on a vertex, and the last curve of a closed shape ends where the shape starts. */
  lemma ClosedShapeReturns(f: ShapeFields)
    requires ShapeOf(f).Ok? && f.v.value != [] && f.c
    ensures ShapeOf(f).value.curves[|ShapeOf(f).value.curves| - 1].vertex == ShapeOf(f).value.initialPoint
  {
  }

  /**
   * `parse`: checks the lists, then appends the curves to the list one by
   * one, reading the tangents as it goes; a read past the end of a tangent
   * list fails there.
   */
  method Parse(json: ShapeJson) returns (r: Result<ShapeData>)
    ensures r == ShapeOf(json.fields)
  {
    var f := json.fields;
    if f.v.None? || f.i.None? || f.o.None? {
      return Err(IllegalArgument);
    }
    var v, ins, outs := f.v.value, f.i.value, f.o.value;
    if v == [] {
      return Ok(ShapeData(ORIGIN, false, []));
    }
    var length := |v|;
    var curves: seq<CubicCurve> := [];
    for i := 1 to length
      invariant i == 1 || (|outs| >= i - 1 && |ins| >= i)
      invariant curves == OpenCurves(v, ins, outs, i)
    {
      if i - 1 >= |outs| || i >= |ins| {
        return Err(IndexOutOfBounds);
      }
      curves := curves + [Join(v[i - 1], outs[i - 1], v[i], ins[i])];
    }
    if f.c {
      if length - 1 >= |outs| || |ins| == 0 {
        return Err(IndexOutOfBounds);
      }
      curves := curves + [Join(v[length - 1], outs[length - 1], v[0], ins[0])];
    }
    return Ok(ShapeData(v[0], f.c, curves));
  }
}
