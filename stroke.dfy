/**
 * The base stroke content: the animations it registers, the path groups it
 * builds from the contents after it (each opened by a trim path that trims
 * shapes individually), the paint it sets up when drawing (alpha, width,
 * dash pattern, colour filter), its padded bounds and its value callbacks.
 */
module Strokes {
  import opened Wrappers
  import opened JavaNum
  import opened Geometry
  import opened Matrices
  import opened Contents
  import opened PaintContents
  import L = Layers
  import P = Properties

  /** Paths stroked together, under the trim path that trims them, if any. */
  datatype PathGroup = PathGroup(trimPath: Option<Content>, paths: seq<Content>)

  /** A dash pattern: alternating dash and gap lengths, and the phase. */
  datatype DashEffect = DashEffect(intervals: seq<real>, phase: real)

  /** What one `draw` strokes: a group's paths joined, or a group handed to the trim-path drawing. */
  datatype StrokeOp = StrokePath(path: Path) | StrokeTrimmed(group: nat)

  predicate IndividualTrim(c: Content)
  {
    c.trim == TrimIndividually
  }

  /** The first trim path of `s` that trims individually. */
  function FirstIndividual(s: seq<Content>): (r: Option<Content>)
    ensures r.Some? ==> r.value in s && IndividualTrim(r.value)
  {
    if s == [] then None
    else if IndividualTrim(s[0]) then Some(s[0])
    else FirstIndividual(s[1..])
  }

  /** The chosen trim path is the one with the lowest index: none stands before it, and none is missed. */
  lemma {:induction false} FirstIndividualIsFirst(s: seq<Content>)
    ensures FirstIndividual(s).None? <==> forall i :: 0 <= i < |s| ==> !IndividualTrim(s[i])
    ensures FirstIndividual(s).Some? ==>
      exists i :: 0 <= i < |s| && s[i] == FirstIndividual(s).value && forall k :: 0 <= k < i ==> !IndividualTrim(s[k])
  {
    if s != [] && !IndividualTrim(s[0]) {
      FirstIndividualIsFirst(s[1..]);
      if FirstIndividual(s).Some? {
        var i :| 0 <= i < |s[1..]| && s[1..][i] == FirstIndividual(s).value && forall k :: 0 <= k < i ==> !IndividualTrim(s[1..][k]);
        assert s[i + 1] == FirstIndividual(s).value;
        assert forall k :: 0 <= k < i + 1 ==> !IndividualTrim(s[k]) by {
          forall k | 0 <= k < i + 1 ensures !IndividualTrim(s[k]) {
            if k > 0 {
              assert s[k] == s[1..][k - 1];
            }
          }
        }
      } else {
        forall i | 0 <= i < |s| ensures !IndividualTrim(s[i]) {
          if i > 0 {
            assert s[i] == s[1..][i - 1];
          }
        }
      }
    }
  }

  /** The state of the backward scan over the contents after the stroke: the closed groups and the open one. */
  datatype Scan = Scan(groups: seq<PathGroup>, current: Option<PathGroup>)

  /** One content of the backward scan. */
  function Step(st: Scan, c: Content, before: Option<Content>): Scan
  {
    if IndividualTrim(c) then Scan(st.groups + AsSeq(st.current), Some(PathGroup(Some(c), [])))
    else if c.isPath then
      var g := if st.current.Some? then st.current.value else PathGroup(before, []);
      Scan(st.groups, Some(g.(paths := g.paths + [c])))
    else st
  }

  /** The scan once it has gone back from the end of `after` to position `i`. */
  function ScanFrom(after: seq<Content>, i: nat, before: Option<Content>): Scan
    requires i <= |after|
    decreases |after| - i
  {
    if i == |after| then Scan([], None) else Step(ScanFrom(after, i + 1, before), after[i], before)
  }

  /** The path groups `setContents` builds. */
  function Grouped(after: seq<Content>, before: Option<Content>): seq<PathGroup>
  {
    var st := ScanFrom(after, 0, before);
    st.groups + AsSeq(st.current)
  }

  /** The contents the stroke strokes: paths that are not individual trim paths. */
  function Stroked(s: seq<Content>): seq<Content>
  {
    if s == [] then [] else (if !IndividualTrim(s[0]) && s[0].isPath then [s[0]] else []) + Stroked(s[1..])
  }

  /** The individual trim paths of `s`, in order. */
  function IndividualTrims(s: seq<Content>): seq<Content>
  {
    if s == [] then [] else (if IndividualTrim(s[0]) then [s[0]] else []) + IndividualTrims(s[1..])
  }

  /** All paths of the groups, group after group. */
  function GroupPaths(groups: seq<PathGroup>): seq<Content>
  {
    if groups == [] then [] else GroupPaths(groups[..|groups| - 1]) + groups[|groups| - 1].paths
  }

  function ScanPaths(st: Scan): seq<Content>
  {
    GroupPaths(st.groups) + (if st.current.Some? then st.current.value.paths else [])
  }

  lemma GroupPathsAppend(groups: seq<PathGroup>, g: Option<PathGroup>)
    ensures GroupPaths(groups + AsSeq(g)) == GroupPaths(groups) + (if g.Some? then g.value.paths else [])
  {
    if g.Some? {
      assert (groups + [g.value])[..|groups|] == groups;
    } else {
      assert groups + [] == groups;
    }
  }

  /** Every stroked path of the scanned part is in exactly one group, in the order the scan met them. */
  lemma {:induction false} ScanPathsAre(after: seq<Content>, i: nat, before: Option<Content>)
    requires i <= |after|
    ensures ScanPaths(ScanFrom(after, i, before)) == Reversed(Stroked(after[i..]))
    decreases |after| - i
  {
    if i < |after| {
      ScanPathsAre(after, i + 1, before);
      var st := ScanFrom(after, i + 1, before);
      var c := after[i];
      assert after[i..] == [c] + after[i + 1..];
      assert ([c] + after[i + 1..])[1..] == after[i + 1..];
      var head := if !IndividualTrim(c) && c.isPath then [c] else [];
      assert Stroked(after[i..]) == head + Stroked(after[i + 1..]);
      ReversedAppend(head, Stroked(after[i + 1..]));
      if IndividualTrim(c) {
        GroupPathsAppend(st.groups, st.current);
      } else if c.isPath {
        assert Reversed(head) == [c];
        var g := if st.current.Some? then st.current.value else PathGroup(before, []);
        AppendAssoc(GroupPaths(st.groups), g.paths, [c]);
      }
    }
  }

  /** The groups together hold exactly the stroked paths after the stroke, last first. */
  lemma GroupedPaths(after: seq<Content>, before: Option<Content>)
    ensures GroupPaths(Grouped(after, before)) == Reversed(Stroked(after))
  {
    var st := ScanFrom(after, 0, before);
    ScanPathsAre(after, 0, before);
    GroupPathsAppend(st.groups, st.current);
    assert after[0..] == after;
  }

  /** Every group is trimmed by the trim path before the stroke or by an individual trim path after it. */
  lemma {:induction false} ScanTrims(after: seq<Content>, i: nat, before: Option<Content>)
    requires i <= |after|
    ensures var st := ScanFrom(after, i, before);
      forall g :: g in st.groups + AsSeq(st.current) ==>
        g.trimPath == before || (g.trimPath.Some? && g.trimPath.value in after && IndividualTrim(g.trimPath.value))
    decreases |after| - i
  {
    if i < |after| {
      ScanTrims(after, i + 1, before);
    }
  }

  /** The trim-path subscriptions of the backward scan: every individual trim path after the stroke, last first. */
  function TrimListens(after: seq<Content>, i: nat): seq<PaintCall>
    requires i <= |after|
    decreases |after| - i
  {
    if i == |after| then [] else TrimListens(after, i + 1) + (if IndividualTrim(after[i]) then [ListenToTrim(after[i])] else [])
  }

  /** `dashPatternValues[i]` raised to its floor: 1 for a dash, 0.1 for a gap. */
  function DashFloor(i: nat, v: real): real
  {
    if i % 2 == 0 then (if v < 1.0 then 1.0 else v) else (if v < 0.1 then 0.1 else v)
  }

  /** The dash pattern the paint gets: each value raised to its floor, then scaled. */
  function Dashed(values: seq<real>, scale: real): (r: seq<real>)
    ensures |r| == |values|
  {
    seq(|values|, i requires 0 <= i < |values| => DashFloor(i, values[i]) * scale)
  }

  /** Under a non-negative scale no dash is shorter than one scaled unit and no gap shorter than a tenth, and values above the floor are only scaled. */
  lemma DashedBounds(values: seq<real>, scale: real, i: nat)
    requires 0.0 <= scale && i < |values|
    ensures i % 2 == 0 ==> Dashed(values, scale)[i] >= scale
    ensures i % 2 == 1 ==> Dashed(values, scale)[i] >= 0.1 * scale
    ensures (if i % 2 == 0 then 1.0 else 0.1) <= values[i] ==> Dashed(values, scale)[i] == values[i] * scale
  {
    var v := DashFloor(i, values[i]);
    if i % 2 == 0 {
      assert v * scale - scale == (v - 1.0) * scale;
      MulNonNegative(v - 1.0, scale);
    } else {
      assert v * scale - 0.1 * scale == (v - 0.1) * scale;
      MulNonNegative(v - 0.1, scale);
    }
  }

  lemma MulNonNegative(a: real, b: real)
    requires 0.0 <= a && 0.0 <= b
    ensures 0.0 <= a * b
  {
    if 0.0 < a && 0.0 < b {
      MulPositive(a, b);
    }
  }

  /** The paths of a group in the order `draw` adds them: last first. */
  function BackwardPath(childPaths: seq<Path>, m: Matrix): Path
  {
    AddedPaths(Reversed(childPaths), m)
  }

  /** What `draw` strokes for the groups `i` onward. */
  function GroupOps(groups: seq<PathGroup>, childPaths: seq<seq<Path>>, m: Matrix, i: nat): seq<StrokeOp>
    requires i <= |groups| == |childPaths|
    decreases |groups| - i
  {
    if i == |groups| then []
    else
      var op := if groups[i].trimPath.Some? then StrokeTrimmed(i) else StrokePath(BackwardPath(childPaths[i], m));
      [op] + GroupOps(groups, childPaths, m, i + 1)
  }

  /** One operation per group, in group order; a group is handed to the trim-path drawing exactly when it has a trim path. */
  lemma {:induction false} GroupOpsEach(groups: seq<PathGroup>, childPaths: seq<seq<Path>>, m: Matrix, i: nat, k: nat)
    requires i <= |groups| == |childPaths|
    ensures |GroupOps(groups, childPaths, m, i)| == |groups| - i
    ensures i <= k < |groups| ==>
      GroupOps(groups, childPaths, m, i)[k - i] ==
        if groups[k].trimPath.Some? then StrokeTrimmed(k) else StrokePath(BackwardPath(childPaths[k], m))
    decreases |groups| - i
  {
    if i < |groups| {
      GroupOpsEach(groups, childPaths, m, i + 1, k);
    }
  }

  /** The paths of every group, in group order and list order, as `getBounds` adds them. */
  function BoundsPath(childPaths: seq<seq<Path>>, m: Matrix): Path
  {
    if childPaths == [] then [] else BoundsPath(childPaths[..|childPaths| - 1], m) + AddedPaths(childPaths[|childPaths| - 1], m)
  }

  /** Whether the child paths match the groups, one path per content. */
  predicate Matches(groups: seq<PathGroup>, childPaths: seq<seq<Path>>)
  {
    |childPaths| == |groups| && forall i :: 0 <= i < |groups| ==> |childPaths[i]| == |groups[i].paths|
  }

  class BaseStrokeContent {
    const layer: L.BaseLayer
    const opacityAnimation: L.Animation
    const widthAnimation: L.Animation
    const dashPatternAnimations: seq<L.Animation>
    const dashPatternOffsetAnimation: Option<L.Animation>
    /** The dash values the paint's dash pattern is built from, rewritten on every draw. */
    const dashPatternValues: array<real>
    var pathGroups: seq<PathGroup>
    var colorFilterAnimation: Option<L.Animation>
    /** The paint, as far as the stroke sets it; `None` where it has not. */
    var paintAlpha: Option<real>
    var strokeWidth: Option<real>
    var pathEffect: Option<DashEffect>
    var paintFilter: Option<L.Animation>
    var paintShader: Option<(Shader, Matrix)>
    var calls: seq<PaintCall>

    predicate Valid()
    {
      dashPatternValues.Length == |dashPatternAnimations|
    }

    /** Registers, in order, the opacity, the width, each dash value and the offset with the layer, then listens to them in the same order. */
    constructor (layer: L.BaseLayer, opacity: L.Animation, width: L.Animation, dashPattern: seq<L.Animation>, offset: Option<L.Animation>)
      modifies layer`animations
      ensures Valid()
      ensures this.layer == layer && opacityAnimation == opacity && widthAnimation == width
      ensures dashPatternAnimations == dashPattern && dashPatternOffsetAnimation == offset
      ensures fresh(dashPatternValues) && dashPatternValues[..] == seq(|dashPattern|, _ => 0.0)
      ensures layer.animations == old(layer.animations) + [opacity, width] + dashPattern + AsSeq(offset)
      ensures calls == ListenToEach([opacity, width] + dashPattern + AsSeq(offset))
      ensures pathGroups == [] && colorFilterAnimation.None?
      ensures paintAlpha.None? && strokeWidth.None? && pathEffect.None? && paintFilter.None? && paintShader.None?
    {
      this.layer := layer;
      opacityAnimation, widthAnimation := opacity, width;
      dashPatternAnimations, dashPatternOffsetAnimation := dashPattern, offset;
      dashPatternValues := new real[|dashPattern|](_ => 0.0);
      pathGroups, colorFilterAnimation := [], None;
      paintAlpha, strokeWidth, pathEffect, paintFilter, paintShader := None, None, None, None, None;
      calls := ListenToEach([opacity, width] + dashPattern + AsSeq(offset));
      AddAll(layer, [opacity, width] + dashPattern + AsSeq(offset));
    }

    /** A value the stroke listens to changed: invalidate the drawable. */
    method OnValueChanged()
      modifies this`calls
      ensures calls == old(calls) + [Invalidate]
    {
      calls := calls + [Invalidate];
    }

    /** Listens to further animations, in order (a subclass's own animations). */
    method ListenToAll(anims: seq<L.Animation>)
      modifies this`calls
      ensures calls == old(calls) + ListenToEach(anims)
    {
      calls := calls + ListenToEach(anims);
    }

    /** Gives the paint a shader under `m` (a gradient subclass does, before each draw). */
    method SetShader(shader: Shader, m: Matrix)
      modifies this`paintShader
      ensures paintShader == Some((shader, m))
    {
      paintShader := Some((shader, m));
    }

    /**
     * Subscribes to the individual trim path with the lowest index before the
     * stroke, then scans the contents after it from the end, opening a new
     * group at each individual trim path (subscribing to it) and putting each
     * path into the open group, which is opened under the trim path before
     * the stroke when none is open.
     */
    method SetContents(before: seq<Content>, after: seq<Content>)
      modifies this`pathGroups, this`calls
      ensures pathGroups == old(pathGroups) + Grouped(after, FirstIndividual(before))
      ensures calls == old(calls) + (if FirstIndividual(before).Some? then [ListenToTrim(FirstIndividual(before).value)] else [])
        + TrimListens(after, 0)
    {
      var trimBefore: Option<Content> := None;
      var i := |before|;
      while i > 0
        invariant 0 <= i <= |before|
        invariant trimBefore == FirstIndividual(before[i..])
      {
        i := i - 1;
        assert before[i..] == [before[i]] + before[i + 1..];
        assert ([before[i]] + before[i + 1..])[1..] == before[i + 1..];
        if IndividualTrim(before[i]) {
          trimBefore := Some(before[i]);
        }
      }
      assert before[0..] == before;
      if trimBefore.Some? {
        calls := calls + [ListenToTrim(trimBefore.value)];
      }
      ghost var listened := calls;
      var current: Option<PathGroup> := None;
      ghost var start := pathGroups;
      var j := |after|;
      while j > 0
        invariant 0 <= j <= |after|
        invariant pathGroups == start + ScanFrom(after, j, trimBefore).groups
        invariant current == ScanFrom(after, j, trimBefore).current
        invariant calls == listened + TrimListens(after, j)
      {
        j := j - 1;
        var c := after[j];
        if IndividualTrim(c) {
          if current.Some? {
            pathGroups := pathGroups + [current.value];
          }
          current := Some(PathGroup(Some(c), []));
          calls := calls + [ListenToTrim(c)];
        } else if c.isPath {
          if current.None? {
            current := Some(PathGroup(trimBefore, []));
          }
          current := Some(current.value.(paths := current.value.paths + [c]));
        }
      }
      if current.Some? {
        pathGroups := pathGroups + [current.value];
      }
    }

    /**
     * The dash pattern, when the stroke has dash values: each value the dash
     * animations report, raised to its floor and scaled, written into the
     * dash array; the offset scaled, or 0 without an offset animation.
     */
    method ApplyDashPatternIfNeeded(scale: real, values: seq<real>, offsetValue: real)
      requires Valid() && |values| == |dashPatternAnimations|
      modifies dashPatternValues, this`pathEffect
      ensures |dashPatternAnimations| == 0 ==> dashPatternValues[..] == old(dashPatternValues[..]) && pathEffect == old(pathEffect)
      ensures |dashPatternAnimations| > 0 ==>
        && dashPatternValues[..] == Dashed(values, scale)
        && pathEffect == Some(DashEffect(Dashed(values, scale), if dashPatternOffsetAnimation.Some? then offsetValue * scale else 0.0))
    {
      if |dashPatternAnimations| == 0 {
        return;
      }
      for i := 0 to |dashPatternAnimations|
        invariant forall k :: 0 <= k < i ==> dashPatternValues[k] == DashFloor(k, values[k]) * scale
      {
        dashPatternValues[i] := values[i];
        if i % 2 == 0 {
          if dashPatternValues[i] < 1.0 {
            dashPatternValues[i] := 1.0;
          }
        } else {
          if dashPatternValues[i] < 0.1 {
            dashPatternValues[i] := 0.1;
          }
        }
        dashPatternValues[i] := dashPatternValues[i] * scale;
      }
      forall k | 0 <= k < |values|
        ensures dashPatternValues[..][k] == Dashed(values, scale)[k]
      {
      }
      assert dashPatternValues[..] == Dashed(values, scale);
      var offset := if dashPatternOffsetAnimation.None? then 0.0 else offsetValue * scale;
      pathEffect := Some(DashEffect(dashPatternValues[..], offset));
    }

    /** Strokes the groups in order: trimmed groups go to the trim-path drawing, the others are joined last first under `m`. */
    method StrokeGroups(m: Matrix, childPaths: seq<seq<Path>>) returns (ops: seq<StrokeOp>)
      requires Matches(pathGroups, childPaths)
      ensures ops == GroupOps(pathGroups, childPaths, m, 0)
    {
      ops := [];
      ghost var n := |pathGroups|;
      var i := |pathGroups|;
      while i > 0
        invariant 0 <= i <= n
        invariant ops == GroupOps(pathGroups, childPaths, m, i)
      {
        i := i - 1;
        var op;
        if pathGroups[i].trimPath.Some? {
          op := StrokeTrimmed(i);
        } else {
          var path := JoinBackward(childPaths[i], m);
          op := StrokePath(path);
        }
        ops := [op] + ops;
      }
    }

    /**
     * One `draw`: nothing under a matrix with a zero-scale axis; otherwise
     * the paint gets its alpha and the scaled width, and nothing is stroked
     * when that width is not positive. Then the dash pattern and the colour
     * filter are applied and each group is stroked. `hasZeroScaleAxis`,
     * `scale`, `opacity`, `width`, `dashValues`, `offsetValue` and
     * `childPaths` are what the platform and the animations report.
     */
    method Draw(parentMatrix: Matrix, parentAlpha: real, hasZeroScaleAxis: bool, scale: real, opacity: int, width: real,
                dashValues: seq<real>, offsetValue: real, childPaths: seq<seq<Path>>) returns (ops: seq<StrokeOp>)
      requires Valid() && |dashValues| == |dashPatternAnimations| && Matches(pathGroups, childPaths)
      modifies dashPatternValues, this`pathEffect, this`paintAlpha, this`strokeWidth, this`paintFilter
      ensures hasZeroScaleAxis ==> ops == [] && paintAlpha == old(paintAlpha) && strokeWidth == old(strokeWidth)
      ensures !hasZeroScaleAxis ==> paintAlpha == Some(PaintAlpha(parentAlpha, opacity)) && strokeWidth == Some(width * scale)
      ensures hasZeroScaleAxis || width * scale <= 0.0 ==>
        && ops == [] && pathEffect == old(pathEffect) && paintFilter == old(paintFilter)
        && dashPatternValues[..] == old(dashPatternValues[..])
      ensures !hasZeroScaleAxis && width * scale > 0.0 ==>
        && ops == GroupOps(pathGroups, childPaths, parentMatrix, 0)
        && (|dashPatternAnimations| > 0 ==> pathEffect == Some(DashEffect(Dashed(dashValues, scale),
              if dashPatternOffsetAnimation.Some? then offsetValue * scale else 0.0)))
        && (|dashPatternAnimations| == 0 ==> pathEffect == old(pathEffect))
        && paintFilter == (if colorFilterAnimation.Some? then colorFilterAnimation else old(paintFilter))
    {
      ops := [];
      if hasZeroScaleAxis {
        return;
      }
      paintAlpha := Some(Clamp(parentAlpha / 255.0 * opacity as real / 100.0, 0.0, 1.0));
      strokeWidth := Some(width * scale);
      if width * scale <= 0.0 {
        return;
      }
      ApplyDashPatternIfNeeded(scale, dashValues, offsetValue);
      if colorFilterAnimation.Some? {
        paintFilter := colorFilterAnimation;
      }
      ops := StrokeGroups(parentMatrix, childPaths);
    }

    /**
     * The stroke's bounds: the bounds of its groups' paths, added in order
     * under the parent matrix, grown by half the width and then by 1 more
     * for rounding. `pathBounds` is what the platform computes for the path
     * returned in `measured`; the bounds passed in are overwritten.
     */
    method GetBounds(parentMatrix: Matrix, childPaths: seq<seq<Path>>, pathBounds: Rect, width: real) returns (measured: Path, r: Rect)
      requires Matches(pathGroups, childPaths)
      ensures measured == BoundsPath(childPaths, parentMatrix)
      ensures r == Outset(pathBounds, width / 2.0 + 1.0)
      ensures 0.0 <= width ==> Inside(pathBounds, r)
      ensures Width(r) == Width(pathBounds) + width + 2.0 && Height(r) == Height(pathBounds) + width + 2.0
    {
      measured := [];
      for i := 0 to |childPaths|
        invariant measured == BoundsPath(childPaths[..i], parentMatrix)
      {
        assert childPaths[..i + 1][..i] == childPaths[..i];
        var p := AddPaths(childPaths[i], parentMatrix);
        measured := measured + p;
      }
      assert childPaths[..|childPaths|] == childPaths;
      var rect := Outset(pathBounds, width / 2.0);
      r := Outset(rect, 1.0);
    }

    /**
     * OPACITY and STROKE_WIDTH hand the callback to their animation;
     * COLOR_FILTER swaps the callback animation on the layer. Any other
     * property is ignored.
     */
    method AddValueCallback(p: P.Property, callback: object?)
      modifies this`calls, this`colorFilterAnimation, layer`animations
      ensures p == P.Opacity ==> calls == old(calls) + [SetCallbackOf(opacityAnimation, callback)]
      ensures p == P.StrokeWidth ==> calls == old(calls) + [SetCallbackOf(widthAnimation, callback)]
      ensures p == P.ColorFilter ==>
        && (colorFilterAnimation.Some? <==> callback != null)
        && layer.animations == Swapped(old(layer.animations), old(colorFilterAnimation), colorFilterAnimation)
        && calls == old(calls) + (if colorFilterAnimation.Some? then [ListenTo(colorFilterAnimation.value)] else [])
      ensures p != P.ColorFilter ==> layer.animations == old(layer.animations) && colorFilterAnimation == old(colorFilterAnimation)
      ensures p !in {P.Opacity, P.StrokeWidth, P.ColorFilter} ==> calls == old(calls)
    {
      if p == P.Opacity {
        calls := calls + [SetCallbackOf(opacityAnimation, callback)];
      } else if p == P.StrokeWidth {
        calls := calls + [SetCallbackOf(widthAnimation, callback)];
      } else if p == P.ColorFilter {
        var next, created := SwapCallbackAnimation(layer, colorFilterAnimation, callback);
        colorFilterAnimation := next;
        if next.Some? {
          calls := calls + [ListenTo(next.value)];
        }
      }
    }
  }

  /** Adds each animation to the layer, in order. */
  method AddAll(layer: L.BaseLayer, anims: seq<L.Animation>)
    modifies layer`animations
    ensures layer.animations == old(layer.animations) + anims
  {
    for i := 0 to |anims|
      invariant layer.animations == old(layer.animations) + anims[..i]
    {
      assert anims[..i + 1] == anims[..i] + [anims[i]];
      layer.AddAnimation(Some(anims[i]));
    }
    assert anims[..|anims|] == anims;
  }

  /** Adds a group's paths from the last to the first under `m`. */
  method JoinBackward(childPaths: seq<Path>, m: Matrix) returns (path: Path)
    ensures path == BackwardPath(childPaths, m)
  {
    path := [];
    var j := |childPaths|;
    while j > 0
      invariant 0 <= j <= |childPaths|
      invariant path == AddedPaths(Reversed(childPaths[j..]), m)
    {
      j := j - 1;
      assert childPaths[j..][1..] == childPaths[j + 1..];
      var r := Reversed(childPaths[j..]);
      assert r == Reversed(childPaths[j + 1..]) + [childPaths[j]];
      assert r[..|r| - 1] == Reversed(childPaths[j + 1..]);
      path := path + Transformed(childPaths[j], m);
    }
    assert childPaths[0..] == childPaths;
  }
}
