/**
 * The base of every layer: the animations it drives, its visibility, its
 * parent chain, and the decisions its `draw` takes for masks and mattes.
 *
 * What the layer asks of other objects (its animations, the drawable it
 * invalidates, its matte layer) is kept as a log of calls; a canvas is the
 * sequence of operations issued on it. What a layer kind reports about its
 * own content (its bounds) and what the animations currently hold (opacity,
 * mask paths) are passed in.
 */
module Layers {
  import opened Wrappers
  import opened JavaNum
  import opened Geometry
  import opened Matrices
  import T = Transform
  import P = Properties

  /** The layer types a layer model declares. */
  datatype LayerType = ShapeType | PreCompType | SolidType | ImageType | NullType | TextType | UnknownType

  /** The layer classes a model is turned into. */
  datatype LayerKind = ShapeLayer | CompositionLayer | SolidLayer | ImageLayer | NullLayer | TextLayer

  /** The type a layer class is built for. */
  function TypeOf(k: LayerKind): LayerType
  {
    match k
    case ShapeLayer => ShapeType
    case CompositionLayer => PreCompType
    case SolidLayer => SolidType
    case ImageLayer => ImageType
    case NullLayer => NullType
    case TextLayer => TextType
  }

  /** The layer class for a model's type; none (with a warning) for an unknown type. */
  function ForModel(t: LayerType): (r: Option<LayerKind>)
    ensures r.None? <==> t == UnknownType
    ensures r.Some? ==> TypeOf(r.value) == t
  {
    match t
    case ShapeType => Some(ShapeLayer)
    case PreCompType => Some(CompositionLayer)
    case SolidType => Some(SolidLayer)
    case ImageType => Some(ImageLayer)
    case NullType => Some(NullLayer)
    case TextType => Some(TextLayer)
    case UnknownType => None
  }

  /** Every layer class is what its own type is turned into. */
  lemma ForModelOfType(k: LayerKind)
    ensures ForModel(TypeOf(k)) == Some(k)
  {
  }

  /** An animation a layer drives: one it was handed, or a component of some transform. */
  datatype Animation = Handle(obj: object) | Part(transform: T.TransformKeyframeAnimation, component: T.Component)

  /** `List.remove(Object)`: the first occurrence of `a` taken out, if there is one. */
  function RemoveFirst(s: seq<Animation>, a: Animation): seq<Animation>
  {
    if s == [] then []
    else if s[0] == a then s[1..]
    else [s[0]] + RemoveFirst(s[1..], a)
  }

  /** Removing takes out exactly one occurrence when there is one, and nothing otherwise. */
  lemma {:induction false} RemoveFirstCount(s: seq<Animation>, a: Animation)
    ensures multiset(RemoveFirst(s, a)) == multiset(s) - multiset{a}
  {
    if s != [] {
      assert s == [s[0]] + s[1..];
      assert multiset(s) == multiset{s[0]} + multiset(s[1..]);
      if s[0] != a {
        RemoveFirstCount(s[1..], a);
        assert multiset(RemoveFirst(s, a)) == multiset{s[0]} + multiset(RemoveFirst(s[1..], a));
      }
    }
  }

  /** Removing what was just added, and nowhere else, restores the list. */
  lemma {:induction false} RemoveAdded(s: seq<Animation>, a: Animation)
    requires a !in s
    ensures RemoveFirst(s + [a], a) == s
  {
    if s != [] {
      assert (s + [a])[1..] == s[1..] + [a];
      RemoveAdded(s[1..], a);
    }
  }

  /** Whether a mask adds, subtracts, intersects or does nothing. */
  datatype MaskMode = MaskAdd | MaskSubtract | MaskIntersect | MaskNone

  datatype Mask = Mask(mode: MaskMode, inverted: bool)

  /** How a matte layer applies to the layer it mattes. */
  datatype MatteType = MatteNone | MatteAdd | MatteInvert | MatteLuma | MatteLumaInverted | MatteUnknown

  /** The blend mode of a paint. */
  datatype Blend = SrcOver | DstIn | DstOut | Clear

  /** The blend mode of the matte paint: mattes cut out for INVERT, keep in otherwise. */
  function MatteBlend(t: MatteType): (b: Blend)
    ensures b == DstOut <==> t == MatteInvert
    ensures b == DstIn <==> t != MatteInvert
  {
    if t == MatteInvert then DstOut else DstIn
  }

  /** A call the layer makes on another object. */
  datatype LayerCall =
    | Listen(animation: Animation)
    /** The in/out animation's own listener, which sets the visibility. */
    | WatchVisibility(animation: Animation)
    | Progress(animation: Animation, progress: Float)
    | MatteProgress(matte: BaseLayer, matteProgress: real)
    | Invalidate

  /** Every animation of `anims` moved to `p`, in order. */
  function Drive(anims: seq<Animation>, p: Float): (r: seq<LayerCall>)
  {
    if anims == [] then [] else Drive(anims[..|anims| - 1], p) + [Progress(anims[|anims| - 1], p)]
  }

  /** Each animation is moved once, in list order. */
  lemma {:induction false} DriveEach(anims: seq<Animation>, p: Float)
    ensures |Drive(anims, p)| == |anims|
    ensures forall i :: 0 <= i < |anims| ==> Drive(anims, p)[i] == Progress(anims[i], p)
  {
    if anims != [] {
      DriveEach(anims[..|anims| - 1], p);
    }
  }

  /** Registration as a listener with every animation of `anims`, in order. */
  function Listens(anims: seq<Animation>): seq<LayerCall>
  {
    if anims == [] then [] else Listens(anims[..|anims| - 1]) + [Listen(anims[|anims| - 1])]
  }

  /** The progress the layer's own animations get: divided by the time stretch unless it is 0. */
  function Stretched(progress: real, timeStretch: real): real
  {
    if timeStretch != 0.0 then progress / timeStretch else progress
  }

  /** With a time stretch, the in/out animation gets the progress divided by it twice: scaling back by the stretch squared recovers it. */
  lemma InOutDividedTwice(progress: real, timeStretch: real)
    requires timeStretch != 0.0
    ensures Div(Stretched(progress, timeStretch), timeStretch).Num?
    ensures Div(Stretched(progress, timeStretch), timeStretch).v * timeStretch * timeStretch == progress
  {
    var q := progress / timeStretch;
    assert q * timeStretch == progress;
    assert (q / timeStretch) * timeStretch == q;
  }

  /** With a time stretch of 0, the in/out animation gets a float division by zero, never a number. */
  lemma InOutZeroStretch(progress: real)
    ensures !Div(Stretched(progress, 0.0), 0.0).Num?
    ensures Div(Stretched(progress, 0.0), 0.0) == NaN <==> progress == 0.0
  {
  }

  /** A matte whose time stretch is the layer's own gets the raw progress back. */
  lemma MatteStretchCancels(progress: real, timeStretch: real)
    requires timeStretch != 0.0
    ensures MatteTime(Stretched(progress, timeStretch), timeStretch) == progress
  {
  }

  /** The matrix `parent` followed by `ms` applied last to first: the nearest ancestor acts first on a point. */
  function Composed(parent: Matrix, ms: seq<Matrix>): Matrix
  {
    if ms == [] then parent else Mul(Composed(parent, ms[1..]), ms[0])
  }

  /** One more ancestor further up acts just after the parent matrix. */
  lemma {:induction false} ComposedFurther(parent: Matrix, ms: seq<Matrix>, far: Matrix)
    ensures Same(Composed(parent, ms + [far]), Composed(Mul(parent, far), ms))
  {
    if ms != [] {
      assert (ms + [far])[1..] == ms[1..] + [far];
      ComposedFurther(parent, ms[1..], far);
    }
  }

  /** The opacity of a transform, 100 when it has none. */
  function OpacityOr100(opacity: Option<int>): int
  {
    if opacity.Some? then opacity.value else 100
  }

  /** The parent's alpha (0..255) scaled by an opacity percentage: `parentAlpha / 255 * opacity / 100`. */
  function AlphaShare(parentAlpha: real, opacity: int): real
  {
    parentAlpha / 255.0 * (opacity as real) / 100.0
  }

  lemma AlphaShareRange(parentAlpha: real, opacity: int)
    requires 0.0 <= parentAlpha <= 255.0 && 0 <= opacity <= 100
    ensures 0.0 <= AlphaShare(parentAlpha, opacity) <= 1.0
  {
    var a, o := parentAlpha / 255.0, opacity as real / 100.0;
    assert 0.0 <= a <= 1.0 && 0.0 <= o <= 1.0;
    MulBetween(o, a);
    assert AlphaShare(parentAlpha, opacity) == a * o;
  }

  /** The alpha a layer draws its content with, 0..255, truncated. */
  function LayerAlpha(parentAlpha: real, opacity: Option<int>): int
  {
    ToInt(AlphaShare(parentAlpha, OpacityOr100(opacity)) * 255.0)
  }

  /** Full parent alpha and full (or missing) opacity draw at full alpha. */
  lemma LayerAlphaFull(opacity: Option<int>)
    requires opacity.None? || opacity.value == 100
    ensures LayerAlpha(255.0, opacity) == 255
  {
    assert AlphaShare(255.0, 100) == 1.0;
  }

  /** In-range alphas and opacities give an alpha in 0..255. */
  lemma LayerAlphaRange(parentAlpha: real, opacity: Option<int>)
    requires 0.0 <= parentAlpha <= 255.0 && 0 <= OpacityOr100(opacity) <= 100
    ensures 0 <= LayerAlpha(parentAlpha, opacity) <= 255
  {
    AlphaShareRange(parentAlpha, OpacityOr100(opacity));
    var x := AlphaShare(parentAlpha, OpacityOr100(opacity)) * 255.0;
    assert 0.0 <= x <= 255.0;
    assert IsInt32(Trunc(x));
  }

  /** A mask after which the bounds are not trimmed: NONE, SUBTRACT, or an inverted ADD or INTERSECT. */
  predicate Untrimmable(m: Mask)
  {
    m.mode == MaskNone || m.mode == MaskSubtract || m.inverted
  }

  /** All masks are NONE; false when there are none at all. */
  predicate AllNone(masks: seq<Mask>)
  {
    |masks| > 0 && forall i :: 0 <= i < |masks| ==> masks[i].mode == MaskNone
  }

  /** The union of the bounds of the first `n` masks. */
  function UnionUpTo(bounds: seq<Rect>, n: nat): Rect
    requires 0 < n <= |bounds|
  {
    if n == 1 then bounds[0] else Union(UnionUpTo(bounds, n - 1), bounds[n - 1])
  }

  /** The union holds every mask's bounds. */
  lemma {:induction false} UnionHoldsAll(bounds: seq<Rect>, n: nat, i: nat)
    requires 0 <= i < n <= |bounds|
    ensures Inside(bounds[i], UnionUpTo(bounds, n))
  {
    if n > 1 {
      if i < n - 1 {
        UnionHoldsAll(bounds, n - 1, i);
      }
    }
  }

  /**
   * The rectangle the layer's bounds are trimmed against, given the bounds
   * of each transformed mask path: none when some mask forbids trimming,
   * otherwise the union of the mask bounds.
   */
  function MaskTrim(masks: seq<Mask>, bounds: seq<Rect>): (r: Option<Rect>)
    requires |bounds| == |masks|
  {
    if |masks| == 0 || exists i :: 0 <= i < |masks| && Untrimmable(masks[i]) then None
    else Some(UnionUpTo(bounds, |masks|))
  }

  /** Trims `rect` against the mask bounds: emptied when it misses them. */
  function TrimToMasks(rect: Rect, masks: seq<Mask>, bounds: seq<Rect>): Rect
    requires |bounds| == |masks|
  {
    match MaskTrim(masks, bounds)
    case None => rect
    case Some(mb) => if Intersects(rect, mb) then rect else EmptyRect
  }

  /**
   * The mask trimming as the loop is written: a non-inverted ADD or
   * INTERSECT mask `continue`s past the union, so the mask bounds stay the
   * empty rectangle they were reset to.
   */
  function TrimToMasksAsWritten(rect: Rect, masks: seq<Mask>): Rect
  {
    if |masks| == 0 || exists i :: 0 <= i < |masks| && Untrimmable(masks[i]) then rect
    else if Intersects(rect, EmptyRect) then rect else EmptyRect
  }

  /**
   * As written, the mask paths are never consulted: a layer with one
   * non-inverted ADD mask covering exactly its own bounds is trimmed to
   * nothing, where the union of the mask bounds leaves it whole.
   */
  lemma MaskUnionSkipped()
    ensures var r := Rect(10.0, 10.0, 20.0, 20.0);
      && TrimToMasksAsWritten(r, [Mask(MaskAdd, false)]) == EmptyRect
      && TrimToMasks(r, [Mask(MaskAdd, false)], [r]) == r
  {
    var r := Rect(10.0, 10.0, 20.0, 20.0);
    assert !Untrimmable(Mask(MaskAdd, false));
    assert UnionUpTo([r], 1) == r;
  }

  /** Trims `rect` against the matte's bounds, unless the matte is inverted. */
  function TrimToMatte(rect: Rect, hasMatte: bool, matteType: MatteType, matteBounds: Rect): Rect
  {
    if !hasMatte || matteType == MatteInvert then rect
    else if Intersects(rect, matteBounds) then rect else EmptyRect
  }

  /** The paints a layer draws with. */
  datatype PaintRole = ContentPaint | DstInPaint | DstOutPaint | MattePaint | ClearPaint

  /** An operation issued on a canvas. */
  datatype LayerOp =
    | SaveLayer(bounds: Rect, paint: PaintRole)
    | Restore
    | SetAlpha(paint: PaintRole, paintAlpha: real)
    | SetBlack(paint: PaintRole)
    | DrawRect(bounds: Rect, paint: PaintRole)
    /** The mask's current path, transformed by `matrix`. */
    | DrawMaskPath(mask: nat, matrix: Matrix, paint: PaintRole)
    /** The layer kind's own drawing. */
    | DrawLayer(matrix: Matrix, alpha: int)
    /** The matte layer's whole draw. */
    | DrawMatte(matrix: Matrix, alpha: int)

  /** `ops` drawn into an offscreen layer over `rect`, composited back with `paint`. */
  function Wrap(rect: Rect, paint: PaintRole, ops: seq<LayerOp>): seq<LayerOp>
  {
    [SaveLayer(rect, paint)] + ops + [Restore]
  }

  /** The mask opacity as a paint alpha. */
  function MaskAlpha(opacity: int): real
  {
    opacity as real / 100.0
  }

  /** What mask `i` draws into the mask layer. */
  function MaskOps(m: Mask, i: nat, opacity: int, allNone: bool, rect: Rect, matrix: Matrix): seq<LayerOp>
  {
    match m.mode
    case MaskNone =>
      if allNone then [SetAlpha(ContentPaint, 1.0), DrawRect(rect, ContentPaint)] else []
    case MaskAdd =>
      if m.inverted then
        Wrap(rect, ContentPaint, [DrawRect(rect, ContentPaint), SetAlpha(ContentPaint, MaskAlpha(opacity)), DrawMaskPath(i, matrix, DstOutPaint)])
      else [SetAlpha(ContentPaint, MaskAlpha(opacity)), DrawMaskPath(i, matrix, ContentPaint)]
    case MaskSubtract =>
      (if i == 0 then Prefill(rect) else [])
      + if m.inverted then
          Wrap(rect, DstOutPaint, [DrawRect(rect, ContentPaint), SetAlpha(DstOutPaint, ToInt(MaskAlpha(opacity)) as real), DrawMaskPath(i, matrix, DstOutPaint)])
        else [DrawMaskPath(i, matrix, DstOutPaint)]
    case MaskIntersect =>
      if m.inverted then
        Wrap(rect, DstInPaint, [DrawRect(rect, ContentPaint), SetAlpha(DstOutPaint, MaskAlpha(opacity)), DrawMaskPath(i, matrix, DstOutPaint)])
      else Wrap(rect, DstInPaint, [SetAlpha(ContentPaint, MaskAlpha(opacity)), DrawMaskPath(i, matrix, ContentPaint)])
  }

  /** The opaque black cover the first SUBTRACT mask starts from. */
  function Prefill(rect: Rect): seq<LayerOp>
  {
    [SetBlack(ContentPaint), SetAlpha(ContentPaint, 1.0), DrawRect(rect, ContentPaint)]
  }

  /** The first `n` masks, in order. */
  function EachMask(masks: seq<Mask>, opacities: seq<int>, allNone: bool, rect: Rect, matrix: Matrix, n: nat): seq<LayerOp>
    requires n <= |masks| == |opacities|
  {
    if n == 0 then []
    else EachMask(masks, opacities, allNone, rect, matrix, n - 1) + MaskOps(masks[n - 1], n - 1, opacities[n - 1], allNone, rect, matrix)
  }

  /** All masks drawn into one offscreen layer that keeps only what they cover. */
  function MasksOps(masks: seq<Mask>, opacities: seq<int>, rect: Rect, matrix: Matrix): seq<LayerOp>
    requires |masks| == |opacities|
  {
    Wrap(rect, DstInPaint, EachMask(masks, opacities, AllNone(masks), rect, matrix, |masks|))
  }

  /** What a layer with a matte or masks draws once its bounds are known to be at least a pixel wide and high. */
  function Offscreen(rect: Rect, matrix: Matrix, alpha: int, parentMatrix: Matrix, hasMatte: bool,
                     masks: seq<Mask>, opacities: seq<int>): seq<LayerOp>
    requires |masks| == |opacities|
  {
    [SetAlpha(ContentPaint, 1.0)]
    + Wrap(rect, ContentPaint,
        [DrawRect(Outset(rect, 1.0), ClearPaint), DrawLayer(matrix, alpha)]
        + (if |masks| > 0 then MasksOps(masks, opacities, rect, matrix) else [])
        + (if hasMatte then Wrap(rect, MattePaint, [DrawRect(Outset(rect, 1.0), ClearPaint), DrawMatte(parentMatrix, alpha)]) else []))
  }

  /** What the layer reads when it draws: current animation values and the bounds its kind and its matte report. */
  datatype DrawInputs = DrawInputs(
    /** The transform's opacity, if it has one. */
    opacity: Option<int>,
    /** The matrix of the layer's own transform. */
    own: Matrix,
    /** The matrix of each ancestor's transform, nearest first. */
    ancestors: seq<Matrix>,
    /** The bounds of the layer's content. */
    bounds: Rect,
    /** The bounds of the matte layer, its parents applied. */
    matteBounds: Rect,
    /** The bounds of each mask path under the layer's matrix. */
    maskBounds: seq<Rect>,
    /** Each mask's opacity percentage. */
    maskOpacities: seq<int>)

  predicate Fits(inputs: DrawInputs, masks: seq<Mask>)
  {
    |inputs.maskBounds| == |masks| && |inputs.maskOpacities| == |masks|
  }

  /** Everything one `draw` of a layer issues on the canvas. */
  function DrawOps(visible: bool, hidden: bool, hasMatte: bool, matteType: MatteType, masks: seq<Mask>,
                   parentMatrix: Matrix, parentAlpha: real, inputs: DrawInputs): seq<LayerOp>
    requires Fits(inputs, masks)
  {
    if !visible || hidden then []
    else
      var m, alpha := Composed(parentMatrix, inputs.ancestors), LayerAlpha(parentAlpha, inputs.opacity);
      if !hasMatte && |masks| == 0 then [DrawLayer(Mul(m, inputs.own), alpha)]
      else
        var rect := TrimToMasks(TrimToMatte(inputs.bounds, hasMatte, matteType, inputs.matteBounds), masks, inputs.maskBounds);
        if Width(rect) >= 1.0 && Height(rect) >= 1.0 then
          Offscreen(rect, Mul(m, inputs.own), alpha, parentMatrix, hasMatte, masks, inputs.maskOpacities)
        else []
  }

  /** The save depth after `ops` starting at `depth`; none when a restore has nothing to restore. */
  function Walk(ops: seq<LayerOp>, depth: nat): Option<nat>
  {
    if ops == [] then Some(depth)
    else if ops[0].SaveLayer? then Walk(ops[1..], depth + 1)
    else if ops[0].Restore? then (if depth == 0 then None else Walk(ops[1..], depth - 1))
    else Walk(ops[1..], depth)
  }

  /** Every save is restored, and nothing is restored that was not saved. */
  predicate Balanced(ops: seq<LayerOp>)
  {
    Walk(ops, 0) == Some(0)
  }

  lemma {:induction false} WalkConcat(a: seq<LayerOp>, b: seq<LayerOp>, d: nat)
    ensures Walk(a + b, d) == if Walk(a, d).Some? then Walk(b, Walk(a, d).value) else None
  {
    if a != [] {
      assert (a + b)[1..] == a[1..] + b;
      if a[0].SaveLayer? {
        WalkConcat(a[1..], b, d + 1);
      } else if a[0].Restore? {
        if d > 0 {
          WalkConcat(a[1..], b, d - 1);
        }
      } else {
        WalkConcat(a[1..], b, d);
      }
    } else {
      assert a + b == b;
    }
  }

  lemma {:induction false} WalkDeeper(a: seq<LayerOp>, d: nat)
    requires Walk(a, d).Some?
    ensures Walk(a, d + 1) == Some(Walk(a, d).value + 1)
  {
    if a != [] {
      if a[0].SaveLayer? {
        WalkDeeper(a[1..], d + 1);
      } else if a[0].Restore? {
        WalkDeeper(a[1..], d - 1);
      } else {
        WalkDeeper(a[1..], d);
      }
    }
  }

  lemma BalancedConcat(a: seq<LayerOp>, b: seq<LayerOp>)
    requires Balanced(a) && Balanced(b)
    ensures Balanced(a + b)
  {
    WalkConcat(a, b, 0);
  }

  lemma BalancedWrap(rect: Rect, paint: PaintRole, ops: seq<LayerOp>)
    requires Balanced(ops)
    ensures Balanced(Wrap(rect, paint, ops))
  {
    WalkDeeper(ops, 0);
    WalkConcat([SaveLayer(rect, paint)] + ops, [Restore], 0);
    WalkConcat([SaveLayer(rect, paint)], ops, 0);
  }

  /** No saves and no restores. */
  predicate Flat(ops: seq<LayerOp>)
  {
    forall i :: 0 <= i < |ops| ==> !ops[i].SaveLayer? && !ops[i].Restore?
  }

  lemma {:induction false} FlatBalanced(ops: seq<LayerOp>)
    requires Flat(ops)
    ensures Balanced(ops)
  {
    if ops != [] {
      assert Flat(ops[1..]) by {
        forall i | 0 <= i < |ops[1..]| ensures !ops[1..][i].SaveLayer? && !ops[1..][i].Restore? {
          assert ops[1..][i] == ops[i + 1];
        }
      }
      FlatBalanced(ops[1..]);
    }
  }

  /** Whatever a mask draws, it restores every layer it saves. */
  lemma MaskOpsBalanced(m: Mask, i: nat, opacity: int, allNone: bool, rect: Rect, matrix: Matrix)
    ensures Balanced(MaskOps(m, i, opacity, allNone, rect, matrix))
  {
    var a := MaskAlpha(opacity);
    match m.mode
    case MaskNone =>
      FlatBalanced(MaskOps(m, i, opacity, allNone, rect, matrix));
    case MaskAdd =>
      if m.inverted {
        var inner := [DrawRect(rect, ContentPaint), SetAlpha(ContentPaint, a), DrawMaskPath(i, matrix, DstOutPaint)];
        FlatBalanced(inner);
        BalancedWrap(rect, ContentPaint, inner);
      } else {
        FlatBalanced(MaskOps(m, i, opacity, allNone, rect, matrix));
      }
    case MaskSubtract =>
      var pre := if i == 0 then Prefill(rect) else [];
      FlatBalanced(pre);
      if m.inverted {
        var inner := [DrawRect(rect, ContentPaint), SetAlpha(DstOutPaint, ToInt(a) as real), DrawMaskPath(i, matrix, DstOutPaint)];
        FlatBalanced(inner);
        BalancedWrap(rect, DstOutPaint, inner);
        BalancedConcat(pre, Wrap(rect, DstOutPaint, inner));
      } else {
        FlatBalanced([DrawMaskPath(i, matrix, DstOutPaint)]);
        BalancedConcat(pre, [DrawMaskPath(i, matrix, DstOutPaint)]);
      }
    case MaskIntersect =>
      if m.inverted {
        var inner := [DrawRect(rect, ContentPaint), SetAlpha(DstOutPaint, a), DrawMaskPath(i, matrix, DstOutPaint)];
        FlatBalanced(inner);
        BalancedWrap(rect, DstInPaint, inner);
      } else {
        var inner := [SetAlpha(ContentPaint, a), DrawMaskPath(i, matrix, ContentPaint)];
        FlatBalanced(inner);
        BalancedWrap(rect, DstInPaint, inner);
      }
  }

  lemma {:induction false} EachMaskBalanced(masks: seq<Mask>, opacities: seq<int>, allNone: bool, rect: Rect, matrix: Matrix, n: nat)
    requires n <= |masks| == |opacities|
    ensures Balanced(EachMask(masks, opacities, allNone, rect, matrix, n))
  {
    if n > 0 {
      EachMaskBalanced(masks, opacities, allNone, rect, matrix, n - 1);
      MaskOpsBalanced(masks[n - 1], n - 1, opacities[n - 1], allNone, rect, matrix);
      BalancedConcat(EachMask(masks, opacities, allNone, rect, matrix, n - 1), MaskOps(masks[n - 1], n - 1, opacities[n - 1], allNone, rect, matrix));
    }
  }

  /** A layer's draw restores every offscreen layer it saves. */
  lemma DrawBalanced(visible: bool, hidden: bool, hasMatte: bool, matteType: MatteType, masks: seq<Mask>,
                     parentMatrix: Matrix, parentAlpha: real, inputs: DrawInputs)
    requires Fits(inputs, masks)
    ensures Balanced(DrawOps(visible, hidden, hasMatte, matteType, masks, parentMatrix, parentAlpha, inputs))
  {
    var ops := DrawOps(visible, hidden, hasMatte, matteType, masks, parentMatrix, parentAlpha, inputs);
    if !visible || hidden || (!hasMatte && |masks| == 0) {
      FlatBalanced(ops);
    } else {
      var rect := TrimToMasks(TrimToMatte(inputs.bounds, hasMatte, matteType, inputs.matteBounds), masks, inputs.maskBounds);
      if Width(rect) >= 1.0 && Height(rect) >= 1.0 {
        var m, alpha := Mul(Composed(parentMatrix, inputs.ancestors), inputs.own), LayerAlpha(parentAlpha, inputs.opacity);
        OffscreenBalanced(rect, m, alpha, parentMatrix, hasMatte, masks, inputs.maskOpacities);
      }
    }
  }

  lemma OffscreenBalanced(rect: Rect, matrix: Matrix, alpha: int, parentMatrix: Matrix, hasMatte: bool,
                          masks: seq<Mask>, opacities: seq<int>)
    requires |masks| == |opacities|
    ensures Balanced(Offscreen(rect, matrix, alpha, parentMatrix, hasMatte, masks, opacities))
  {
    var head := [DrawRect(Outset(rect, 1.0), ClearPaint), DrawLayer(matrix, alpha)];
    var maskPart := if |masks| > 0 then MasksOps(masks, opacities, rect, matrix) else [];
    var mattePart := if hasMatte then Wrap(rect, MattePaint, [DrawRect(Outset(rect, 1.0), ClearPaint), DrawMatte(parentMatrix, alpha)]) else [];
    FlatBalanced(head);
    FlatBalanced([SetAlpha(ContentPaint, 1.0)]);
    EachMaskBalanced(masks, opacities, AllNone(masks), rect, matrix, |masks|);
    BalancedWrap(rect, DstInPaint, EachMask(masks, opacities, AllNone(masks), rect, matrix, |masks|));
    FlatBalanced([]);
    FlatBalanced([DrawRect(Outset(rect, 1.0), ClearPaint), DrawMatte(parentMatrix, alpha)]);
    BalancedWrap(rect, MattePaint, [DrawRect(Outset(rect, 1.0), ClearPaint), DrawMatte(parentMatrix, alpha)]);
    BalancedConcat(head, maskPart);
    BalancedConcat(head + maskPart, mattePart);
    BalancedWrap(rect, ContentPaint, head + maskPart + mattePart);
    BalancedConcat([SetAlpha(ContentPaint, 1.0)], Wrap(rect, ContentPaint, head + maskPart + mattePart));
  }

  /** Trimming against the matte either keeps the rectangle or empties it, and keeps it only when it meets the matte. */
  lemma TrimToMatteKeeps(rect: Rect, hasMatte: bool, matteType: MatteType, matteBounds: Rect)
    ensures var r := TrimToMatte(rect, hasMatte, matteType, matteBounds);
      && (r == rect || r == EmptyRect)
      && (hasMatte && matteType != MatteInvert && rect != EmptyRect && r == rect ==> Intersects(rect, matteBounds))
      && (!hasMatte || matteType == MatteInvert ==> r == rect)
  {
  }

  /** When the masks allow trimming, the rectangle they trim against holds every mask's bounds. */
  lemma MaskTrimCovers(masks: seq<Mask>, bounds: seq<Rect>, i: nat)
    requires |bounds| == |masks| && i < |masks|
    ensures MaskTrim(masks, bounds).Some? <==> forall j :: 0 <= j < |masks| ==> !Untrimmable(masks[j])
    ensures MaskTrim(masks, bounds).Some? ==> Inside(bounds[i], MaskTrim(masks, bounds).value)
  {
    if MaskTrim(masks, bounds).Some? {
      UnionHoldsAll(bounds, |masks|, i);
    }
  }

  /** Trimming against the masks either keeps the rectangle or empties it, and empties it only when it misses their union. */
  lemma TrimToMasksKeeps(rect: Rect, masks: seq<Mask>, bounds: seq<Rect>)
    requires |bounds| == |masks|
    ensures var r := TrimToMasks(rect, masks, bounds);
      && (r == rect || r == EmptyRect)
      && (r != rect ==> MaskTrim(masks, bounds).Some? && !Intersects(rect, MaskTrim(masks, bounds).value))
  {
  }

  /** The progress a matte layer gets: the layer's stretched progress scaled back by the matte's own time stretch. */
  function MatteTime(stretched: real, matteStretch: real): real
  {
    stretched * matteStretch
  }

  /** Every call `setProgress(progress)` makes, after the transform's: mask paths, in/out, matte, then the animations. */
  function ProgressCalls(maskAnimations: seq<Animation>, inOut: Option<Animation>, matte: BaseLayer?, matteStretch: real,
                         animations: seq<Animation>, progress: real, timeStretch: real): seq<LayerCall>
  {
    var q := Stretched(progress, timeStretch);
    Drive(maskAnimations, Num(progress)) + StretchedCalls(inOut, matte, matteStretch, q, timeStretch) + Drive(animations, Num(q))
  }

  /** The in/out animation gets the stretched progress `q` divided again; the matte gets it scaled by its own stretch. */
  function StretchedCalls(inOut: Option<Animation>, matte: BaseLayer?, matteStretch: real, q: real, timeStretch: real): seq<LayerCall>
  {
    (if inOut.Some? then [Progress(inOut.value, Div(q, timeStretch))] else [])
    + (if matte != null then [MatteProgress(matte, MatteTime(q, matteStretch))] else [])
  }

  /**
   * The mask path animations get the raw progress and the registered
   * animations the stretched one, each exactly once and in order, after
   * the in/out animation and the matte.
   */
  lemma {:induction false} ProgressCallsSplit(maskAnimations: seq<Animation>, inOut: Option<Animation>, matte: BaseLayer?,
                                              matteStretch: real, animations: seq<Animation>, progress: real, timeStretch: real)
    ensures var c := ProgressCalls(maskAnimations, inOut, matte, matteStretch, animations, progress, timeStretch);
      var k := |maskAnimations| + (if inOut.Some? then 1 else 0) + (if matte != null then 1 else 0);
      && |c| == k + |animations|
      && (forall i :: 0 <= i < |maskAnimations| ==> c[i] == Progress(maskAnimations[i], Num(progress)))
      && (forall i :: 0 <= i < |animations| ==> c[k + i] == Progress(animations[i], Num(Stretched(progress, timeStretch))))
  {
    DriveEach(maskAnimations, Num(progress));
    DriveEach(animations, Num(Stretched(progress, timeStretch)));
  }

  /** `chain` lists the layers reached from `start` through their parents, nearest first, up to a layer without one. */
  ghost predicate IsChain(start: BaseLayer?, chain: seq<BaseLayer>)
    reads chain
  {
    && (start == null <==> chain == [])
    && (start != null ==> chain[0] == start)
    && (forall i :: 0 <= i < |chain| - 1 ==> chain[i].parentLayer == chain[i + 1])
    && (chain != [] ==> chain[|chain| - 1].parentLayer == null)
  }

  /**
   * The layer's matrix: the parent's, then each ancestor's transform from
   * the farthest to the nearest. A loop over the ancestor list.
   */
  method ConcatParents(parentMatrix: Matrix, ancestors: seq<Matrix>) returns (m: Matrix)
    ensures m == Composed(parentMatrix, ancestors)
  {
    m := parentMatrix;
    var i := |ancestors|;
    while i > 0
      invariant 0 <= i <= |ancestors|
      invariant m == Composed(parentMatrix, ancestors[i..])
    {
      i := i - 1;
      assert ancestors[i..][1..] == ancestors[i + 1..];
      m := Mul(m, ancestors[i]);
    }
  }

  /** The transform components `cs` as animations of the transform `t`. */
  function Parts(t: T.TransformKeyframeAnimation, cs: seq<T.Component>): (r: seq<Animation>)
    ensures |r| == |cs|
    ensures forall i :: 0 <= i < |cs| ==> r[i] == Part(t, cs[i])
  {
    if cs == [] then [] else Parts(t, cs[..|cs| - 1]) + [Part(t, cs[|cs| - 1])]
  }

  /**
   * Offers all nine components of `t` to `layer`, in the fixed order; the
   * layer drops the absent ones, so it gains exactly the present ones.
   */
  method AddAnimationsToLayer(t: T.TransformKeyframeAnimation, layer: BaseLayer)
    modifies layer`animations
    ensures layer.animations == old(layer.animations) + Parts(t, T.PresentIn(T.ORDER, t.present))
  {
    var offers := t.Offers();
    for i := 0 to |offers|
      invariant layer.animations == old(layer.animations) + Parts(t, T.PresentIn(T.ORDER[..i], t.present))
    {
      assert T.ORDER[..i + 1][..i] == T.ORDER[..i];
      var a := if offers[i].Some? then Some(Part(t, offers[i].value)) else None;
      layer.AddAnimation(a);
    }
    assert T.ORDER[..|T.ORDER|] == T.ORDER;
  }

  /**
   * A layer: the animations it drives, its visibility, its matte and
   * parent, and the log of what it asks of other objects. The masks, the
   * animations that drive them and the in/out animation are fixed when
   * the layer is built.
   */
  class BaseLayer {
    /** Identifies the layer as a listener. */
    const id: nat
    /** Whether the layer has a drawable to invalidate. */
    const hasDrawable: bool
    /** Whether the layer model is hidden. */
    const hidden: bool
    const timeStretch: real
    const matteType: MatteType
    /** The blend mode the matte layer is drawn with. */
    const mattePaint: Blend
    const masks: seq<Mask>
    /** The path animation of each mask. */
    const maskAnimations: seq<Animation>
    /** The opacity animation of each mask. */
    const opacityAnimations: seq<Animation>
    /** The discrete in/out animation, when the layer has in/out keyframes. */
    const inOutAnimation: Option<Animation>
    const transform: T.TransformKeyframeAnimation
    var visible: bool
    /** The animations `setProgress` moves to the stretched progress. */
    var animations: seq<Animation>
    var matteLayer: BaseLayer?
    var parentLayer: BaseLayer?
    /** The ancestors, nearest first, once they have been listed. */
    var parentLayers: Option<seq<BaseLayer>>
    /** The matrix of the last `getBounds`. */
    var boundsMatrix: Matrix
    /** The calls the layer has made on its animations, its matte and its drawable. */
    var calls: seq<LayerCall>

    ghost predicate Valid()
    {
      && |maskAnimations| == |masks|
      && |opacityAnimations| == |masks|
      && transform.Valid()
    }

    /**
     * Builds the transform and listens to it; listens to every mask path
     * animation; adds and listens to every mask opacity animation; then
     * sets the visibility from the in/out animation's current value,
     * `inOutValue`, and adds it.
     */
    constructor (id: nat, hasDrawable: bool, hidden: bool, timeStretch: real, matteType: MatteType,
                 masks: seq<Mask>, maskAnimations: seq<Animation>, opacityAnimations: seq<Animation>,
                 inOutAnimation: Option<Animation>, inOutValue: real,
                 present: set<T.Component>, splitPosition: bool)
      requires |maskAnimations| == |masks| && |opacityAnimations| == |masks|
      requires splitPosition ==> T.Position in present
      ensures Valid()
      ensures this.id == id && this.hasDrawable == hasDrawable && this.hidden == hidden && this.timeStretch == timeStretch
      ensures this.matteType == matteType && this.masks == masks && this.inOutAnimation == inOutAnimation
      ensures this.maskAnimations == maskAnimations && this.opacityAnimations == opacityAnimations
      ensures mattePaint == MatteBlend(matteType)
      ensures fresh(transform) && transform.present == present && transform.splitPosition == splitPosition
      ensures transform.calls == T.Fanout(T.PresentIn(T.ORDER, present), T.Listen(id))
      ensures visible == (inOutAnimation.None? || inOutValue == 1.0)
      ensures animations == opacityAnimations + (if inOutAnimation.Some? then [inOutAnimation.value] else [])
      ensures calls == Listens(maskAnimations) + Listens(opacityAnimations)
        + (if inOutAnimation.Some? then [WatchVisibility(inOutAnimation.value)] else [])
        + (if !visible && hasDrawable then [Invalidate] else [])
      ensures matteLayer == null && parentLayer == null && parentLayers.None?
    {
      this.id, this.hasDrawable, this.hidden, this.timeStretch := id, hasDrawable, hidden, timeStretch;
      this.matteType, this.mattePaint := matteType, MatteBlend(matteType);
      this.masks, this.maskAnimations, this.opacityAnimations := masks, maskAnimations, opacityAnimations;
      this.inOutAnimation := inOutAnimation;
      transform := new T.TransformKeyframeAnimation(present, splitPosition);
      visible, animations, calls := true, [], [];
      matteLayer, parentLayer, parentLayers, boundsMatrix := null, null, None, Identity;
      new;
      transform.AddListener(id);
      ListenToAll(maskAnimations);
      assert calls == Listens(maskAnimations);
      animations := opacityAnimations;
      ListenToAll(opacityAnimations);
      if inOutAnimation.Some? {
        calls := calls + [WatchVisibility(inOutAnimation.value)];
        SetVisible(inOutValue == 1.0);
        AddAnimation(inOutAnimation);
      } else {
        assert calls == calls + [];
        SetVisible(true);
      }
    }

    /** Registers as a listener with each of `anims`, in order. */
    method ListenToAll(anims: seq<Animation>)
      modifies this`calls
      ensures calls == old(calls) + Listens(anims)
    {
      for i := 0 to |anims|
        invariant calls == old(calls) + Listens(anims[..i])
      {
        assert anims[..i + 1][..i] == anims[..i];
        calls := calls + [Listen(anims[i])];
      }
      assert anims[..|anims|] == anims;
    }

    /** Any value the layer listens to changed: invalidate. */
    method OnValueChanged()
      modifies this`calls
      ensures calls == old(calls) + (if hasDrawable then [Invalidate] else [])
    {
      InvalidateSelf();
    }

    /** Asks the drawable, when there is one, to redraw. */
    method InvalidateSelf()
      modifies this`calls
      ensures calls == old(calls) + (if hasDrawable then [Invalidate] else [])
    {
      if hasDrawable {
        calls := calls + [Invalidate];
      }
    }

    /** The in/out animation's value changed to `value`: visible exactly when it is 1. */
    method OnInOutValueChanged(value: real)
      modifies this`visible, this`calls
      ensures visible <==> value == 1.0
      ensures calls == old(calls) + (if visible != old(visible) && hasDrawable then [Invalidate] else [])
    {
      SetVisible(value == 1.0);
    }

    /** Sets the visibility, invalidating only when it changes. */
    method SetVisible(v: bool)
      modifies this`visible, this`calls
      ensures visible == v
      ensures calls == old(calls) + (if v != old(visible) && hasDrawable then [Invalidate] else [])
    {
      if v != visible {
        visible := v;
        InvalidateSelf();
      }
    }

    /** Appends an animation; nothing for none. */
    method AddAnimation(a: Option<Animation>)
      modifies this`animations
      ensures animations == old(animations) + (if a.Some? then [a.value] else [])
    {
      if a.Some? {
        animations := animations + [a.value];
      }
    }

    /** Removes the first occurrence of `a`, if any. */
    method RemoveAnimation(a: Animation)
      modifies this`animations
      ensures animations == RemoveFirst(old(animations), a)
      ensures multiset(animations) == multiset(old(animations)) - multiset{a}
    {
      RemoveFirstCount(animations, a);
      animations := RemoveFirst(animations, a);
    }

    method SetMatteLayer(m: BaseLayer?)
      modifies this`matteLayer
      ensures matteLayer == m
    {
      matteLayer := m;
    }

    method SetParentLayer(p: BaseLayer?)
      modifies this`parentLayer
      ensures parentLayer == p
    {
      parentLayer := p;
    }

    /**
     * Moves the transform and the mask paths to `progress`, then the in/out
     * animation, the matte layer and the registered animations to the
     * stretched progress. The matte layer's own `setProgress` is recorded
     * as a call, with the progress it gets.
     */
    method SetProgress(progress: real)
      modifies this`calls, transform`calls
      ensures transform.calls == old(transform.calls) + T.Fanout(T.PresentIn(T.ORDER, transform.present), T.ProgressTo(progress))
      ensures calls == old(calls) + ProgressCalls(maskAnimations, inOutAnimation, matteLayer,
                                                  if matteLayer == null then 0.0 else matteLayer.timeStretch,
                                                  animations, progress, timeStretch)
    {
      transform.SetProgress(progress);
      DriveAll(maskAnimations, Num(progress));
      var q := progress;
      if timeStretch != 0.0 {
        q := q / timeStretch;
      }
      assert q == Stretched(progress, timeStretch);
      ghost var c0 := calls;
      DriveStretched(q);
      ghost var c1 := calls;
      DriveAll(animations, Num(q));
      ghost var s := StretchedCalls(inOutAnimation, matteLayer, if matteLayer == null then 0.0 else matteLayer.timeStretch, q, timeStretch);
      AppendAssoc(old(calls), Drive(maskAnimations, Num(progress)), s);
      AppendAssoc(old(calls), Drive(maskAnimations, Num(progress)) + s, Drive(animations, Num(q)));
    }

    /** Moves the in/out animation and the matte layer on from the stretched progress `q`. */
    method DriveStretched(q: real)
      modifies this`calls
      ensures calls == old(calls) + StretchedCalls(inOutAnimation, matteLayer, if matteLayer == null then 0.0 else matteLayer.timeStretch, q, timeStretch)
    {
      if inOutAnimation.Some? {
        calls := calls + [Progress(inOutAnimation.value, Div(q, timeStretch))];
      }
      if matteLayer != null {
        calls := calls + [MatteProgress(matteLayer, MatteTime(q, matteLayer.timeStretch))];
      }
    }

    /** Moves each of `anims` to `p`, in order. */
    method DriveAll(anims: seq<Animation>, p: Float)
      modifies this`calls
      ensures calls == old(calls) + Drive(anims, p)
    {
      for i := 0 to |anims|
        invariant calls == old(calls) + Drive(anims[..i], p)
      {
        assert anims[..i + 1][..i] == anims[..i];
        calls := calls + [Progress(anims[i], p)];
      }
      assert anims[..|anims|] == anims;
    }

    /** Lists the ancestors, nearest first, unless they have been listed already. */
    method BuildParentLayerListIfNeeded(ghost chain: seq<BaseLayer>)
      requires IsChain(parentLayer, chain)
      modifies this`parentLayers
      ensures old(parentLayers).Some? ==> parentLayers == old(parentLayers)
      ensures old(parentLayers).None? ==> parentLayers == Some(chain)
    {
      if parentLayers.Some? {
        return;
      }
      if parentLayer == null {
        parentLayers := Some([]);
        return;
      }
      var list: seq<BaseLayer> := [];
      var layer := parentLayer;
      ghost var i := 0;
      while layer != null
        invariant 0 <= i <= |chain| && list == chain[..i]
        invariant layer == if i < |chain| then chain[i] else null
        decreases |chain| - i
      {
        list := list + [layer];
        layer := layer.parentLayer;
        i := i + 1;
      }
      assert chain[..|chain|] == chain;
      parentLayers := Some(list);
    }

    /**
     * The bounds of the base layer: none. Lists the ancestors and leaves in
     * `boundsMatrix` the parent matrix, then the ancestors' transforms when
     * `applyParents`, then the layer's own.
     */
    method GetBounds(parentMatrix: Matrix, applyParents: bool, own: Matrix, ancestors: seq<Matrix>, ghost chain: seq<BaseLayer>)
      returns (bounds: Rect)
      requires IsChain(parentLayer, chain)
      requires |ancestors| == |if parentLayers.Some? then parentLayers.value else chain|
      modifies this`parentLayers, this`boundsMatrix
      ensures parentLayers.Some? && parentLayers == (if old(parentLayers).Some? then old(parentLayers) else Some(chain))
      ensures bounds == EmptyRect
      ensures boundsMatrix == Mul(if applyParents then Composed(parentMatrix, ancestors) else parentMatrix, own)
    {
      bounds := EmptyRect;
      BuildParentLayerListIfNeeded(chain);
      boundsMatrix := parentMatrix;
      if applyParents {
        boundsMatrix := ConcatParents(parentMatrix, ancestors);
      }
      boundsMatrix := Mul(boundsMatrix, own);
    }

    /** Whether every mask is NONE; false without masks. */
    method AreAllMasksNone() returns (r: bool)
      ensures r == AllNone(masks)
    {
      if |masks| == 0 {
        return false;
      }
      for i := 0 to |masks|
        invariant forall j :: 0 <= j < i ==> masks[j].mode == MaskNone
      {
        if masks[i].mode != MaskNone {
          return false;
        }
      }
      return true;
    }

    /** Trims `rect` against the matte layer's bounds (its parents applied), unless the matte is inverted. */
    method IntersectBoundsWithMatte(rect: Rect, matteBounds: Rect) returns (r: Rect)
      ensures r == TrimToMatte(rect, matteLayer != null, matteType, matteBounds)
    {
      r := rect;
      if matteLayer == null || matteType == MatteInvert {
        return;
      }
      if !Intersects(r, matteBounds) {
        r := EmptyRect;
      }
    }

    /**
     * Trims `rect` against the union of the masks' bounds, `bounds[i]` for
     * mask `i`; any NONE, SUBTRACT or inverted mask leaves it as it is.
     */
    method IntersectBoundsWithMask(rect: Rect, bounds: seq<Rect>) returns (r: Rect)
      requires |bounds| == |masks|
      ensures r == TrimToMasks(rect, masks, bounds)
    {
      r := rect;
      if |masks| == 0 {
        return;
      }
      var maskBounds := EmptyRect;
      for i := 0 to |masks|
        invariant forall j :: 0 <= j < i ==> !Untrimmable(masks[j])
        invariant 0 < i ==> maskBounds == UnionUpTo(bounds, i)
      {
        if Untrimmable(masks[i]) {
          return;
        }
        if i == 0 {
          maskBounds := bounds[0];
        } else {
          maskBounds := Union(maskBounds, bounds[i]);
        }
      }
      if !Intersects(r, maskBounds) {
        r := EmptyRect;
      }
    }

    /** Draws every mask into one offscreen layer over `rect` that keeps only what they cover. */
    method ApplyMasks(rect: Rect, matrix: Matrix, opacities: seq<int>) returns (ops: seq<LayerOp>)
      requires |opacities| == |masks|
      ensures ops == MasksOps(masks, opacities, rect, matrix)
    {
      var allNone := AreAllMasksNone();
      var body := [];
      for i := 0 to |masks|
        invariant body == EachMask(masks, opacities, allNone, rect, matrix, i)
      {
        var step := MaskOps(masks[i], i, opacities[i], allNone, rect, matrix);
        assert EachMask(masks, opacities, allNone, rect, matrix, i + 1) == EachMask(masks, opacities, allNone, rect, matrix, i) + step;
        body := body + step;
      }
      assert allNone == AllNone(masks);
      ops := [SaveLayer(rect, DstInPaint)] + body + [Restore];
    }

    /** The offscreen part of `draw`: the content, the masks and the matte, each over `rect`. */
    method DrawOffscreen(rect: Rect, matrix: Matrix, alpha: int, parentMatrix: Matrix, opacities: seq<int>)
      returns (ops: seq<LayerOp>)
      requires |opacities| == |masks|
      ensures ops == Offscreen(rect, matrix, alpha, parentMatrix, matteLayer != null, masks, opacities)
    {
      var content := [DrawRect(Outset(rect, 1.0), ClearPaint), DrawLayer(matrix, alpha)];
      var maskPart := [];
      if |masks| > 0 {
        maskPart := ApplyMasks(rect, matrix, opacities);
      }
      var mattePart := [];
      if matteLayer != null {
        mattePart := [SaveLayer(rect, MattePaint), DrawRect(Outset(rect, 1.0), ClearPaint), DrawMatte(parentMatrix, alpha), Restore];
      }
      ops := [SetAlpha(ContentPaint, 1.0)] + ([SaveLayer(rect, ContentPaint)] + (content + maskPart + mattePart) + [Restore]);
    }

    /**
     * One `draw`: nothing when invisible or hidden; otherwise the layer's
     * content directly, or, with a matte or masks, through offscreen layers
     * over its trimmed bounds when those are at least a pixel wide and high.
     */
    method Draw(parentMatrix: Matrix, parentAlpha: real, inputs: DrawInputs, ghost chain: seq<BaseLayer>)
      returns (ops: seq<LayerOp>)
      requires Fits(inputs, masks)
      requires IsChain(parentLayer, chain)
      requires |inputs.ancestors| == |if parentLayers.Some? then parentLayers.value else chain|
      modifies this`parentLayers
      ensures ops == DrawOps(visible, hidden, matteLayer != null, matteType, masks, parentMatrix, parentAlpha, inputs)
      ensures visible && !hidden ==> parentLayers == (if old(parentLayers).Some? then old(parentLayers) else Some(chain))
      ensures !visible || hidden ==> parentLayers == old(parentLayers)
    {
      if !visible || hidden {
        return [];
      }
      BuildParentLayerListIfNeeded(chain);
      var matrix := ConcatParents(parentMatrix, inputs.ancestors);
      var opacity := if inputs.opacity.None? then 100 else inputs.opacity.value;
      var alpha := ToInt(AlphaShare(parentAlpha, opacity) * 255.0);
      assert opacity == OpacityOr100(inputs.opacity);
      assert alpha == LayerAlpha(parentAlpha, inputs.opacity);
      if matteLayer == null && |masks| == 0 {
        matrix := Mul(matrix, inputs.own);
        return [DrawLayer(matrix, alpha)];
      }
      var rect := inputs.bounds;
      rect := IntersectBoundsWithMatte(rect, inputs.matteBounds);
      matrix := Mul(matrix, inputs.own);
      rect := IntersectBoundsWithMask(rect, inputs.maskBounds);
      assert rect == TrimToMasks(TrimToMatte(inputs.bounds, matteLayer != null, matteType, inputs.matteBounds), masks, inputs.maskBounds);
      ops := [];
      if Width(rect) >= 1.0 && Height(rect) >= 1.0 {
        ops := DrawOffscreen(rect, matrix, alpha, parentMatrix, inputs.maskOpacities);
      }
    }

    /** Hands a value callback to the layer's transform. */
    method AddValueCallback(p: P.Property, callback: object?) returns (r: Result<bool>)
      requires Valid()
      modifies transform`calls
      ensures r.Err? <==> T.Route(p, transform.present, transform.splitPosition).Err?
      ensures r == Ok(true) <==> T.Route(p, transform.present, transform.splitPosition).Ok? && T.Route(p, transform.present, transform.splitPosition).value.Some?
      ensures r == Ok(true) ==> transform.calls == old(transform.calls) + [T.SetCallbackOf(T.Route(p, transform.present, transform.splitPosition).value.value, callback)]
      ensures r != Ok(true) ==> transform.calls == old(transform.calls)
    {
      r := transform.ApplyValueCallback(p, callback);
    }
  }
}
