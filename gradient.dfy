/**
 * The gradient fill and gradient stroke contents: the hash that quantises
 * the progress of the start point, end point and colour animations, the
 * shader caches keyed by that hash, the shader each builds on a miss (the
 * radial radius floored for the fill only), the dynamic colours of a
 * GRADIENT_COLOR callback, and the paint and value callbacks.
 */
module Gradients {
  import opened Wrappers
  import opened JavaNum
  import opened Geometry
  import opened Matrices
  import opened Contents
  import opened PaintContents
  import MergePaths
  import S = Strokes
  import L = Layers
  import P = Properties

  /** Gradients are cached at 30 frames per second: one step per 32 ms. */
  const CACHE_STEPS_MS: int := 32

  datatype GradientType = Linear | Radial

  /** The number of cache steps of a composition `duration` milliseconds long. */
  function CacheSteps(duration: real): int
  {
    ToInt(duration / CACHE_STEPS_MS as real)
  }

  /** An animation's progress quantised to the cache steps, as `Math.round` does. */
  function Quantised(progress: real, cacheSteps: int): (r: int)
    ensures IsInt32(r)
  {
    Round(progress * cacheSteps as real)
  }

  /** What a quantised progress contributes to the hash: nothing when it is 0, else 31 times itself. */
  function Factor(p: int): int
  {
    if p == 0 then 1 else 31 * p
  }

  /** `hash * 31 * p` in Java `int` arithmetic, for a non-zero `p`. */
  function HashStep(hash: int, p: int): int
  {
    if p != 0 then Wrap32(Wrap32(hash * 31) * p) else hash
  }

  /**
   * The gradient hash: 17, multiplied by 31 times each non-zero quantised
   * progress, with 32-bit wrap-around.
   */
  function GradientHash(startProgress: int, endProgress: int, colorProgress: int): (r: int)
    ensures IsInt32(r)
    ensures r == Wrap32(17 * Factor(startProgress) * Factor(endProgress) * Factor(colorProgress))
    ensures startProgress == 0 && endProgress == 0 && colorProgress == 0 ==> r == 17
  {
    var h1 := HashStep(17, startProgress);
    var h2 := HashStep(h1, endProgress);
    var h3 := HashStep(h2, colorProgress);
    HashStepIsProduct(17, startProgress);
    HashStepIsProduct(17 * Factor(startProgress), endProgress);
    WrapMul(17 * Factor(startProgress), Factor(endProgress));
    HashStepIsProduct(17 * Factor(startProgress) * Factor(endProgress), colorProgress);
    WrapMul(17 * Factor(startProgress) * Factor(endProgress), Factor(colorProgress));
    assert h1 == Wrap32(17 * Factor(startProgress));
    assert h2 == Wrap32(17 * Factor(startProgress) * Factor(endProgress));
    h3
  }

  /** One step of the hash is the product with the factor, wrapped. */
  lemma HashStepIsProduct(a: int, p: int)
    ensures HashStep(Wrap32(a), p) == Wrap32(a * Factor(p))
  {
    if p != 0 {
      WrapMul(a, 31);
      WrapMul(a * 31, p);
      assert a * 31 * p == a * (31 * p);
    } else {
      assert a * 1 == a;
    }
  }

  /** Wrapping an operand before a multiplication does not change the wrapped product. */
  lemma WrapMul(a: int, b: int)
    ensures Wrap32(Wrap32(a) * b) == Wrap32(a * b)
  {
    var w := Wrap32(a);
    var k := (a - w) / TWO_32;
    assert a - w == k * TWO_32;
    assert w * b == a * b - (k * b) * TWO_32 by {
      assert w * b == (a - k * TWO_32) * b;
    }
    WrapShift(a * b, -(k * b));
  }

  /** Adding a multiple of 2^32 does not change the wrapped value. */
  lemma WrapShift(x: int, m: int)
    ensures Wrap32(x + m * TWO_32) == Wrap32(x)
  {
    assert (x + m * TWO_32) % TWO_32 == x % TWO_32;
  }

  /**
   * The colours of a gradient as the contents pick them: without a
   * GRADIENT_COLOR callback every entry stays unset; with one, its colours
   * go into an array as long as the gradient's own, so a shorter list
   * leaves the last entries unset and a longer one writes past the end.
   */
  function DynamicColorsAsWritten(colors: seq<int>, dynamicColors: Option<seq<int>>): (r: Result<seq<Option<int>>>)
    ensures r.Ok? ==> |r.value| == |colors|
  {
    if dynamicColors.None? then Ok(seq(|colors|, _ => None))
    else
      var d := dynamicColors.value;
      if |d| > |colors| then Err(IndexOutOfBounds)
      else Ok(seq(|colors|, i requires 0 <= i < |colors| => if i < |d| then Some(d[i]) else None))
  }

  /** Without a callback, the colours as written are all unset; a longer dynamic list overruns. */
  lemma DynamicColorsLost()
    ensures DynamicColorsAsWritten([0xff0000, 0x0000ff], None) == Ok([None, None])
    ensures DynamicColorsAsWritten([0xff0000], Some([0xff0000, 0x0000ff])).Err?
  {
    var r := DynamicColorsAsWritten([0xff0000, 0x0000ff], None);
    assert r.value == [None, None];
  }

  /** The colours of a gradient: the callback's colours when there is one, else the gradient's own. */
  function DynamicColors(colors: seq<int>, dynamicColors: Option<seq<int>>): (r: seq<Option<int>>)
    ensures |r| == if dynamicColors.Some? then |dynamicColors.value| else |colors|
    ensures forall i :: 0 <= i < |r| ==> r[i].Some?
    ensures dynamicColors.None? ==> forall i :: 0 <= i < |colors| ==> r[i] == Some(colors[i])
    ensures dynamicColors.Some? ==> forall i :: 0 <= i < |dynamicColors.value| ==> r[i] == Some(dynamicColors.value[i])
  {
    var src := if dynamicColors.Some? then dynamicColors.value else colors;
    seq(|src|, i requires 0 <= i < |src| => Some(src[i]))
  }

  /** Where the colours as written are right, with a callback as long as the gradient, they agree with the corrected ones. */
  lemma DynamicColorsAgree(colors: seq<int>, d: seq<int>)
    requires |d| == |colors|
    ensures DynamicColorsAsWritten(colors, Some(d)) == Ok(DynamicColors(colors, Some(d)))
  {
    var a := DynamicColorsAsWritten(colors, Some(d)).value;
    var b := DynamicColors(colors, Some(d));
    assert forall i | 0 <= i < |a| :: a[i] == b[i];
    assert a == b;
  }

  /** The radial radius of the fill: the distance between the points, raised to 0.001 when not positive. */
  function FillRadius(distance: real): (r: real)
    ensures 0.0 < r
    ensures 0.0 < distance ==> r == distance
  {
    if distance <= 0.0 then 0.001 else distance
  }

  /** The paint alpha of a gradient fill: the combined share of 255, cast to an int and clamped to [0, 255]. */
  function GradientAlpha(parentAlpha: real, opacity: int): (r: int)
    ensures 0 <= r <= 255
    ensures parentAlpha == 255.0 && opacity == 100 ==> r == 255
  {
    var a := ToInt(parentAlpha / 255.0 * opacity as real / 100.0 * 255.0);
    assert parentAlpha == 255.0 && opacity == 100 ==> parentAlpha / 255.0 * opacity as real / 100.0 * 255.0 == 255.0;
    if a < 0 then 0 else if 255 < a then 255 else a
  }

  /** What the animations report for one frame of a gradient. */
  datatype GradientFrame = GradientFrame(
    startProgress: real, endProgress: real, colorProgress: real,
    startPoint: Point, endPoint: Point,
    colors: seq<int>, positions: seq<real>,
    /** The colours the GRADIENT_COLOR callback animation reports, if there is one. */
    dynamicColors: Option<seq<int>>,
    /** The distance between the start and the end point, as the platform computes it. */
    distance: real)

  function FrameHash(f: GradientFrame, cacheSteps: int): int
  {
    GradientHash(Quantised(f.startProgress, cacheSteps), Quantised(f.endProgress, cacheSteps), Quantised(f.colorProgress, cacheSteps))
  }

  function LinearOf(f: GradientFrame): Shader
  {
    LinearShader(f.startPoint, f.endPoint, f.positions, DynamicColors(f.colors, f.dynamicColors))
  }

  function RadialOf(f: GradientFrame, radius: real): Shader
  {
    RadialShader(f.startPoint, radius, f.positions, DynamicColors(f.colors, f.dynamicColors))
  }

  /** What a cache lookup returns: the entry under the hash, or the shader built on a miss. */
  function Cached(entries: map<int, Shader>, hash: int, built: Shader): Shader
  {
    if hash in entries then entries[hash] else built
  }

  /** A shader cache keyed by gradient hash. */
  class ShaderCache {
    var entries: map<int, Shader>

    constructor ()
      ensures entries == map[]
    {
      entries := map[];
    }

    /** The cached shader on a hit; on a miss `built`, which is stored under the hash. */
    method Get(hash: int, built: Shader) returns (s: Shader)
      modifies this
      ensures s == Cached(old(entries), hash, built)
      ensures entries == old(entries)[hash := s]
      ensures hash in old(entries) ==> entries == old(entries)
    {
      if hash in entries {
        return entries[hash];
      }
      s := built;
      entries := entries[hash := built];
    }

    method Clear()
      modifies this
      ensures entries == map[]
    {
      entries := map[];
    }
  }

  /** Once a lookup has stored a shader, a second lookup under the same hash returns it, whatever it would build. */
  lemma CacheStable(entries: map<int, Shader>, hash: int, first: Shader, second: Shader)
    ensures var s := Cached(entries, hash, first);
      Cached(entries[hash := s], hash, second) == s
  {
  }

  class GradientFillContent {
    const layer: L.BaseLayer
    const hidden: bool
    const gradientType: GradientType
    const cacheSteps: int
    const colorAnimation: L.Animation
    const opacityAnimation: L.Animation
    const startPointAnimation: L.Animation
    const endPointAnimation: L.Animation
    const linearShaderCache: ShaderCache
    const radialShaderCache: ShaderCache
    var paths: seq<Content>
    var colorFilterAnimation: Option<L.Animation>
    var colorCallbackAnimation: Option<L.Animation>
    /** The paint, as far as the fill sets it: the shader with the matrix it was given, the filter and the alpha. */
    var paintShader: Option<(Shader, Matrix)>
    var paintFilter: Option<L.Animation>
    var paintAlpha: Option<int>
    var calls: seq<PaintCall>

    predicate Valid()
    {
      linearShaderCache != radialShaderCache
    }

    /** Listens to and registers the colour, opacity, start point and end point animations, in that order. */
    constructor (layer: L.BaseLayer, hidden: bool, gradientType: GradientType, duration: real,
                 color: L.Animation, opacity: L.Animation, startPoint: L.Animation, endPoint: L.Animation)
      modifies layer`animations
      ensures Valid() && fresh(linearShaderCache) && fresh(radialShaderCache)
      ensures this.layer == layer && this.hidden == hidden && this.gradientType == gradientType
      ensures cacheSteps == CacheSteps(duration)
      ensures colorAnimation == color && opacityAnimation == opacity && startPointAnimation == startPoint && endPointAnimation == endPoint
      ensures calls == ListenToEach([color, opacity, startPoint, endPoint])
      ensures layer.animations == old(layer.animations) + [color, opacity, startPoint, endPoint]
      ensures linearShaderCache.entries == map[] && radialShaderCache.entries == map[]
      ensures paths == [] && colorFilterAnimation.None? && colorCallbackAnimation.None?
      ensures paintShader.None? && paintFilter.None? && paintAlpha.None?
    {
      this.layer, this.hidden, this.gradientType := layer, hidden, gradientType;
      cacheSteps := ToInt(duration / CACHE_STEPS_MS as real);
      colorAnimation, opacityAnimation, startPointAnimation, endPointAnimation := color, opacity, startPoint, endPoint;
      linearShaderCache := new ShaderCache();
      radialShaderCache := new ShaderCache();
      paths, colorFilterAnimation, colorCallbackAnimation := [], None, None;
      paintShader, paintFilter, paintAlpha := None, None, None;
      calls := ListenToEach([color, opacity, startPoint, endPoint]);
      S.AddAll(layer, [color, opacity, startPoint, endPoint]);
    }

    /** A value the fill listens to changed: invalidate the drawable. */
    method OnValueChanged()
      modifies this`calls
      ensures calls == old(calls) + [Invalidate]
    {
      calls := calls + [Invalidate];
    }

    /** Appends the path contents after the fill, in list order. */
    method SetContents(before: seq<Content>, after: seq<Content>)
      modifies this`paths
      ensures paths == old(paths) + Paths(after)
    {
      paths := CollectPaths(paths, after);
    }

    /** The linear shader for the frame, from the cache when its hash is there. */
    method GetLinearShader(f: GradientFrame) returns (s: Shader)
      modifies linearShaderCache
      ensures s == Cached(old(linearShaderCache.entries), FrameHash(f, cacheSteps), LinearOf(f))
      ensures linearShaderCache.entries == old(linearShaderCache.entries)[FrameHash(f, cacheSteps) := s]
    {
      var hash := GradientHash(Quantised(f.startProgress, cacheSteps), Quantised(f.endProgress, cacheSteps),
                               Quantised(f.colorProgress, cacheSteps));
      s := linearShaderCache.Get(hash, LinearOf(f));
    }

    /** The radial shader for the frame, from the cache when its hash is there; its radius is never below 0.001. */
    method GetRadialShader(f: GradientFrame) returns (s: Shader)
      modifies radialShaderCache
      ensures s == Cached(old(radialShaderCache.entries), FrameHash(f, cacheSteps), RadialOf(f, FillRadius(f.distance)))
      ensures radialShaderCache.entries == old(radialShaderCache.entries)[FrameHash(f, cacheSteps) := s]
    {
      var hash := GradientHash(Quantised(f.startProgress, cacheSteps), Quantised(f.endProgress, cacheSteps),
                               Quantised(f.colorProgress, cacheSteps));
      var r := f.distance;
      if r <= 0.0 {
        r := 0.001;
      }
      s := radialShaderCache.Get(hash, RadialOf(f, r));
    }

    /**
     * One `draw`: nothing when hidden; otherwise the fill's paths, added in
     * order under the parent matrix, are filled with the shader of the
     * gradient type under the parent matrix, the colour filter and the
     * alpha. `opacity`, `f` and `childPaths` are what the animations and
     * the path contents report.
     */
    method Draw(parentMatrix: Matrix, parentAlpha: real, opacity: int, f: GradientFrame, childPaths: seq<Path>)
      returns (r: Option<Path>)
      requires Valid() && |childPaths| == |paths|
      modifies linearShaderCache, radialShaderCache, this`paintShader, this`paintFilter, this`paintAlpha
      ensures hidden ==> r.None? && paintShader == old(paintShader) && paintAlpha == old(paintAlpha)
      ensures hidden || gradientType == Radial ==> linearShaderCache.entries == old(linearShaderCache.entries)
      ensures hidden || gradientType == Linear ==> radialShaderCache.entries == old(radialShaderCache.entries)
      ensures !hidden ==>
        && r == Some(AddedPaths(childPaths, parentMatrix))
        && paintAlpha == Some(GradientAlpha(parentAlpha, opacity))
        && paintFilter == (if colorFilterAnimation.Some? then colorFilterAnimation else old(paintFilter))
      ensures !hidden && gradientType == Linear ==>
        var s := Cached(old(linearShaderCache.entries), FrameHash(f, cacheSteps), LinearOf(f));
        && paintShader == Some((s, parentMatrix))
        && linearShaderCache.entries == old(linearShaderCache.entries)[FrameHash(f, cacheSteps) := s]
      ensures !hidden && gradientType == Radial ==>
        var s := Cached(old(radialShaderCache.entries), FrameHash(f, cacheSteps), RadialOf(f, FillRadius(f.distance)));
        && paintShader == Some((s, parentMatrix))
        && radialShaderCache.entries == old(radialShaderCache.entries)[FrameHash(f, cacheSteps) := s]
      ensures hidden ==> paintFilter == old(paintFilter)
    {
      if hidden {
        return None;
      }
      var path := AddPaths(childPaths, parentMatrix);
      var shader;
      if gradientType == Linear {
        shader := GetLinearShader(f);
      } else {
        shader := GetRadialShader(f);
      }
      paintShader := Some((shader, parentMatrix));
      if colorFilterAnimation.Some? {
        paintFilter := colorFilterAnimation;
      }
      paintAlpha := Some(GradientAlpha(parentAlpha, opacity));
      r := Some(path);
    }

    /**
     * The fill's bounds: those of its paths added as they are, without the
     * parent matrix, padded by 1 on every side. `pathBounds` is what the
     * platform computes for the path returned in `measured`.
     */
    method GetBounds(childPaths: seq<Path>, pathBounds: Rect) returns (measured: Path, r: Rect)
      requires |childPaths| == |paths|
      ensures measured == MergePaths.Joined(childPaths)
      ensures r == Outset(pathBounds, 1.0)
      ensures Inside(pathBounds, r)
    {
      measured := [];
      for i := 0 to |childPaths|
        invariant measured == MergePaths.Joined(childPaths[..i])
      {
        assert childPaths[..i + 1][..i] == childPaths[..i];
        measured := measured + childPaths[i];
      }
      assert childPaths[..|childPaths|] == childPaths;
      r := Outset(pathBounds, 1.0);
    }

    /**
     * OPACITY hands the callback to the opacity animation; COLOR_FILTER
     * swaps the colour filter animation on the layer; GRADIENT_COLOR swaps
     * the colour callback animation, and a non-null callback also empties
     * both shader caches. Any other property is ignored.
     */
    method AddValueCallback(p: P.Property, callback: object?)
      requires Valid()
      modifies this`calls, this`colorFilterAnimation, this`colorCallbackAnimation, layer`animations, linearShaderCache, radialShaderCache
      ensures p == P.Opacity ==> calls == old(calls) + [SetCallbackOf(opacityAnimation, callback)]
      ensures p == P.ColorFilter ==>
        && (colorFilterAnimation.Some? <==> callback != null)
        && layer.animations == Swapped(old(layer.animations), old(colorFilterAnimation), colorFilterAnimation)
        && calls == old(calls) + (if colorFilterAnimation.Some? then [ListenTo(colorFilterAnimation.value)] else [])
      ensures p == P.GradientColor ==>
        && (colorCallbackAnimation.Some? <==> callback != null)
        && layer.animations == Swapped(old(layer.animations), old(colorCallbackAnimation), colorCallbackAnimation)
        && calls == old(calls) + (if colorCallbackAnimation.Some? then [ListenTo(colorCallbackAnimation.value)] else [])
      ensures p == P.GradientColor && callback != null ==> linearShaderCache.entries == map[] && radialShaderCache.entries == map[]
      ensures !(p == P.GradientColor && callback != null) ==>
        linearShaderCache.entries == old(linearShaderCache.entries) && radialShaderCache.entries == old(radialShaderCache.entries)
      ensures p != P.ColorFilter ==> colorFilterAnimation == old(colorFilterAnimation)
      ensures p != P.GradientColor ==> colorCallbackAnimation == old(colorCallbackAnimation)
      ensures p !in {P.ColorFilter, P.GradientColor} ==> layer.animations == old(layer.animations)
      ensures p !in {P.Opacity, P.ColorFilter, P.GradientColor} ==> calls == old(calls)
    {
      if p == P.Opacity {
        calls := calls + [SetCallbackOf(opacityAnimation, callback)];
      } else if p == P.ColorFilter {
        var next, created := SwapCallbackAnimation(layer, colorFilterAnimation, callback);
        colorFilterAnimation := next;
        if next.Some? {
          calls := calls + [ListenTo(next.value)];
        }
      } else if p == P.GradientColor {
        if callback != null {
          linearShaderCache.Clear();
          radialShaderCache.Clear();
        }
        var next, created := SwapCallbackAnimation(layer, colorCallbackAnimation, callback);
        colorCallbackAnimation := next;
        if next.Some? {
          calls := calls + [ListenTo(next.value)];
        }
      }
    }
  }

  /** A gradient stroke: a base stroke whose paint gets a gradient shader before each draw. */
  class GradientStrokeContent {
    /** The base stroke this content extends. */
    const stroke: S.BaseStrokeContent
    const hidden: bool
    const gradientType: GradientType
    const cacheSteps: int
    const colorAnimation: L.Animation
    const startPointAnimation: L.Animation
    const endPointAnimation: L.Animation
    const linearShaderCache: ShaderCache
    const radialShaderCache: ShaderCache
    var colorCallbackAnimation: Option<L.Animation>

    predicate Valid()
      reads this, stroke
    {
      stroke.Valid() && linearShaderCache != radialShaderCache
    }

    /**
     * Builds the base stroke (which registers its own animations), then
     * listens to and registers the colour, start point and end point
     * animations.
     */
    constructor (layer: L.BaseLayer, hidden: bool, gradientType: GradientType, duration: real,
                 opacity: L.Animation, width: L.Animation, dashPattern: seq<L.Animation>, offset: Option<L.Animation>,
                 color: L.Animation, startPoint: L.Animation, endPoint: L.Animation)
      modifies layer`animations
      ensures Valid() && fresh(stroke) && fresh(stroke.dashPatternValues) && fresh(linearShaderCache) && fresh(radialShaderCache)
      ensures stroke.layer == layer && this.hidden == hidden && this.gradientType == gradientType && cacheSteps == CacheSteps(duration)
      ensures colorAnimation == color && startPointAnimation == startPoint && endPointAnimation == endPoint
      ensures stroke.opacityAnimation == opacity && stroke.widthAnimation == width
      ensures stroke.dashPatternAnimations == dashPattern && stroke.dashPatternOffsetAnimation == offset
      ensures layer.animations == old(layer.animations) + [opacity, width] + dashPattern + AsSeq(offset) + [color, startPoint, endPoint]
      ensures stroke.calls == ListenToEach([opacity, width] + dashPattern + AsSeq(offset)) + ListenToEach([color, startPoint, endPoint])
      ensures stroke.pathGroups == [] && stroke.colorFilterAnimation.None? && stroke.paintShader.None?
      ensures linearShaderCache.entries == map[] && radialShaderCache.entries == map[] && colorCallbackAnimation.None?
    {
      var base := new S.BaseStrokeContent(layer, opacity, width, dashPattern, offset);
      base.ListenToAll([color, startPoint, endPoint]);
      S.AddAll(layer, [color, startPoint, endPoint]);
      stroke := base;
      this.hidden, this.gradientType := hidden, gradientType;
      cacheSteps := ToInt(duration / CACHE_STEPS_MS as real);
      colorAnimation, startPointAnimation, endPointAnimation := color, startPoint, endPoint;
      linearShaderCache := new ShaderCache();
      radialShaderCache := new ShaderCache();
      colorCallbackAnimation := None;
    }

    /** The linear shader for the frame, from the cache when its hash is there. */
    method GetLinearShader(f: GradientFrame) returns (s: Shader)
      modifies linearShaderCache
      ensures s == Cached(old(linearShaderCache.entries), FrameHash(f, cacheSteps), LinearOf(f))
      ensures linearShaderCache.entries == old(linearShaderCache.entries)[FrameHash(f, cacheSteps) := s]
    {
      var hash := GradientHash(Quantised(f.startProgress, cacheSteps), Quantised(f.endProgress, cacheSteps),
                               Quantised(f.colorProgress, cacheSteps));
      s := linearShaderCache.Get(hash, LinearOf(f));
    }

    /** The radial shader for the frame, from the cache when its hash is there; its radius is the distance itself. */
    method GetRadialShader(f: GradientFrame) returns (s: Shader)
      modifies radialShaderCache
      ensures s == Cached(old(radialShaderCache.entries), FrameHash(f, cacheSteps), RadialOf(f, f.distance))
      ensures radialShaderCache.entries == old(radialShaderCache.entries)[FrameHash(f, cacheSteps) := s]
    {
      var hash := GradientHash(Quantised(f.startProgress, cacheSteps), Quantised(f.endProgress, cacheSteps),
                               Quantised(f.colorProgress, cacheSteps));
      s := radialShaderCache.Get(hash, RadialOf(f, f.distance));
    }

    /**
     * One `draw`: nothing when hidden; otherwise the base stroke's paint
     * gets the shader of the gradient type under the parent matrix, and the
     * base stroke draws.
     */
    method Draw(parentMatrix: Matrix, parentAlpha: real, f: GradientFrame, hasZeroScaleAxis: bool, scale: real, opacity: int,
                width: real, dashValues: seq<real>, offsetValue: real, childPaths: seq<seq<Path>>) returns (ops: seq<S.StrokeOp>)
      requires Valid() && |dashValues| == |stroke.dashPatternAnimations| && S.Matches(stroke.pathGroups, childPaths)
      modifies linearShaderCache, radialShaderCache, stroke`paintShader, stroke.dashPatternValues, stroke`pathEffect,
        stroke`paintAlpha, stroke`strokeWidth, stroke`paintFilter
      ensures hidden ==> ops == [] && stroke.paintShader == old(stroke.paintShader)
      ensures hidden || gradientType == Radial ==> linearShaderCache.entries == old(linearShaderCache.entries)
      ensures hidden || gradientType == Linear ==> radialShaderCache.entries == old(radialShaderCache.entries)
      ensures !hidden && gradientType == Linear ==>
        var s := Cached(old(linearShaderCache.entries), FrameHash(f, cacheSteps), LinearOf(f));
        && stroke.paintShader == Some((s, parentMatrix))
        && linearShaderCache.entries == old(linearShaderCache.entries)[FrameHash(f, cacheSteps) := s]
      ensures !hidden && gradientType == Radial ==>
        var s := Cached(old(radialShaderCache.entries), FrameHash(f, cacheSteps), RadialOf(f, f.distance));
        && stroke.paintShader == Some((s, parentMatrix))
        && radialShaderCache.entries == old(radialShaderCache.entries)[FrameHash(f, cacheSteps) := s]
      ensures !hidden ==>
        && (hasZeroScaleAxis || width * scale <= 0.0 ==> ops == [])
        && (!hasZeroScaleAxis && width * scale > 0.0 ==> ops == S.GroupOps(stroke.pathGroups, childPaths, parentMatrix, 0))
        && (!hasZeroScaleAxis ==> stroke.paintAlpha == Some(PaintAlpha(parentAlpha, opacity)) && stroke.strokeWidth == Some(width * scale))
    {
      ops := [];
      if hidden {
        return;
      }
      var shader;
      if gradientType == Linear {
        shader := GetLinearShader(f);
      } else {
        shader := GetRadialShader(f);
      }
      stroke.SetShader(shader, parentMatrix);
      ops := stroke.Draw(parentMatrix, parentAlpha, hasZeroScaleAxis, scale, opacity, width, dashValues, offsetValue, childPaths);
    }

    /**
     * The base stroke handles the callback first; GRADIENT_COLOR then swaps
     * the colour callback animation on the layer, without emptying the
     * shader caches.
     */
    method AddValueCallback(p: P.Property, callback: object?)
      modifies stroke`calls, stroke`colorFilterAnimation, stroke.layer`animations, this`colorCallbackAnimation
      ensures p == P.GradientColor ==>
        && (colorCallbackAnimation.Some? <==> callback != null)
        && stroke.layer.animations == Swapped(old(stroke.layer.animations), old(colorCallbackAnimation), colorCallbackAnimation)
        && stroke.calls == old(stroke.calls) + (if colorCallbackAnimation.Some? then [ListenTo(colorCallbackAnimation.value)] else [])
      ensures p == P.ColorFilter ==>
        && (stroke.colorFilterAnimation.Some? <==> callback != null)
        && stroke.layer.animations == Swapped(old(stroke.layer.animations), old(stroke.colorFilterAnimation), stroke.colorFilterAnimation)
      ensures p == P.Opacity ==> stroke.calls == old(stroke.calls) + [SetCallbackOf(stroke.opacityAnimation, callback)]
      ensures p == P.StrokeWidth ==> stroke.calls == old(stroke.calls) + [SetCallbackOf(stroke.widthAnimation, callback)]
      ensures p != P.GradientColor ==> colorCallbackAnimation == old(colorCallbackAnimation)
    {
      stroke.AddValueCallback(p, callback);
      if p == P.GradientColor {
        var next, created := SwapCallbackAnimation(stroke.layer, colorCallbackAnimation, callback);
        colorCallbackAnimation := next;
        if next.Some? {
          stroke.ListenToAll([next.value]);
        }
      }
    }
  }
}
