/**
 * The solid fill content: it registers its colour and opacity animations
 * (only when the model has both), collects the path contents after it,
 * fills their joined path with the colour at the combined alpha, pads its
 * bounds by one and routes value callbacks.
 */
module Fills {
  import opened Wrappers
  import opened JavaNum
  import opened Geometry
  import opened Matrices
  import opened Contents
  import opened PaintContents
  import L = Layers
  import P = Properties

  /**
   * The paint alpha as the fill computes it: the combined share is cast to
   * an int before it is clamped to [0, 1], so anything short of full
   * opacity under a fully opaque parent is dropped to 0.
   */
  function FillAlphaAsWritten(parentAlpha: real, opacity: int): (r: real)
    ensures 0.0 <= r <= 1.0
  {
    Clamp(ToInt(parentAlpha / 255.0 * opacity as real / 100.0) as real, 0.0, 1.0)
  }

  /** Between transparent and opaque, the cast leaves only 0 or 1. */
  lemma FillAlphaAsWrittenIsZeroOrOne(parentAlpha: real, opacity: int)
    ensures FillAlphaAsWritten(parentAlpha, opacity) == 0.0 || FillAlphaAsWritten(parentAlpha, opacity) == 1.0
  {
    var n := ToInt(parentAlpha / 255.0 * opacity as real / 100.0);
    assert n <= 0 || 1 <= n;
  }

  /** Half opacity under an opaque parent: the fill as written is invisible, while the stroke's alpha is one half. */
  lemma FillAlphaHalfOpacity()
    ensures FillAlphaAsWritten(255.0, 50) == 0.0
    ensures PaintAlpha(255.0, 50) == 0.5
  {
    assert 255.0 / 255.0 * 50 as real / 100.0 == 0.5;
    assert Trunc(0.5) == 0;
  }

  /** The alpha the fill uses: the combined share itself, clamped to [0, 1], as the stroke does. */
  function FillAlpha(parentAlpha: real, opacity: int): (r: real)
    ensures 0.0 <= r <= 1.0
    ensures 0.0 <= parentAlpha <= 255.0 && 0 <= opacity <= 100 ==> r == parentAlpha / 255.0 * (opacity as real / 100.0)
  {
    PaintAlpha(parentAlpha, opacity)
  }

  /** The corrected alpha agrees with the one as written whenever the latter is right: at full and at no opacity. */
  lemma FillAlphaAgreesAtEnds(parentAlpha: real, opacity: int)
    requires (parentAlpha == 255.0 && opacity == 100) || parentAlpha == 0.0 || opacity == 0
    ensures FillAlpha(parentAlpha, opacity) == FillAlphaAsWritten(parentAlpha, opacity)
  {
    if parentAlpha == 255.0 && opacity == 100 {
      assert parentAlpha / 255.0 * opacity as real / 100.0 == 1.0;
      assert Trunc(1.0) == 1;
    } else {
      assert parentAlpha / 255.0 * opacity as real / 100.0 == 0.0;
      assert Trunc(0.0) == 0;
    }
  }

  class FillContent {
    const layer: L.BaseLayer
    const hidden: bool
    /** The colour and opacity animations; both absent when the model lacks either. */
    const colorAnimation: Option<L.Animation>
    const opacityAnimation: Option<L.Animation>
    var paths: seq<Content>
    var colorFilterAnimation: Option<L.Animation>
    /** The paint, as far as the fill sets it. */
    var paintColor: Option<int>
    var paintAlpha: Option<real>
    var paintFilter: Option<L.Animation>
    var calls: seq<PaintCall>

    /**
     * With both a colour and an opacity, listens to and registers the
     * colour, then the opacity; without either, registers nothing. `color`
     * and `opacity` are the animations the model's values create.
     */
    constructor (layer: L.BaseLayer, hidden: bool, color: Option<L.Animation>, opacity: Option<L.Animation>)
      modifies layer`animations
      ensures this.layer == layer && this.hidden == hidden
      ensures color.None? || opacity.None? ==>
        colorAnimation.None? && opacityAnimation.None? && calls == [] && layer.animations == old(layer.animations)
      ensures color.Some? && opacity.Some? ==>
        && colorAnimation == color && opacityAnimation == opacity
        && calls == [ListenTo(color.value), ListenTo(opacity.value)]
        && layer.animations == old(layer.animations) + [color.value, opacity.value]
      ensures paths == [] && colorFilterAnimation.None? && paintColor.None? && paintAlpha.None? && paintFilter.None?
    {
      this.layer, this.hidden := layer, hidden;
      paths, colorFilterAnimation := [], None;
      paintColor, paintAlpha, paintFilter := None, None, None;
      if color.None? || opacity.None? {
        colorAnimation, opacityAnimation := None, None;
        calls := [];
      } else {
        colorAnimation, opacityAnimation := color, opacity;
        calls := [ListenTo(color.value), ListenTo(opacity.value)];
        layer.AddAnimation(color);
        layer.AddAnimation(opacity);
      }
    }

    /** A value the fill listens to changed: invalidate the drawable. */
    method OnValueChanged()
      modifies this`calls
      ensures calls == old(calls) + [Invalidate]
    {
      calls := calls + [Invalidate];
    }

    /** Appends the path contents after the fill, in list order. */
    method SetContents(before: seq<Content>, after: seq<Content>)
      modifies this`paths
      ensures paths == old(paths) + Paths(after)
    {
      paths := CollectPaths(paths, after);
    }

    /**
     * One `draw`: nothing when hidden; otherwise the paint gets the colour,
     * the alpha and the colour filter, and the fill's paths, added in order
     * under the parent matrix, are filled. Without a colour animation the
     * colour read fails. `colorValue`, `opacity` and `childPaths` are what
     * the animations and the path contents report.
     */
    method Draw(parentMatrix: Matrix, parentAlpha: real, colorValue: int, opacity: int, childPaths: seq<Path>)
      returns (r: Result<Option<Path>>)
      requires |childPaths| == |paths|
      modifies this`paintColor, this`paintAlpha, this`paintFilter
      ensures hidden ==> r == Ok(None) && paintColor == old(paintColor) && paintAlpha == old(paintAlpha)
      ensures !hidden && colorAnimation.None? ==> r == Err(NullPointer) && paintAlpha == old(paintAlpha)
      ensures !hidden && colorAnimation.Some? ==>
        && r == Ok(Some(AddedPaths(childPaths, parentMatrix)))
        && paintColor == Some(colorValue) && paintAlpha == Some(FillAlpha(parentAlpha, opacity))
        && paintFilter == (if colorFilterAnimation.Some? then colorFilterAnimation else old(paintFilter))
      ensures hidden || colorAnimation.None? ==> paintFilter == old(paintFilter)
    {
      if hidden {
        return Ok(None);
      }
      if colorAnimation.None? {
        return Err(NullPointer);
      }
      paintColor := Some(colorValue);
      paintAlpha := Some(FillAlpha(parentAlpha, opacity));
      if colorFilterAnimation.Some? {
        paintFilter := colorFilterAnimation;
      }
      var path := AddPaths(childPaths, parentMatrix);
      r := Ok(Some(path));
    }

    /**
     * The fill's bounds: those of its paths, added in order under the parent
     * matrix, padded by 1 on every side. `pathBounds` is what the platform
     * computes for the path returned in `measured`.
     */
    method GetBounds(parentMatrix: Matrix, childPaths: seq<Path>, pathBounds: Rect) returns (measured: Path, r: Rect)
      requires |childPaths| == |paths|
      ensures measured == AddedPaths(childPaths, parentMatrix)
      ensures r == Outset(pathBounds, 1.0)
      ensures Inside(pathBounds, r) && Width(r) == Width(pathBounds) + 2.0 && Height(r) == Height(pathBounds) + 2.0
    {
      measured := AddPaths(childPaths, parentMatrix);
      r := Outset(pathBounds, 1.0);
    }

    /**
     * COLOR and OPACITY hand the callback to their animation, which fails
     * when the fill has none; COLOR_FILTER swaps the callback animation on
     * the layer. Any other property is ignored.
     */
    method AddValueCallback(p: P.Property, callback: object?) returns (r: Outcome)
      modifies this`calls, this`colorFilterAnimation, layer`animations
      ensures r.Failure? <==> (p == P.Color && colorAnimation.None?) || (p == P.Opacity && opacityAnimation.None?)
      ensures r.Failure? ==> r.error == NullPointer && calls == old(calls)
      ensures p == P.Color && colorAnimation.Some? ==> calls == old(calls) + [SetCallbackOf(colorAnimation.value, callback)]
      ensures p == P.Opacity && opacityAnimation.Some? ==> calls == old(calls) + [SetCallbackOf(opacityAnimation.value, callback)]
      ensures p == P.ColorFilter ==>
        && (colorFilterAnimation.Some? <==> callback != null)
        && layer.animations == Swapped(old(layer.animations), old(colorFilterAnimation), colorFilterAnimation)
        && calls == old(calls) + (if colorFilterAnimation.Some? then [ListenTo(colorFilterAnimation.value)] else [])
      ensures p != P.ColorFilter ==> layer.animations == old(layer.animations) && colorFilterAnimation == old(colorFilterAnimation)
      ensures p !in {P.Color, P.Opacity, P.ColorFilter} ==> calls == old(calls)
    {
      r := Success;
      if p == P.Color {
        if colorAnimation.None? {
          return Failure(NullPointer);
        }
        calls := calls + [SetCallbackOf(colorAnimation.value, callback)];
      } else if p == P.Opacity {
        if opacityAnimation.None? {
          return Failure(NullPointer);
        }
        calls := calls + [SetCallbackOf(opacityAnimation.value, callback)];
      } else if p == P.ColorFilter {
        var next, created := SwapCallbackAnimation(layer, colorFilterAnimation, callback);
        colorFilterAnimation := next;
        if next.Some? {
          calls := calls + [ListenTo(next.value)];
        }
      }
    }
  }
}
