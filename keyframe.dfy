/**
 * One keyframe of an animated property: a start and end value over a frame
 * span, with the curve(s) that shape it. Frames are normalised into the
 * composition's progress [0, 1]; the progress and the unboxed values are
 * memoised behind sentinel values.
 */
module Keyframes {
  import opened Wrappers
  import opened JavaNum
  import Composition
  import Geometry

  /** An easing curve, known only by identity; the model never applies one. */
  type Curve = nat

  /** The float memo's "not computed yet" sentinel. */
  const UNSET_FLOAT: real := -3987645.78543923
  /** The int memo's "not computed yet" sentinel. */
  const UNSET_INT: int := 784923401
  /** `Float.MIN_VALUE`, 2^-149, whose float is the progress memo's "not computed yet" sentinel. */
  const FLOAT_MIN_VALUE: real := 1.0 / 713623846352979940529142984724747568191373312.0
  const UNSET_PROGRESS: Float := Num(FLOAT_MIN_VALUE)

  /** A composition of zero length: its frame span cannot be divided by. */
  predicate ZeroLength(c: Composition.LottieComposition)
  {
    c.startFrame == c.endFrame
  }

  /** The frame that sits at progress `p` of the composition. */
  function FrameAt(c: Composition.LottieComposition, p: real): real
  {
    c.startFrame + p * c.DurationFrames()
  }

  /**
   * Where a keyframe starting at `startFrame` begins, as a share of the
   * composition, in float arithmetic; a keyframe without composition begins
   * at 0. Over a composition of zero length the share is infinite, or NaN
   * for a keyframe starting on the composition's first frame.
   */
  function StartProgressOf(c: Composition.LottieComposition?, startFrame: real): (r: Float)
    ensures c == null ==> r == Num(0.0)
    ensures c != null && !ZeroLength(c) ==> r.Num? && FrameAt(c, r.v) == startFrame
    ensures c != null && ZeroLength(c) ==>
      && (r == NaN <==> startFrame == c.startFrame)
      && (r == PosInf <==> c.startFrame < startFrame)
      && (r == NegInf <==> startFrame < c.startFrame)
  {
    if c == null then Num(0.0)
    else
      var d := c.DurationFrames();
      if d != 0.0 then
        assert (startFrame - c.startFrame) / d * d == startFrame - c.startFrame;
        Div(startFrame - c.startFrame, d)
      else
        Div(startFrame - c.startFrame, d)
  }

  /**
   * Where a keyframe ends: its start progress plus its own span as a share
   * of the composition, as a float sum; 1 without composition or without an
   * end frame. Over a composition of zero length a keyframe with an end
   * frame ends at an infinity or NaN.
   */
  function EndProgressOf(c: Composition.LottieComposition?, startFrame: real, endFrame: Option<real>): (r: Float)
    ensures c != null && !ZeroLength(c) && endFrame.Some? ==> r.Num? && FrameAt(c, r.v) == endFrame.value
    ensures c == null || endFrame.None? ==> r == Num(1.0)
    ensures c != null && ZeroLength(c) && endFrame.Some? ==> !r.Num?
  {
    if c == null then Num(1.0)
    else match endFrame
      case None => Num(1.0)
      case Some(e) =>
        var d := c.DurationFrames();
        var s := StartProgressOf(c, startFrame);
        if d != 0.0 then
          assert (e - startFrame) / d * d == e - startFrame;
          assert FrameAt(c, s.v + (e - startFrame) / d) == FrameAt(c, s.v) + (e - startFrame) / d * d;
          FAdd(s, Div(e - startFrame, d))
        else
          FAdd(s, Div(e - startFrame, d))
  }

  /** A keyframe ending where the next one starts ends at the progress where that one starts. */
  lemma ProgressContiguous(c: Composition.LottieComposition?, startFrame: real, endFrame: real)
    requires c != null && !ZeroLength(c)
    ensures EndProgressOf(c, startFrame, Some(endFrame)) == StartProgressOf(c, endFrame)
  {
    var d := c.DurationFrames();
    var e := EndProgressOf(c, startFrame, Some(endFrame)).v;
    var s := StartProgressOf(c, endFrame).v;
    assert FrameAt(c, e) == FrameAt(c, s);
    assert (e - s) * d == 0.0;
  }

  /** Over a forward-running composition, a keyframe never ends before it starts. */
  lemma ProgressOrdered(c: Composition.LottieComposition?, startFrame: real, endFrame: real)
    requires c != null && c.startFrame < c.endFrame && startFrame <= endFrame
    ensures FLe(StartProgressOf(c, startFrame), EndProgressOf(c, startFrame, Some(endFrame)))
  {
    var d := c.DurationFrames();
    var s := StartProgressOf(c, startFrame).v;
    var e := EndProgressOf(c, startFrame, Some(endFrame)).v;
    assert (e - s) * d == endFrame - startFrame by {
      assert FrameAt(c, e) - FrameAt(c, s) == (e - s) * d;
    }
    if e < s {
      MulPositive(s - e, d);
    }
  }

  /**
   * Whether `p` lies in the half-open progress span [start, end) of a
   * keyframe, with Java's float comparisons (false against NaN).
   */
  predicate ContainsProgressOf(c: Composition.LottieComposition?, startFrame: real, endFrame: Option<real>, p: Float)
  {
    FGe(p, StartProgressOf(c, startFrame)) && FLt(p, EndProgressOf(c, startFrame, endFrame))
  }

  /**
   * Over a composition of zero length, a finite progress is contained only
   * by a keyframe that starts before the composition's frame and has no end
   * frame, and then exactly when it is below 1.
   */
  lemma ZeroLengthContains(c: Composition.LottieComposition, startFrame: real, endFrame: Option<real>, p: real)
    requires ZeroLength(c)
    ensures ContainsProgressOf(c, startFrame, endFrame, Num(p)) <==>
      startFrame < c.startFrame && endFrame.None? && p < 1.0
  {
    var s := StartProgressOf(c, startFrame);
    if endFrame.Some? {
      var e := EndProgressOf(c, startFrame, endFrame);
      var dp := Div(endFrame.value - startFrame, c.DurationFrames());
      assert e == FAdd(s, dp);
      if s == NegInf {
        assert e == NegInf || e == NaN;
      }
    }
  }

  class Keyframe<T> {
    const composition: Composition.LottieComposition?
    const startValue: Option<T>
    const endValue: Option<T>
    const interpolator: Option<Curve>
    const xInterpolator: Option<Curve>
    const yInterpolator: Option<Curve>
    const startFrame: real
    const endFrame: Option<real>
    var startValueFloat: Float
    var endValueFloat: Float
    var startValueInt: int
    var endValueInt: int
    var startProgress: Float
    var endProgress: Float
    /** The path tangents a parsed keyframe carries for path animations; none until the parser sets them. */
    var pathCp1: Option<Geometry.Point>
    var pathCp2: Option<Geometry.Point>

    /** The memoised progress is either unset or the value it stands for. */
    ghost predicate ProgressMemo()
      reads this`startProgress, this`endProgress
    {
      (startProgress == UNSET_PROGRESS || startProgress == StartProgressOf(composition, startFrame))
      && (endProgress == UNSET_PROGRESS || endProgress == EndProgressOf(composition, startFrame, endFrame))
    }

    /** Nothing is computed yet: every memo holds its sentinel. */
    ghost predicate Fresh()
      reads this
    {
      startValueFloat == Num(UNSET_FLOAT) && endValueFloat == Num(UNSET_FLOAT)
      && startValueInt == UNSET_INT && endValueInt == UNSET_INT
      && startProgress == UNSET_PROGRESS && endProgress == UNSET_PROGRESS
    }

    /** A keyframe eased by one curve. */
    constructor (composition: Composition.LottieComposition?, startValue: Option<T>, endValue: Option<T>,
                 interpolator: Option<Curve>, startFrame: real, endFrame: Option<real>)
      ensures this.composition == composition && this.startValue == startValue && this.endValue == endValue
      ensures this.interpolator == interpolator && xInterpolator.None? && yInterpolator.None?
      ensures this.startFrame == startFrame && this.endFrame == endFrame
      ensures IsStatic() <==> interpolator.None?
      ensures Fresh() && ProgressMemo()
      ensures pathCp1.None? && pathCp2.None?
    {
      this.composition, this.startValue, this.endValue := composition, startValue, endValue;
      this.interpolator, xInterpolator, yInterpolator := interpolator, None, None;
      this.startFrame, this.endFrame := startFrame, endFrame;
      startValueFloat, endValueFloat := Num(UNSET_FLOAT), Num(UNSET_FLOAT);
      startValueInt, endValueInt := UNSET_INT, UNSET_INT;
      startProgress, endProgress := UNSET_PROGRESS, UNSET_PROGRESS;
      pathCp1, pathCp2 := None, None;
    }

    /** A keyframe eased by one curve per axis: the single curve is left out. */
    constructor Split(composition: Composition.LottieComposition?, startValue: Option<T>, endValue: Option<T>,
                      xInterpolator: Option<Curve>, yInterpolator: Option<Curve>, startFrame: real,
                      endFrame: Option<real>)
      ensures this.composition == composition && this.startValue == startValue && this.endValue == endValue
      ensures interpolator.None? && this.xInterpolator == xInterpolator && this.yInterpolator == yInterpolator
      ensures this.startFrame == startFrame && this.endFrame == endFrame
      ensures IsStatic() <==> xInterpolator.None? && yInterpolator.None?
      ensures Fresh() && ProgressMemo()
      ensures pathCp1.None? && pathCp2.None?
    {
      this.composition, this.startValue, this.endValue := composition, startValue, endValue;
      interpolator, this.xInterpolator, this.yInterpolator := None, xInterpolator, yInterpolator;
      this.startFrame, this.endFrame := startFrame, endFrame;
      startValueFloat, endValueFloat := Num(UNSET_FLOAT), Num(UNSET_FLOAT);
      startValueInt, endValueInt := UNSET_INT, UNSET_INT;
      startProgress, endProgress := UNSET_PROGRESS, UNSET_PROGRESS;
      pathCp1, pathCp2 := None, None;
    }

    /**
     * A value that does not change: no composition, the same value at both
     * ends, no curve, and the widest frame span.
     */
    constructor Static(value: T)
      ensures composition == null && startValue == Some(value) && endValue == Some(value)
      ensures IsStatic()
      ensures startFrame == FLOAT_MIN_VALUE && endFrame == Some(FLOAT_MAX)
      ensures StartProgressOf(composition, startFrame) == Num(0.0)
      ensures EndProgressOf(composition, startFrame, endFrame) == Num(1.0)
      ensures Fresh() && ProgressMemo()
      ensures pathCp1.None? && pathCp2.None?
    {
      composition, startValue, endValue := null, Some(value), Some(value);
      interpolator, xInterpolator, yInterpolator := None, None, None;
      startFrame, endFrame := FLOAT_MIN_VALUE, Some(FLOAT_MAX);
      startValueFloat, endValueFloat := Num(UNSET_FLOAT), Num(UNSET_FLOAT);
      startValueInt, endValueInt := UNSET_INT, UNSET_INT;
      startProgress, endProgress := UNSET_PROGRESS, UNSET_PROGRESS;
      pathCp1, pathCp2 := None, None;
    }

    /** No curve of any kind: the value holds for the whole span. */
    predicate IsStatic()
    {
      interpolator.None? && xInterpolator.None? && yInterpolator.None?
    }

    /** The start progress, computed once per keyframe. */
    method GetStartProgress() returns (r: Float)
      requires ProgressMemo()
      modifies this`startProgress
      ensures r == StartProgressOf(composition, startFrame)
      ensures ProgressMemo()
    {
      if composition == null {
        return Num(0.0);
      }
      if startProgress == UNSET_PROGRESS {
        startProgress := Div(startFrame - composition.startFrame, composition.DurationFrames());
      }
      r := startProgress;
    }

    /** The end progress, computed once per keyframe. */
    method GetEndProgress() returns (r: Float)
      requires ProgressMemo()
      modifies this`startProgress, this`endProgress
      ensures r == EndProgressOf(composition, startFrame, endFrame)
      ensures ProgressMemo()
    {
      if composition == null {
        return Num(1.0);
      }
      if endProgress == UNSET_PROGRESS {
        if endFrame.None? {
          endProgress := Num(1.0);
        } else {
          var s := GetStartProgress();
          var durationFrames := endFrame.value - startFrame;
          var durationProgress := Div(durationFrames, composition.DurationFrames());
          endProgress := FAdd(s, durationProgress);
        }
      }
      r := endProgress;
    }

    /** Whether `p` falls inside this keyframe's progress span; the end is not asked for when `p` is not past the start. */
    method ContainsProgress(p: Float) returns (b: bool)
      requires ProgressMemo()
      modifies this`startProgress, this`endProgress
      ensures b <==> ContainsProgressOf(composition, startFrame, endFrame, p)
      ensures ProgressMemo()
    {
      var s := GetStartProgress();
      if !FGe(p, s) {
        return false;
      }
      var e := GetEndProgress();
      b := FLt(p, e);
    }
  }

  /** The float memos are unset or hold the boxed value they stand for. */
  ghost predicate FloatMemo(k: Keyframe<Float>)
    reads k`startValueFloat, k`endValueFloat
  {
    (k.startValueFloat == Num(UNSET_FLOAT) || k.startValue == Some(k.startValueFloat))
    && (k.endValueFloat == Num(UNSET_FLOAT) || k.endValue == Some(k.endValueFloat))
  }

  /** The int memos are unset or hold the boxed value they stand for. */
  ghost predicate IntMemo(k: Keyframe<int>)
    reads k`startValueInt, k`endValueInt
  {
    (k.startValueInt == UNSET_INT || k.startValue == Some(k.startValueInt))
    && (k.endValueInt == UNSET_INT || k.endValue == Some(k.endValueInt))
  }

  /** The start value unboxed to a float, computed once; unboxing a missing value fails. */
  method StartValueFloat(k: Keyframe<Float>) returns (r: Result<Float>)
    requires FloatMemo(k)
    modifies k`startValueFloat
    ensures r == (if k.startValue.Some? then Ok(k.startValue.value) else Err(NullPointer))
    ensures FloatMemo(k)
  {
    if k.startValueFloat == Num(UNSET_FLOAT) {
      if k.startValue.None? {
        return Err(NullPointer);
      }
      k.startValueFloat := k.startValue.value;
    }
    r := Ok(k.startValueFloat);
  }

  /** The end value unboxed to a float, computed once; unboxing a missing value fails. */
  method EndValueFloat(k: Keyframe<Float>) returns (r: Result<Float>)
    requires FloatMemo(k)
    modifies k`endValueFloat
    ensures r == (if k.endValue.Some? then Ok(k.endValue.value) else Err(NullPointer))
    ensures FloatMemo(k)
  {
    if k.endValueFloat == Num(UNSET_FLOAT) {
      if k.endValue.None? {
        return Err(NullPointer);
      }
      k.endValueFloat := k.endValue.value;
    }
    r := Ok(k.endValueFloat);
  }

  /** The start value unboxed to an int, computed once; unboxing a missing value fails. */
  method StartValueInt(k: Keyframe<int>) returns (r: Result<int>)
    requires IntMemo(k)
    modifies k`startValueInt
    ensures r == (if k.startValue.Some? then Ok(k.startValue.value) else Err(NullPointer))
    ensures IntMemo(k)
  {
    if k.startValueInt == UNSET_INT {
      if k.startValue.None? {
        return Err(NullPointer);
      }
      k.startValueInt := k.startValue.value;
    }
    r := Ok(k.startValueInt);
  }

  /** The end value unboxed to an int, computed once; unboxing a missing value fails. */
  method EndValueInt(k: Keyframe<int>) returns (r: Result<int>)
    requires IntMemo(k)
    modifies k`endValueInt
    ensures r == (if k.endValue.Some? then Ok(k.endValue.value) else Err(NullPointer))
    ensures IntMemo(k)
  {
    if k.endValueInt == UNSET_INT {
      if k.endValue.None? {
        return Err(NullPointer);
      }
      k.endValueInt := k.endValue.value;
    }
    r := Ok(k.endValueInt);
  }

  /** Asking twice gives the same progress span, whether or not the first call filled the memo. */
  method RepeatedProgress<T>(k: Keyframe<T>) returns (s1: Float, s2: Float, e1: Float, e2: Float)
    requires k.ProgressMemo()
    modifies k`startProgress, k`endProgress
    ensures s1 == s2 && e1 == e2
  {
    s1 := k.GetStartProgress();
    e1 := k.GetEndProgress();
    s2 := k.GetStartProgress();
    e2 := k.GetEndProgress();
  }
}
