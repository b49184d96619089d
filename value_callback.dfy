/**
 * Callbacks that override an animated property's value at run time: a
 * static value, a user-supplied function of the frame being drawn, a
 * value interpolated over the overall progress, or a point offset from
 * the animated one.
 */
module ValueCallbacks {
  import opened Wrappers
  import opened JavaNum
  import opened Geometry
  import Keyframes

  /** What a callback is told about the frame being evaluated. */
  datatype FrameInfo<T> = FrameInfo(
    startFrame: real, endFrame: real, startValue: Option<T>, endValue: Option<T>,
    linearKeyframeProgress: Float, interpolatedKeyframeProgress: Float, overallProgress: Float)

  /** The curve the two-argument interpolated-value constructor supplies. */
  const DEFAULT_CURVE: Keyframes.Curve := 0

  /**
   * The overridable `getValue` of a callback:
   *  - the base class's, which answers with the static value;
   *  - a user subclass's, a function of the frame info and the static value;
   *  - the interpolated value's, fixed end values blended over the overall
   *    progress by the subclass's `interpolateValue`.
   */
  datatype Behaviour<!T> =
    | StaticValue
    | Overridden(getValue: (FrameInfo<T>, Option<T>) -> Option<T>)
    | Interpolated(startValue: T, endValue: T, curve: Keyframes.Curve, interpolateValue: (T, T, Float) -> T)

  /** The answer of a callback with behaviour `b` and static value `value`; none means "use the default". */
  function ValueOf<T>(b: Behaviour<T>, info: FrameInfo<T>, value: Option<T>): Option<T>
  {
    match b
    case StaticValue => value
    case Overridden(f) => f(info, value)
    case Interpolated(s, e, _, f) => Some(f(s, e, info.overallProgress))
  }

  class LottieValueCallback<T> {
    const behaviour: Behaviour<T>
    /** The shared frame info, refilled on every evaluation; none until the first. */
    var frameInfo: Option<FrameInfo<T>>
    /** The animation this callback is attached to, if any. */
    var animation: object?
    var value: Option<T>
    /** The attached animations asked to notify their listeners, in order. */
    var notifyRequests: seq<object>

    /** A callback answering with `staticValue` (none: the no-argument constructor). */
    constructor (staticValue: Option<T>)
      ensures behaviour.StaticValue? && value == staticValue
      ensures frameInfo.None? && animation == null && notifyRequests == []
    {
      behaviour, value := StaticValue, staticValue;
      frameInfo, animation, notifyRequests := None, null, [];
    }

    /** A user subclass overriding `getValue`. */
    constructor Overriding(staticValue: Option<T>, getValue: (FrameInfo<T>, Option<T>) -> Option<T>)
      ensures behaviour == Overridden(getValue) && value == staticValue
      ensures frameInfo.None? && animation == null && notifyRequests == []
    {
      behaviour, value := Overridden(getValue), staticValue;
      frameInfo, animation, notifyRequests := None, null, [];
    }

    /** An interpolated value between fixed ends, with the default curve. */
    constructor InterpolatedValue(startValue: T, endValue: T, interpolateValue: (T, T, Float) -> T)
      ensures behaviour.Interpolated? && behaviour.curve == DEFAULT_CURVE
      ensures behaviour.startValue == startValue && behaviour.endValue == endValue
      ensures behaviour.interpolateValue == interpolateValue
      ensures value.None? && frameInfo.None? && animation == null && notifyRequests == []
    {
      behaviour := Interpolated(startValue, endValue, DEFAULT_CURVE, interpolateValue);
      value, frameInfo, animation, notifyRequests := None, None, null, [];
    }

    /** An interpolated value between fixed ends, with the given curve (stored, never applied). */
    constructor InterpolatedValueWith(startValue: T, endValue: T, curve: Keyframes.Curve,
                                      interpolateValue: (T, T, Float) -> T)
      ensures behaviour.Interpolated? && behaviour.curve == curve
      ensures behaviour.startValue == startValue && behaviour.endValue == endValue
      ensures behaviour.interpolateValue == interpolateValue
      ensures value.None? && frameInfo.None? && animation == null && notifyRequests == []
    {
      behaviour := Interpolated(startValue, endValue, curve, interpolateValue);
      value, frameInfo, animation, notifyRequests := None, None, null, [];
    }

    /** Replaces the static value; an attached animation is asked to notify its listeners. */
    method SetValue(v: Option<T>)
      modifies this`value, this`notifyRequests
      ensures value == v
      ensures notifyRequests == old(notifyRequests) + (if animation == null then [] else [animation])
    {
      value := v;
      if animation != null {
        notifyRequests := notifyRequests + [animation];
      }
    }

    /**
     * Loads the seven arguments into the frame info and asks `getValue`:
     * the static value by default, whatever the frame; the blend of the
     * fixed ends at the overall progress for an interpolated value, whatever
     * the keyframe.
     */
    method GetValueInternal(startFrame: real, endFrame: real, startValue: Option<T>, endValue: Option<T>,
                            linearKeyframeProgress: Float, interpolatedKeyframeProgress: Float,
                            overallProgress: Float) returns (r: Option<T>)
      modifies this`frameInfo
      ensures frameInfo == Some(FrameInfo(startFrame, endFrame, startValue, endValue, linearKeyframeProgress,
                                          interpolatedKeyframeProgress, overallProgress))
      ensures r == ValueOf(behaviour, frameInfo.value, value)
      ensures behaviour.StaticValue? ==> r == value
      ensures behaviour.Interpolated? ==>
        r == Some(behaviour.interpolateValue(behaviour.startValue, behaviour.endValue, overallProgress))
    {
      var info := FrameInfo(startFrame, endFrame, startValue, endValue, linearKeyframeProgress,
                            interpolatedKeyframeProgress, overallProgress);
      frameInfo := Some(info);
      r := ValueOf(behaviour, info, value);
    }

    /** Records the attached animation; null detaches. */
    method SetAnimation(a: object?)
      modifies this`animation
      ensures animation == a
    {
      animation := a;
    }
  }

  /**
   * The relative-point callback's answer: the start and end points blended
   * at the interpolated keyframe progress, moved by the offset (the static
   * value); a missing offset is an illegal argument, a missing end point a
   * null dereference.
   */
  function RelativePointOf(info: FrameInfo<FloatPoint>, offset: Option<FloatPoint>): (r: Result<FloatPoint>)
    ensures info.startValue.None? || info.endValue.None? ==> r == Err(NullPointer)
    ensures info.startValue.Some? && info.endValue.Some? ==> (r.Err? <==> offset.None?)
    ensures r.Ok? && info.interpolatedKeyframeProgress == Num(0.0)
            && FinitePoint(info.startValue.value) && FinitePoint(info.endValue.value) ==>
      r.value == Translate(info.startValue.value, offset.value.x, offset.value.y)
    ensures r.Ok? && info.interpolatedKeyframeProgress == Num(1.0)
            && FinitePoint(info.startValue.value) && FinitePoint(info.endValue.value) ==>
      r.value == Translate(info.endValue.value, offset.value.x, offset.value.y)
    ensures r.Ok? && info.interpolatedKeyframeProgress == NaN ==> r.value == FloatPoint(NaN, NaN)
  {
    if info.startValue.None? || info.endValue.None? then Err(NullPointer)
    else
      var p := LerpPoint(info.startValue.value, info.endValue.value, info.interpolatedKeyframeProgress);
      match offset
      case None => Err(IllegalArgument)
      case Some(o) => Ok(Translate(p, o.x, o.y))
  }

  /**
   * A point callback answering with the animated point moved by an offset.
   * Its answer lives in one point that every call overwrites. The inner
   * `callback` is a plain static-value callback: an animation it is bound
   * to gets the offset, its static value, and not the relative point.
   */
  class LottieRelativePointValueCallback {
    const callback: LottieValueCallback<FloatPoint>
    var point: FloatPoint

    /** Without a static value: every answer fails until one is set. */
    constructor ()
      ensures fresh(callback) && callback.value.None? && callback.behaviour.StaticValue?
      ensures callback.animation == null && callback.notifyRequests == [] && point == FloatPoint(Num(0.0), Num(0.0))
    {
      callback := new LottieValueCallback(None);
      point := FloatPoint(Num(0.0), Num(0.0));
    }

    /** With the offset as static value. */
    constructor WithOffset(staticValue: FloatPoint)
      ensures fresh(callback) && callback.value == Some(staticValue) && callback.behaviour.StaticValue?
      ensures callback.animation == null && callback.notifyRequests == [] && point == FloatPoint(Num(0.0), Num(0.0))
    {
      callback := new LottieValueCallback(Some(staticValue));
      point := FloatPoint(Num(0.0), Num(0.0));
    }

    /** The offset: the static value, which must be present. */
    method GetOffset(info: FrameInfo<FloatPoint>) returns (r: Result<FloatPoint>)
      ensures r == (if callback.value.None? then Err(IllegalArgument) else Ok(callback.value.value))
    {
      if callback.value.None? {
        return Err(IllegalArgument);
      }
      r := Ok(callback.value.value);
    }

    /**
     * The blended point moved by the offset, written into the shared point;
     * when the offset is missing the blend is still written before failing.
     */
    method GetValue(info: FrameInfo<FloatPoint>) returns (r: Result<FloatPoint>)
      modifies this`point
      ensures r == RelativePointOf(info, callback.value)
      ensures r.Ok? ==> point == r.value
      ensures info.startValue.Some? && info.endValue.Some? && r.Err? ==>
        point == LerpPoint(info.startValue.value, info.endValue.value, info.interpolatedKeyframeProgress)
      ensures info.startValue.None? || info.endValue.None? ==> point == old(point)
    {
      if info.startValue.None? || info.endValue.None? {
        return Err(NullPointer);
      }
      point := LerpPoint(info.startValue.value, info.endValue.value, info.interpolatedKeyframeProgress);
      var offset := GetOffset(info);
      if offset.Err? {
        return offset;
      }
      point := Translate(point, offset.value.x, offset.value.y);
      r := Ok(point);
    }
  }
}
