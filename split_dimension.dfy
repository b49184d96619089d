/**
 * A position animated by two independent float animations, one per axis.
 * It has no keyframes of its own: setting its progress drives both axes
 * and stores their values in a point; reading its value lets a callback
 * per axis override that axis.
 */
module SplitDimension {
  import opened Wrappers
  import opened JavaNum
  import opened Geometry
  import opened Keyframes
  import opened ValueCallbacks
  import opened KeyframeAnimations
  import opened TypedAnimations

  /** The keyframes of a list, as a set. */
  function KeyframeSet(ks: seq<Keyframe<Float>>): set<Keyframe<Float>>
  {
    set i | 0 <= i < |ks| :: ks[i]
  }

  /** Every keyframe's float memo is unset or right. */
  ghost predicate FloatMemos(ks: seq<Keyframe<Float>>)
    reads KeyframeSet(ks)
  {
    forall i :: 0 <= i < |ks| ==> FloatMemo(ks[i])
  }

  /**
   * What one axis's callback answers: nothing without a callback or without
   * a current keyframe on the axis; otherwise the callback is told its
   * frames (a missing end frame replaced by the start frame), its values,
   * 0 for both keyframe progresses, and the axis's eased keyframe progress
   * in the overall-progress slot.
   */
  function AxisAnswer(callback: Option<(Behaviour<Float>, Option<Float>)>, isDiscrete: bool,
                      current: Keyframe?<Float>, progress: Float): (r: Option<Float>)
    ensures callback.None? || current == null ==> r.None?
    ensures callback.Some? && current != null && callback.value.0.StaticValue? ==> r == callback.value.1
    ensures callback.Some? && current != null && callback.value.0.Interpolated? ==>
      var b := callback.value.0;
      r == Some(b.interpolateValue(b.startValue, b.endValue, InterpolatedProgressOf(isDiscrete, current, progress).value))
  {
    match callback
    case None => None
    case Some((b, v)) =>
      if current == null then None
      else
        var t := InterpolatedProgressOf(isDiscrete, current, progress).value;
        var endFrame := if current.endFrame.None? then current.startFrame else current.endFrame.value;
        ValueOf(b, FrameInfo(current.startFrame, endFrame, current.startValue, current.endValue, Num(0.0), Num(0.0), t), v)
  }

  /** An axis's coordinate: the callback's answer when there is one, else the stored one. */
  function Coordinate(answer: Option<Float>, stored: Float): Float
  {
    if answer.Some? then answer.value else stored
  }

  /** An axis's keyframes as a set. */
  function KeyframesOf(a: BaseKeyframeAnimation<Float, Float>): set<Keyframe<Float>>
  {
    KeyframeSet(a.keyframes)
  }

  /** Everything asking an axis for its value may touch: the animation, its keyframes and its callback. */
  function Axis(a: BaseKeyframeAnimation<Float, Float>): set<object>
    reads a
  {
    {a} + KeyframesOf(a) + Attached(a.valueCallback)
  }

  /** One axis moved to `p`, its listeners told when its value may have changed. */
  method DriveAxis(a: BaseKeyframeAnimation<Float, Float>, p: Float)
    requires a.Valid() && FloatMemos(a.keyframes)
    modifies a`progress, a`current, a`cachedStartDelayProgress, a`cachedEndProgress, a`notified
    ensures a.Valid() && FloatMemos(a.keyframes)
    ensures a.progress == ProgressAfter(a.keyframes, old(a.progress), p)
  {
    a.SetProgress(p);
  }

  /** One axis's value, which must be present to be unboxed. */
  method AxisValue(a: BaseKeyframeAnimation<Float, Float>) returns (r: Result<Float>)
    requires a.Valid() && FloatMemos(a.keyframes)
    modifies Axis(a)
    ensures a.Valid() && FloatMemos(a.keyframes)
    ensures a.progress == old(a.progress)
    ensures a.valueCallback == old(a.valueCallback) && a.listeners == old(a.listeners)
    ensures r.Ok? ==> a.cachedGetValue == Some(r.value)
  {
    var v := GetFloat(a);
    if v.Err? {
      return Err(v.error);
    }
    if v.value.None? {
      return Err(NullPointer);
    }
    r := Ok(v.value.value);
  }

  class SplitDimensionPathKeyframeAnimation {
    /** The keyframe-less animation this one is: its progress and listeners. */
    const base: BaseKeyframeAnimation<FloatPoint, FloatPoint>
    const xAnimation: BaseKeyframeAnimation<Float, Float>
    const yAnimation: BaseKeyframeAnimation<Float, Float>
    var point: FloatPoint
    var pointWithCallbackValues: FloatPoint
    var xValueCallback: LottieValueCallback?<Float>
    var yValueCallback: LottieValueCallback?<Float>

    ghost predicate Valid()
      reads base`current, base`cachedStartDelayProgress, base`cachedEndProgress
      reads xAnimation`current, xAnimation`cachedStartDelayProgress, xAnimation`cachedEndProgress
      reads yAnimation`current, yAnimation`cachedStartDelayProgress, yAnimation`cachedEndProgress
    {
      && xAnimation != yAnimation && KeyframesOf(xAnimation) !! KeyframesOf(yAnimation)
      && base.keyframes == [] && base.Valid()
      && xAnimation.Valid() && yAnimation.Valid()
    }

    /** The memoised float values of both axes' keyframes are unset or right. */
    ghost predicate Memos()
      reads KeyframesOf(xAnimation), KeyframesOf(yAnimation)
    {
      FloatMemos(xAnimation.keyframes) && FloatMemos(yAnimation.keyframes)
    }

    /** The fields as the constructor leaves them before its first `setProgress`. */
    constructor Unset(xAnimation: BaseKeyframeAnimation<Float, Float>, yAnimation: BaseKeyframeAnimation<Float, Float>)
      ensures fresh(base) && base.keyframes == [] && base.Valid() && base.listeners == [] && base.notified == []
      ensures base.progress == Num(0.0)
      ensures this.xAnimation == xAnimation && this.yAnimation == yAnimation
      ensures point == FloatPoint(Num(0.0), Num(0.0)) && pointWithCallbackValues == FloatPoint(Num(0.0), Num(0.0))
      ensures xValueCallback == null && yValueCallback == null
    {
      base := new BaseKeyframeAnimation([]);
      this.xAnimation, this.yAnimation := xAnimation, yAnimation;
      point, pointWithCallbackValues := FloatPoint(Num(0.0), Num(0.0)), FloatPoint(Num(0.0), Num(0.0));
      xValueCallback, yValueCallback := null, null;
    }

    /**
     * Drives both axes to `p`, then stores their values in the point and tells
     * every listener, without clamping or comparing. An axis value that is
     * missing (an empty cache) cannot be unboxed.
     */
    method SetProgress(p: Float) returns (o: Outcome)
      requires Valid() && Memos()
      modifies Axis(xAnimation), Axis(yAnimation), this`point, base`notified
      ensures Valid() && Memos()
      ensures xAnimation.progress == ProgressAfter(xAnimation.keyframes, old(xAnimation.progress), p)
      ensures yAnimation.progress == ProgressAfter(yAnimation.keyframes, old(yAnimation.progress), p)
      ensures o.Success? ==> xAnimation.cachedGetValue.Some? && yAnimation.cachedGetValue.Some?
      ensures o.Success? ==>
        point == FloatPoint(xAnimation.cachedGetValue.value, yAnimation.cachedGetValue.value)
        && base.notified == old(base.notified) + base.listeners
      ensures o.Failure? ==> base.notified == old(base.notified) && point == old(point)
      ensures xValueCallback == old(xValueCallback) && yValueCallback == old(yValueCallback)
    {
      var v := Update(p);
      if v.Err? {
        return Failure(v.error);
      }
      Publish(v.value);
      o := Success;
    }

    /** Stores the new point and tells the listeners. */
    method Publish(v: FloatPoint)
      modifies this`point, base`notified
      ensures point == v && base.notified == old(base.notified) + base.listeners
    {
      point := v;
      base.NotifyListeners();
    }

    /** Both axes driven to `p`, then asked for their values. */
    method Update(p: Float) returns (r: Result<FloatPoint>)
      requires Valid() && Memos()
      modifies Axis(xAnimation), Axis(yAnimation)
      ensures Valid() && Memos()
      ensures xAnimation.progress == ProgressAfter(xAnimation.keyframes, old(xAnimation.progress), p)
      ensures yAnimation.progress == ProgressAfter(yAnimation.keyframes, old(yAnimation.progress), p)
      ensures r.Ok? ==> xAnimation.cachedGetValue == Some(r.value.x) && yAnimation.cachedGetValue == Some(r.value.y)
      ensures xValueCallback == old(xValueCallback) && yValueCallback == old(yValueCallback)
      ensures point == old(point) && base.notified == old(base.notified) && base.listeners == old(base.listeners)
    {
      DriveBoth(p);
      r := AxisValues();
    }

    /** Both axes driven to `p`, x first. */
    method DriveBoth(p: Float)
      requires Valid() && Memos()
      modifies xAnimation`progress, xAnimation`current, xAnimation`cachedStartDelayProgress, xAnimation`cachedEndProgress
      modifies xAnimation`notified
      modifies yAnimation`progress, yAnimation`current, yAnimation`cachedStartDelayProgress, yAnimation`cachedEndProgress
      modifies yAnimation`notified
      ensures Valid() && Memos()
      ensures xAnimation.progress == ProgressAfter(xAnimation.keyframes, old(xAnimation.progress), p)
      ensures yAnimation.progress == ProgressAfter(yAnimation.keyframes, old(yAnimation.progress), p)
    {
      DriveAxis(xAnimation, p);
      DriveAxis(yAnimation, p);
    }

    /** Both axes' values, x first. */
    method AxisValues() returns (r: Result<FloatPoint>)
      requires Valid() && Memos()
      modifies Axis(xAnimation), Axis(yAnimation)
      ensures Valid() && Memos()
      ensures xAnimation.progress == old(xAnimation.progress) && yAnimation.progress == old(yAnimation.progress)
      ensures r.Ok? ==> xAnimation.cachedGetValue == Some(r.value.x) && yAnimation.cachedGetValue == Some(r.value.y)
    {
      var x := AxisValue(xAnimation);
      if x.Err? {
        return Err(x.error);
      }
      var y := AxisValue(yAnimation);
      if y.Err? {
        return Err(y.error);
      }
      r := Ok(FloatPoint(x.value, y.value));
    }

    /**
     * Builds the animation and runs the initial `setProgress` at its own
     * progress (0) so that the point holds the axes' first values.
     */
    static method Create(xAnimation: BaseKeyframeAnimation<Float, Float>, yAnimation: BaseKeyframeAnimation<Float, Float>)
        returns (r: Result<SplitDimensionPathKeyframeAnimation>)
      requires xAnimation != yAnimation && KeyframesOf(xAnimation) !! KeyframesOf(yAnimation)
      requires xAnimation.Valid() && FloatMemos(xAnimation.keyframes)
      requires yAnimation.Valid() && FloatMemos(yAnimation.keyframes)
      modifies Axis(xAnimation), Axis(yAnimation)
      ensures xAnimation.progress == ProgressAfter(xAnimation.keyframes, old(xAnimation.progress), Num(0.0))
      ensures yAnimation.progress == ProgressAfter(yAnimation.keyframes, old(yAnimation.progress), Num(0.0))
      ensures r.Ok? ==> fresh(r.value) && r.value.Valid() && r.value.Memos()
      ensures r.Ok? ==> r.value.xAnimation == xAnimation && r.value.yAnimation == yAnimation
      ensures r.Ok? ==> xAnimation.cachedGetValue.Some? && yAnimation.cachedGetValue.Some?
      ensures r.Ok? ==> r.value.point == FloatPoint(xAnimation.cachedGetValue.value, yAnimation.cachedGetValue.value)
      ensures r.Ok? ==> r.value.xValueCallback == null && r.value.yValueCallback == null
    {
      var s := new SplitDimensionPathKeyframeAnimation.Unset(xAnimation, yAnimation);
      var o := s.SetProgress(s.base.progress);
      if o.Failure? {
        return Err(o.error);
      }
      r := Ok(s);
    }

    /** Detaches the previous x callback and attaches the new one to this animation. */
    method SetXValueCallback(cb: LottieValueCallback?<Float>)
      modifies this`xValueCallback, Attached(xValueCallback)`animation, Attached(cb)`animation
      ensures xValueCallback == cb
      ensures old(xValueCallback) != null && old(xValueCallback) != cb ==> old(xValueCallback).animation == null
      ensures cb != null ==> cb.animation == this
    {
      if xValueCallback != null {
        xValueCallback.SetAnimation(null);
      }
      xValueCallback := cb;
      if cb != null {
        cb.SetAnimation(this);
      }
    }

    /** Detaches the previous y callback and attaches the new one to this animation. */
    method SetYValueCallback(cb: LottieValueCallback?<Float>)
      modifies this`yValueCallback, Attached(yValueCallback)`animation, Attached(cb)`animation
      ensures yValueCallback == cb
      ensures old(yValueCallback) != null && old(yValueCallback) != cb ==> old(yValueCallback).animation == null
      ensures cb != null ==> cb.animation == this
    {
      if yValueCallback != null {
        yValueCallback.SetAnimation(null);
      }
      yValueCallback := cb;
      if cb != null {
        cb.SetAnimation(this);
      }
    }

    /** Asks one axis's callback about that axis's current keyframe, as `AxisAnswer` says. */
    static method AskAxis(cb: LottieValueCallback?<Float>, a: BaseKeyframeAnimation<Float, Float>)
        returns (r: Option<Float>)
      requires a.Valid()
      modifies Attached(cb)`frameInfo
      ensures r == AxisAnswer(CallbackView(cb), a.isDiscrete, a.current, a.progress)
    {
      r := None;
      if cb != null {
        var k := a.current;
        if k != null {
          var t := InterpolatedProgressOf(a.isDiscrete, k, a.progress).value;
          var endFrame := if k.endFrame.None? then k.startFrame else k.endFrame.value;
          r := cb.GetValueInternal(k.startFrame, endFrame, k.startValue, k.endValue, Num(0.0), Num(0.0), t);
        }
      }
    }

    /**
     * The point with each axis's callback answer in place of that axis's
     * stored coordinate, written into the shared result point.
     */
    method GetValue() returns (r: FloatPoint)
      requires Valid()
      modifies this`pointWithCallbackValues, Attached(xValueCallback)`frameInfo, Attached(yValueCallback)`frameInfo
      ensures r == pointWithCallbackValues
      ensures r == FloatPoint(
        Coordinate(AxisAnswer(old(CallbackView(xValueCallback)), xAnimation.isDiscrete, xAnimation.current, xAnimation.progress), point.x),
        Coordinate(AxisAnswer(old(CallbackView(yValueCallback)), yAnimation.isDiscrete, yAnimation.current, yAnimation.progress), point.y))
      ensures xValueCallback == null && yValueCallback == null ==> r == point
    {
      var x := AskAxis(xValueCallback, xAnimation);
      var y := AskAxis(yValueCallback, yAnimation);
      pointWithCallbackValues := FloatPoint(Coordinate(x, point.x), Coordinate(y, point.y));
      r := pointWithCallbackValues;
    }
  }
}
