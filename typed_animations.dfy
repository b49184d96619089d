/**
 * The typed keyframe animations: floats, ints and scale pairs. Each checks
 * that the keyframe has both values, lets an attached callback answer
 * first, and otherwise blends the two values at the keyframe progress.
 */
module TypedAnimations {
  import opened Wrappers
  import opened JavaNum
  import opened Geometry
  import opened Keyframes
  import opened ValueCallbacks
  import opened KeyframeAnimations

  /**
   * `MiscUtils.lerp(int, int, float)`: the blend in float arithmetic,
   * then the `(int)` cast, which turns NaN into 0 and an infinity into an
   * end of the int range.
   */
  function LerpInt(a: int, b: int, p: Float): (r: int)
    ensures IsInt32(r)
    ensures p == Num(0.0) && IsInt32(a) ==> r == a
    ensures p == Num(1.0) && IsInt32(b) ==> r == b
    ensures p == NaN ==> r == 0
    ensures p == PosInf ==> r == (if a < b then INT_MAX else if b < a then INT_MIN else 0)
    ensures p == NegInf ==> r == (if a < b then INT_MIN else if b < a then INT_MAX else 0)
  {
    match p
    case Num(t) => ToInt(Lerp(a as real, b as real, t))
    case NaN => 0
    case PosInf => if a < b then INT_MAX else if b < a then INT_MIN else 0
    case NegInf => if a < b then INT_MIN else if b < a then INT_MAX else 0
  }

  /** The int blend is the float blend of the two ends, cast back to `int`. */
  lemma LerpIntIsFloatBlend(a: int, b: int, p: Float)
    ensures LerpInt(a, b, p) == FToInt(FLerp(Num(a as real), Num(b as real), p))
  {
    match p
    case Num(t) =>
      assert FLerp(Num(a as real), Num(b as real), p) == Num(Lerp(a as real, b as real, t));
    case NaN =>
    case PosInf =>
      InfiniteBlend(a, b, p);
    case NegInf =>
      InfiniteBlend(a, b, p);
  }

  /** At an infinite progress the float blend is the infinity of the direction travelled, or NaN when standing still. */
  lemma InfiniteBlend(a: int, b: int, p: Float)
    requires p == PosInf || p == NegInf
    ensures FLerp(Num(a as real), Num(b as real), p)
      == if a == b then NaN else if (a < b) == (p == PosInf) then PosInf else NegInf
  {
    var d := FSub(Num(b as real), Num(a as real));
    assert d == Num((b - a) as real);
    var m := FMul(p, d);
    assert m == Infinity(Sign(p) * Sign(d));
    assert FAdd(Num(a as real), m) == m;
  }



  /**
   * What evaluating a keyframe at progress `p` gives, for a blend `lerp`:
   *  - a missing start or end value is an illegal state;
   *  - with a callback (its behaviour and static value), the end frame is
   *    unboxed into a float (a missing one is a null dereference), the
   *    linear progress is asked for, and a non-null answer is used as is;
   *  - otherwise, or when the callback answers null, the blend of the two
   *    values at `p`.
   */
  function ValueAtOf<T>(k: Keyframe<T>, p: Float, callback: Option<(Behaviour<T>, Option<T>)>,
                        linear: Result<Float>, overall: Float, lerp: (T, T, Float) -> T): (r: Result<T>)
    ensures k.startValue.None? || k.endValue.None? ==> r == Err(IllegalState)
    ensures k.startValue.Some? && k.endValue.Some? && callback.None? ==>
      r == Ok(lerp(k.startValue.value, k.endValue.value, p))
    ensures r.Ok? && callback.Some? ==>
      k.endFrame.Some? && linear.Ok? &&
      var answer := ValueOf(callback.value.0,
                            FrameInfo(k.startFrame, k.endFrame.value, k.startValue, k.endValue, p, linear.value, overall),
                            callback.value.1);
      r.value == if answer.Some? then answer.value else lerp(k.startValue.value, k.endValue.value, p)
    ensures r.Err? ==> r.error == IllegalState || r.error == NullPointer || linear == Err(r.error)
  {
    if k.startValue.None? || k.endValue.None? then Err(IllegalState)
    else
      var blend := lerp(k.startValue.value, k.endValue.value, p);
      match callback
      case None => Ok(blend)
      case Some((b, v)) =>
        if k.endFrame.None? then Err(NullPointer)
        else match linear
          case Err(e) => Err(e)
          case Ok(l) =>
            match ValueOf(b, FrameInfo(k.startFrame, k.endFrame.value, k.startValue, k.endValue, p, l, overall), v)
            case Some(x) => Ok(x)
            case None => Ok(blend)
  }

  /** The callback as the evaluation sees it: its behaviour and static value. */
  function CallbackView<T>(cb: LottieValueCallback?<T>): Option<(Behaviour<T>, Option<T>)>
    reads Attached(cb)`value
  {
    if cb == null then None else Some((cb.behaviour, cb.value))
  }

  /** A callback's frame info after evaluating keyframe `k` at `p`, when it was asked. */
  function InfoAfter<T>(k: Keyframe<T>, p: Float, linear: Result<Float>, overall: Float): Option<FrameInfo<T>>
    requires k.endFrame.Some? && linear.Ok?
  {
    Some(FrameInfo(k.startFrame, k.endFrame.value, k.startValue, k.endValue, p, linear.value, overall))
  }

  /** The frame info of an attached callback. */
  ghost function CallbackInfo<T>(cb: LottieValueCallback?<T>): Option<FrameInfo<T>>
    reads Attached(cb)`frameInfo
  {
    if cb == null then None else cb.frameInfo
  }

  /** Whether evaluating `k` asks the callback: both values present and a callback attached. */
  predicate AsksCallback<T>(k: Keyframe<T>, cb: LottieValueCallback?<T>, linear: Result<Float>)
  {
    k.startValue.Some? && k.endValue.Some? && cb != null && k.endFrame.Some? && linear.Ok?
  }

  /** `FloatKeyframeAnimation.getFloatValue(keyframe, progress)`. */
  method FloatValueAt(a: BaseKeyframeAnimation<Float, Float>, k: Keyframe<Float>, p: Float) returns (r: Result<Float>)
    requires a.Valid() && FloatMemo(k)
    modifies k`startValueFloat, k`endValueFloat, Attached(a.valueCallback)`frameInfo
    ensures FloatMemo(k)
    ensures r == ValueAtOf(k, p, CallbackView(a.valueCallback), LinearProgressOf(a.isDiscrete, a.current, a.progress),
                           a.progress, FLerp)
    ensures AsksCallback(k, a.valueCallback, LinearProgressOf(a.isDiscrete, a.current, a.progress)) ==>
      a.valueCallback.frameInfo == InfoAfter(k, p, LinearProgressOf(a.isDiscrete, a.current, a.progress), a.progress)
  {
    if k.startValue.None? || k.endValue.None? {
      return Err(IllegalState);
    }
    if a.valueCallback != null {
      if k.endFrame.None? {
        return Err(NullPointer);
      }
      var linear := LinearProgressOf(a.isDiscrete, a.current, a.progress);
      if linear.Err? {
        return Err(linear.error);
      }
      var v := a.valueCallback.GetValueInternal(k.startFrame, k.endFrame.value, k.startValue, k.endValue,
                                                p, linear.value, a.progress);
      if v.Some? {
        return Ok(v.value);
      }
    }
    ghost var info := CallbackInfo(a.valueCallback);
    var s := StartValueFloat(k);
    var e := EndValueFloat(k);
    assert CallbackInfo(a.valueCallback) == info;
    r := Ok(FLerp(s.value, e.value, p));
  }

  /** `FloatKeyframeAnimation.getFloatValue()`: the current keyframe at the eased progress. */
  method FloatValue(a: BaseKeyframeAnimation<Float, Float>) returns (r: Result<Float>)
    requires a.Valid() && (a.current != null ==> FloatMemo(a.current))
    modifies Present(a.current)`startValueFloat, Present(a.current)`endValueFloat, Attached(a.valueCallback)`frameInfo
    ensures a.current != null ==> FloatMemo(a.current)
    ensures a.current == null ==> r == Err(IllegalState)
    ensures a.current != null ==>
      r == ValueAtOf(a.current, LinearProgressOf(a.isDiscrete, a.current, a.progress).value,
                     CallbackView(a.valueCallback), LinearProgressOf(a.isDiscrete, a.current, a.progress),
                     a.progress, FLerp)
  {
    if a.current == null {
      return Err(IllegalState);
    }
    var t := InterpolatedProgressOf(a.isDiscrete, a.current, a.progress);
    r := FloatValueAt(a, a.current, t.value);
  }

  /** `getValue()` of a float animation: the cache, or the current keyframe evaluated and cached. */
  method GetFloat(a: BaseKeyframeAnimation<Float, Float>) returns (r: Result<Option<Float>>)
    requires a.Valid() && (a.current != null ==> FloatMemo(a.current))
    modifies a`cachedCurrent, a`cachedInterpolatedProgress, a`cachedGetValue
    modifies Present(a.current)`startValueFloat, Present(a.current)`endValueFloat, Attached(a.valueCallback)`frameInfo
    ensures a.current != null ==> FloatMemo(a.current)
    ensures var l := LookupOf(a.keyframes, a.isDiscrete, a.current, a.progress, a.valueCallback != null,
                              old(a.cachedCurrent), old(a.cachedInterpolatedProgress), old(a.cachedGetValue));
      && (l.Err? ==> r == Err(l.error) && a.cachedGetValue == old(a.cachedGetValue))
      && (l.Ok? && l.value.Cached? ==> r == Ok(l.value.value) && a.cachedGetValue == old(a.cachedGetValue))
      && (l.Ok? && l.value.Evaluate? ==>
            var v := ValueAtOf(l.value.keyframe, l.value.progress, CallbackView(a.valueCallback),
                               LinearProgressOf(a.isDiscrete, a.current, a.progress), a.progress, FLerp);
            && (v.Err? ==> r == Err(v.error) && a.cachedGetValue == old(a.cachedGetValue))
            && (v.Ok? ==> r == Ok(Some(v.value)) && a.cachedGetValue == Some(v.value)))
    ensures (a.cachedCurrent, a.cachedInterpolatedProgress)
      == CacheAfter(a.keyframes, a.isDiscrete, a.current, a.progress, a.valueCallback != null,
                    old(a.cachedCurrent), old(a.cachedInterpolatedProgress))
    ensures r.Ok? ==> r.value == a.cachedGetValue
  {
    var l := a.Lookup();
    if l.Err? {
      return Err(l.error);
    }
    match l.value
    case Cached(v) =>
      r := Ok(v);
    case Evaluate(k, t) =>
      var v := FloatValueAt(a, k, t);
      if v.Err? {
        return Err(v.error);
      }
      a.Remember(Some(v.value));
      r := Ok(Some(v.value));
  }

  /** `IntegerKeyframeAnimation.getIntValue(keyframe, progress)`. */
  method IntValueAt(a: BaseKeyframeAnimation<int, int>, k: Keyframe<int>, p: Float) returns (r: Result<int>)
    requires a.Valid() && IntMemo(k)
    modifies k`startValueInt, k`endValueInt, Attached(a.valueCallback)`frameInfo
    ensures IntMemo(k)
    ensures r == ValueAtOf(k, p, CallbackView(a.valueCallback), LinearProgressOf(a.isDiscrete, a.current, a.progress),
                           a.progress, LerpInt)
    ensures AsksCallback(k, a.valueCallback, LinearProgressOf(a.isDiscrete, a.current, a.progress)) ==>
      a.valueCallback.frameInfo == InfoAfter(k, p, LinearProgressOf(a.isDiscrete, a.current, a.progress), a.progress)
  {
    if k.startValue.None? || k.endValue.None? {
      return Err(IllegalState);
    }
    if a.valueCallback != null {
      if k.endFrame.None? {
        return Err(NullPointer);
      }
      var linear := LinearProgressOf(a.isDiscrete, a.current, a.progress);
      if linear.Err? {
        return Err(linear.error);
      }
      var v := a.valueCallback.GetValueInternal(k.startFrame, k.endFrame.value, k.startValue, k.endValue,
                                                p, linear.value, a.progress);
      if v.Some? {
        return Ok(v.value);
      }
    }
    ghost var info := CallbackInfo(a.valueCallback);
    var s := StartValueInt(k);
    var e := EndValueInt(k);
    assert CallbackInfo(a.valueCallback) == info;
    r := Ok(LerpInt(s.value, e.value, p));
  }

  /** `IntegerKeyframeAnimation.getIntValue()`: the current keyframe at the eased progress. */
  method IntValue(a: BaseKeyframeAnimation<int, int>) returns (r: Result<int>)
    requires a.Valid() && (a.current != null ==> IntMemo(a.current))
    modifies Present(a.current)`startValueInt, Present(a.current)`endValueInt, Attached(a.valueCallback)`frameInfo
    ensures a.current != null ==> IntMemo(a.current)
    ensures a.current == null ==> r == Err(IllegalState)
    ensures a.current != null ==>
      r == ValueAtOf(a.current, LinearProgressOf(a.isDiscrete, a.current, a.progress).value,
                     CallbackView(a.valueCallback), LinearProgressOf(a.isDiscrete, a.current, a.progress),
                     a.progress, LerpInt)
  {
    if a.current == null {
      return Err(IllegalState);
    }
    var t := InterpolatedProgressOf(a.isDiscrete, a.current, a.progress);
    r := IntValueAt(a, a.current, t.value);
  }

  /** `getValue()` of a int animation: the cache, or the current keyframe evaluated and cached. */
  method GetInt(a: BaseKeyframeAnimation<int, int>) returns (r: Result<Option<int>>)
    requires a.Valid() && (a.current != null ==> IntMemo(a.current))
    modifies a`cachedCurrent, a`cachedInterpolatedProgress, a`cachedGetValue
    modifies Present(a.current)`startValueInt, Present(a.current)`endValueInt, Attached(a.valueCallback)`frameInfo
    ensures a.current != null ==> IntMemo(a.current)
    ensures var l := LookupOf(a.keyframes, a.isDiscrete, a.current, a.progress, a.valueCallback != null,
                              old(a.cachedCurrent), old(a.cachedInterpolatedProgress), old(a.cachedGetValue));
      && (l.Err? ==> r == Err(l.error) && a.cachedGetValue == old(a.cachedGetValue))
      && (l.Ok? && l.value.Cached? ==> r == Ok(l.value.value) && a.cachedGetValue == old(a.cachedGetValue))
      && (l.Ok? && l.value.Evaluate? ==>
            var v := ValueAtOf(l.value.keyframe, l.value.progress, CallbackView(a.valueCallback),
                               LinearProgressOf(a.isDiscrete, a.current, a.progress), a.progress, LerpInt);
            && (v.Err? ==> r == Err(v.error) && a.cachedGetValue == old(a.cachedGetValue))
            && (v.Ok? ==> r == Ok(Some(v.value)) && a.cachedGetValue == Some(v.value)))
    ensures (a.cachedCurrent, a.cachedInterpolatedProgress)
      == CacheAfter(a.keyframes, a.isDiscrete, a.current, a.progress, a.valueCallback != null,
                    old(a.cachedCurrent), old(a.cachedInterpolatedProgress))
    ensures r.Ok? ==> r.value == a.cachedGetValue
  {
    var l := a.Lookup();
    if l.Err? {
      return Err(l.error);
    }
    match l.value
    case Cached(v) =>
      r := Ok(v);
    case Evaluate(k, t) =>
      var v := IntValueAt(a, k, t);
      if v.Err? {
        return Err(v.error);
      }
      a.Remember(Some(v.value));
      r := Ok(Some(v.value));
  }

  /**
   * A scale animation: its answers are written into one scale pair that
   * every evaluation overwrites.
   */
  class ScaleKeyframeAnimation {
    const base: BaseKeyframeAnimation<FloatScaleXY, FloatScaleXY>
    var scaleXY: FloatScaleXY

    constructor (keyframes: seq<Keyframe<FloatScaleXY>>)
      ensures fresh(base) && base.keyframes == keyframes && base.Valid()
      ensures base.listeners == [] && base.notified == [] && base.valueCallback == null && base.progress == Num(0.0)
      ensures base.cachedGetValue.None? && base.cachedCurrent == null
      ensures scaleXY == FloatScaleXY(Num(1.0), Num(1.0))
    {
      base := new BaseKeyframeAnimation(keyframes);
      scaleXY := FloatScaleXY(Num(1.0), Num(1.0));
    }

    /** `getValue(keyframe, progress)`: the blend is written into the shared pair. */
    method ValueAt(k: Keyframe<FloatScaleXY>, p: Float) returns (r: Result<FloatScaleXY>)
      requires base.Valid()
      modifies this`scaleXY, Attached(base.valueCallback)`frameInfo
      ensures r == ValueAtOf(k, p, CallbackView(base.valueCallback),
                             LinearProgressOf(base.isDiscrete, base.current, base.progress), base.progress, LerpScale)
      ensures AsksCallback(k, base.valueCallback, LinearProgressOf(base.isDiscrete, base.current, base.progress)) ==>
        base.valueCallback.frameInfo
          == InfoAfter(k, p, LinearProgressOf(base.isDiscrete, base.current, base.progress), base.progress)
      ensures scaleXY == old(scaleXY) || (r.Ok? && scaleXY == r.value)
      ensures r.Ok? && base.valueCallback == null ==> scaleXY == r.value
    {
      if k.startValue.None? || k.endValue.None? {
        return Err(IllegalState);
      }
      var startTransform, endTransform := k.startValue.value, k.endValue.value;
      if base.valueCallback != null {
        if k.endFrame.None? {
          return Err(NullPointer);
        }
        var linear := LinearProgressOf(base.isDiscrete, base.current, base.progress);
        if linear.Err? {
          return Err(linear.error);
        }
        var v := base.valueCallback.GetValueInternal(k.startFrame, k.endFrame.value, k.startValue, k.endValue,
                                                     p, linear.value, base.progress);
        if v.Some? {
          return Ok(v.value);
        }
      }
      scaleXY := LerpScale(startTransform, endTransform, p);
      r := Ok(scaleXY);
    }
    /** `getValue()`: the cache, or the current keyframe evaluated into the shared pair and cached. */
    method GetValue() returns (r: Result<Option<FloatScaleXY>>)
      requires base.Valid()
      modifies base`cachedCurrent, base`cachedInterpolatedProgress, base`cachedGetValue, this`scaleXY
      modifies Attached(base.valueCallback)`frameInfo
      ensures var l := LookupOf(base.keyframes, base.isDiscrete, base.current, base.progress, base.valueCallback != null,
                                old(base.cachedCurrent), old(base.cachedInterpolatedProgress), old(base.cachedGetValue));
        && (l.Err? ==> r == Err(l.error) && base.cachedGetValue == old(base.cachedGetValue))
        && (l.Ok? && l.value.Cached? ==> r == Ok(l.value.value) && base.cachedGetValue == old(base.cachedGetValue))
        && (l.Ok? && l.value.Evaluate? ==>
              var v := ValueAtOf(l.value.keyframe, l.value.progress, CallbackView(base.valueCallback),
                                 LinearProgressOf(base.isDiscrete, base.current, base.progress), base.progress, LerpScale);
              && (v.Err? ==> r == Err(v.error) && base.cachedGetValue == old(base.cachedGetValue))
              && (v.Ok? ==> r == Ok(Some(v.value)) && base.cachedGetValue == Some(v.value)))
      ensures (base.cachedCurrent, base.cachedInterpolatedProgress)
        == CacheAfter(base.keyframes, base.isDiscrete, base.current, base.progress, base.valueCallback != null,
                      old(base.cachedCurrent), old(base.cachedInterpolatedProgress))
    {
      var l := base.Lookup();
      if l.Err? {
        return Err(l.error);
      }
      match l.value
      case Cached(v) =>
        r := Ok(v);
      case Evaluate(k, t) =>
        var v := ValueAt(k, t);
        if v.Err? {
          return Err(v.error);
        }
        base.Remember(Some(v.value));
        r := Ok(Some(v.value));
    }
  }
}
