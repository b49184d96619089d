/**
 * The frame clock: a current frame moved by explicit ticks, kept inside
 * [min, max] frame bounds that are either unset (sentinels) or clamped into
 * the composition's frame range, with listener notifications on every move.
 */
module ValueAnimator {
  import opened Wrappers
  import opened JavaNum
  import opened AnimatorListeners
  import Composition

  /** `Integer.MIN_VALUE` and `Integer.MAX_VALUE` stored in a float field: "no bound requested". */
  const MIN_UNSET: real := INT_MIN as real
  const MAX_UNSET: real := INT_MAX as real

  /** The loop count that never ends playback. */
  const INFINITE: int := -1

  const SECOND_IN_NANOS: real := 1000000000.0

  /** A composition whose frame range is ordered and strictly inside the sentinels. */
  predicate RangeOk(c: Composition.LottieComposition)
  {
    MIN_UNSET < c.startFrame <= c.endFrame < MAX_UNSET
  }

  /** The frame `setFrame(f)` leaves behind: the current one when f equals it, else f clamped. */
  function FrameAfterSet(cur: real, f: real, lo: real, hi: real): (r: real)
    ensures cur == f ==> r == cur
    ensures cur != f && lo <= hi ==> lo <= r <= hi
    ensures cur != f && lo <= f <= hi ==> r == f
  {
    if cur == f then cur else Clamp(f, lo, hi)
  }

  /** The update notifications a frame move sends: one per update listener, or none. */
  function UpdatesIf(moved: bool, ls: seq<ListenerId>): seq<Callback>
  {
    if moved then Fanout(ls, OnUpdate) else []
  }

  /**
   * Frames that `elapsed` nanoseconds are worth: elapsed over the frame
   * duration, which is `Float.MAX_VALUE` without a composition and
   * 1e9 / rate / |speed| with one. An infinite duration (rate or speed 0)
   * is worth no frames.
   */
  function DeltaFrames(elapsed: int, hasComposition: bool, frameRate: real, speed: real): real
  {
    if !hasComposition then elapsed as real / FLOAT_MAX
    else if frameRate * Abs(speed) == 0.0 then 0.0
    else elapsed as real * frameRate * Abs(speed) / SECOND_IN_NANOS
  }

  /**
   * The frame `setComposition` ends with, as written: the frame is zeroed
   * and then `setFrame((int) f)` is called, which does nothing when (int) f
   * is 0, so the zero stays whatever the bounds.
   */
  function RecomposedFrameAsWritten(f: real, lo: real, hi: real): real
  {
    FrameAfterSet(0.0, ToInt(f) as real, lo, hi)
  }

  /** The frame `setComposition` evidently means to end with: (int) f clamped into the bounds. */
  function RecomposedFrame(f: real, lo: real, hi: real): (r: real)
    ensures lo <= hi ==> lo <= r <= hi
    ensures lo <= hi && ToInt(f) as real != 0.0 ==> r == RecomposedFrameAsWritten(f, lo, hi)
  {
    Clamp(ToInt(f) as real, lo, hi)
  }

  /** A frame of 0 under bounds [0.5, 10] stays at 0, below the minimum, as written. */
  lemma RecomposedFrameAsWrittenLeavesBounds()
    ensures RecomposedFrameAsWritten(0.0, 0.5, 10.0) == 0.0 < 0.5
    ensures RecomposedFrame(0.0, 0.5, 10.0) == 0.5
  {
  }

  /**
   * The frame `setMinAndMaxFrames(a, b)` evidently means to leave: (int) of
   * the old frame clamped into [a, b], then clamped into the bounds in force.
   * As written, `setFrame` returns early when that request equals the current
   * frame, before clamping it, so the frame is kept even outside the bounds.
   */
  function RebindFrame(cur: real, a: real, b: real, lo: real, hi: real): (r: real)
    ensures lo <= hi ==> lo <= r <= hi
  {
    Clamp(ToInt(Clamp(cur, a, b)) as real, lo, hi)
  }

  /**
   * The code as written (`FrameAfterSet` of the truncated request) and the
   * intended re-bound agree exactly when the frame moves or already lies in
   * the bounds in force.
   */
  lemma RebindAgrees(cur: real, a: real, b: real, lo: real, hi: real)
    requires lo <= hi
    ensures var t := ToInt(Clamp(cur, a, b)) as real;
      FrameAfterSet(cur, t, lo, hi) == RebindFrame(cur, a, b, lo, hi) <==> cur != t || lo <= cur <= hi
  {
  }

  /**
   * As written, with frame 200 inside a [0, 1000] composition,
   * `setMinAndMaxFrames(200.5, 800)` asks `setFrame((int) 200.5)`, that is
   * 200, the current frame, so the frame stays at 200 below the new minimum
   * 200.5; the intended re-bound gives 200.5.
   */
  lemma RebindAsWrittenLeavesBounds()
    ensures FrameAfterSet(200.0, ToInt(Clamp(200.0, 200.5, 800.0)) as real, 200.5, 800.0) == 200.0 < 200.5
    ensures RebindFrame(200.0, 200.5, 800.0, 200.5, 800.0) == 200.5
  {
  }

  /** The lower bound in force: 0 without a composition, its start while unset. */
  function MinInForce(c: Composition.LottieComposition?, minFrame: real): real
  {
    if c == null then 0.0 else if minFrame == MIN_UNSET then c.startFrame else minFrame
  }

  /** The upper bound in force: 0 without a composition, its end while unset. */
  function MaxInForce(c: Composition.LottieComposition?, maxFrame: real): real
  {
    if c == null then 0.0 else if maxFrame == MAX_UNSET then c.endFrame else maxFrame
  }

  /** The range requested bounds are clamped into: the composition's, or the whole float range. */
  function RangeLo(c: Composition.LottieComposition?): real
  {
    if c == null then -FLOAT_MAX else c.startFrame
  }

  function RangeHi(c: Composition.LottieComposition?): real
  {
    if c == null then FLOAT_MAX else c.endFrame
  }

  /** Bounds set inside the composition's range and the frame inside the bounds. */
  predicate Playable(c: Composition.LottieComposition?, minFrame: real, maxFrame: real, frame: real)
  {
    c != null && RangeOk(c) &&
    c.startFrame <= minFrame <= maxFrame <= c.endFrame &&
    minFrame <= frame <= maxFrame
  }

  /** When playable, the bounds in force are the stored ones. */
  lemma BoundsInForce(c: Composition.LottieComposition?, minFrame: real, maxFrame: real, frame: real)
    requires Playable(c, minFrame, maxFrame, frame)
    ensures MinInForce(c, minFrame) == minFrame && MaxInForce(c, maxFrame) == maxFrame
  {
  }

  /** The bound playback starts from, cast to int: the maximum when reversed, else the minimum. */
  function StartFrame(speed: real, c: Composition.LottieComposition?, minFrame: real, maxFrame: real): real
  {
    ToInt(if speed < 0.0 then MaxInForce(c, maxFrame) else MinInForce(c, minFrame)) as real
  }

  /** The frame a tick at time `now` moves to before any clamping. */
  function Advanced(frame: real, speed: real, lastFrameTimeNs: int, now: int, c: Composition.LottieComposition?): real
  {
    var elapsed := if lastFrameTimeNs == 0 then 0 else now - lastFrameTimeNs;
    var d := DeltaFrames(elapsed, c != null, if c == null then 0.0 else c.frameRate, speed);
    if speed < 0.0 then frame - d else frame + d
  }

  /** Whether the loop count allows no further repeat. */
  predicate LoopsExhausted(loopedCount: int, repeatCount: int)
  {
    loopedCount != INFINITE && repeatCount >= loopedCount
  }

  /**
   * The bounds `setComposition` requests: the first composition keeps
   * earlier requests intersected with its range, a later one takes its
   * whole range; both are cast to int.
   */
  function RequestedMin(prev: Composition.LottieComposition?, minFrame: real, c: Composition.LottieComposition): real
  {
    if prev == null then ToInt(Max(minFrame, c.startFrame)) as real else ToInt(c.startFrame) as real
  }

  function RequestedMax(prev: Composition.LottieComposition?, maxFrame: real, c: Composition.LottieComposition): real
  {
    if prev == null then ToInt(Min(maxFrame, c.endFrame)) as real else ToInt(c.endFrame) as real
  }

  /** The position in the whole composition, whatever the bounds or the direction. */
  function AbsoluteValue(c: Composition.LottieComposition?, frame: real): Float
  {
    if c == null then Num(0.0) else Div(frame - c.startFrame, c.endFrame - c.startFrame)
  }

  /** The position inside the bounds, measured from the end the playback starts at. */
  function PlaybackFraction(c: Composition.LottieComposition?, speed: real, minFrame: real, maxFrame: real, frame: real): Float
  {
    var lo, hi := MinInForce(c, minFrame), MaxInForce(c, maxFrame);
    if c == null then Num(0.0)
    else if speed < 0.0 then Div(hi - frame, hi - lo)
    else Div(frame - lo, hi - lo)
  }

  class LottieValueAnimator {
    /** The listener sets and notification log inherited from the base animator. */
    const base: Notifier

    var speed: real
    var lastFrameTimeNs: int
    var frame: real
    var repeatCount: int
    var minFrame: real
    var maxFrame: real
    var composition: Composition.LottieComposition?
    var running: bool
    /** The platform animator's loop count; `INFINITE` loops for ever. */
    var loopedCount: int

    ghost predicate Valid()
      reads this`minFrame, this`maxFrame, base`updateListeners, base`stateListeners, base`repeatListeners
    {
      base.Valid() && minFrame <= maxFrame
    }

    constructor ()
      ensures Valid() && fresh(base)
      ensures speed == 1.0 && lastFrameTimeNs == 0 && frame == 0.0 && repeatCount == 0
      ensures minFrame == MIN_UNSET && maxFrame == MAX_UNSET && composition == null
      ensures !running && loopedCount == 0
      ensures base.updateListeners == [] && base.stateListeners == [] && base.repeatListeners == []
      ensures base.calls == []
    {
      base := new Notifier();
      speed, lastFrameTimeNs, frame, repeatCount := 1.0, 0, 0.0, 0;
      minFrame, maxFrame := MIN_UNSET, MAX_UNSET;
      composition := null;
      running := false;
      loopedCount := 0;
    }

    predicate IsReversed()
      reads this`speed
    {
      speed < 0.0
    }

    function GetMinFrame(): real
      reads this`composition, this`minFrame
    {
      MinInForce(composition, minFrame)
    }

    function GetMaxFrame(): real
      reads this`composition, this`maxFrame
    {
      MaxInForce(composition, maxFrame)
    }

    function AnimatedValueAbsolute(): Float
      reads this`composition, this`frame
    {
      AbsoluteValue(composition, frame)
    }

    function AnimatedFraction(): Float
      reads this`composition, this`speed, this`minFrame, this`maxFrame, this`frame
    {
      PlaybackFraction(composition, speed, minFrame, maxFrame, frame)
    }

    method SetFrame(f: real)
      requires Valid()
      modifies this`frame, this`lastFrameTimeNs, base`calls
      ensures Valid()
      ensures frame == FrameAfterSet(old(frame), f, MinInForce(composition, minFrame), MaxInForce(composition, maxFrame))
      ensures lastFrameTimeNs == if old(frame) == f then old(lastFrameTimeNs) else 0
      ensures base.calls == old(base.calls) + UpdatesIf(old(frame) != f, base.updateListeners)
      ensures Playable(composition, minFrame, maxFrame, old(frame)) ==> Playable(composition, minFrame, maxFrame, frame)
    {
      if frame == f {
        return;
      }
      frame := Clamp(f, MinInForce(composition, minFrame), MaxInForce(composition, maxFrame));
      lastFrameTimeNs := 0;
      base.NotifyUpdate();
    }

    /**
     * Sets both bounds, clamped into the composition's range, then moves the
     * frame to (int) of the old frame clamped into the requested [a, b].
     */
    method SetMinAndMaxFrames(a: real, b: real) returns (r: Outcome)
      requires Valid()
      modifies this`minFrame, this`maxFrame, this`frame, this`lastFrameTimeNs, base`calls
      ensures Valid()
      ensures a > b ==> r == Failure(IllegalArgument)
      ensures a > b ==> minFrame == old(minFrame) && maxFrame == old(maxFrame) && frame == old(frame)
      ensures a > b ==> lastFrameTimeNs == old(lastFrameTimeNs) && base.calls == old(base.calls)
      ensures a <= b ==> r == Success
      ensures a <= b ==> minFrame == Clamp(a, RangeLo(composition), RangeHi(composition))
      ensures a <= b ==> maxFrame == Clamp(b, RangeLo(composition), RangeHi(composition))
      ensures a <= b ==>
        var t := ToInt(Clamp(old(frame), a, b)) as real;
        frame == FrameAfterSet(old(frame), t, MinInForce(composition, minFrame), MaxInForce(composition, maxFrame)) &&
        lastFrameTimeNs == (if old(frame) == t then old(lastFrameTimeNs) else 0) &&
        base.calls == old(base.calls) + UpdatesIf(old(frame) != t, base.updateListeners)
      ensures Playable(composition, old(minFrame), old(maxFrame), old(frame)) && a <= b &&
              (Contains(old(frame), a, b) || (IsIntegral(a) && IsIntegral(b))) ==>
        Playable(composition, minFrame, maxFrame, frame)
    {
      if a > b {
        return Failure(IllegalArgument);
      }
      var lo, hi := RangeLo(composition), RangeHi(composition);
      ghost var p := Playable(composition, minFrame, maxFrame, frame);
      minFrame := Clamp(a, lo, hi);
      maxFrame := Clamp(b, lo, hi);
      ClampMonotone(a, b, lo, hi);
      var t := ToInt(Clamp(frame, a, b)) as real;
      ghost var f0 := frame;
      SetFrame(t);
      if p && (Contains(f0, a, b) || (IsIntegral(a) && IsIntegral(b))) {
        NoOpStaysInside(f0, a, b, minFrame, maxFrame, lo, hi);
      }
      r := Success;
    }

    /** `setMinFrame(int)`: the new minimum with the current maximum cast to int. */
    method SetMinFrame(m: int) returns (r: Outcome)
      requires Valid()
      modifies this`minFrame, this`maxFrame, this`frame, this`lastFrameTimeNs, base`calls
      ensures Valid()
      ensures r == Success || r == Failure(IllegalArgument)
      ensures r == Failure(IllegalArgument) <==> m as real > ToInt(old(maxFrame)) as real
      ensures r == Success ==> minFrame == Clamp(m as real, RangeLo(composition), RangeHi(composition))
      ensures r == Success ==> maxFrame == Clamp(ToInt(old(maxFrame)) as real, RangeLo(composition), RangeHi(composition))
      ensures r.Failure? ==> minFrame == old(minFrame) && maxFrame == old(maxFrame) && frame == old(frame)
      ensures r.Failure? ==> lastFrameTimeNs == old(lastFrameTimeNs) && base.calls == old(base.calls)
      ensures r == Success ==>
        var t := ToInt(Clamp(old(frame), m as real, ToInt(old(maxFrame)) as real)) as real;
        frame == FrameAfterSet(old(frame), t, MinInForce(composition, minFrame), MaxInForce(composition, maxFrame)) &&
        lastFrameTimeNs == (if old(frame) == t then old(lastFrameTimeNs) else 0) &&
        base.calls == old(base.calls) + UpdatesIf(old(frame) != t, base.updateListeners)
    {
      r := SetMinAndMaxFrames(m as real, ToInt(maxFrame) as real);
    }

    /** `setMaxFrame(float)`: the current minimum with the new maximum. */
    method SetMaxFrame(m: real) returns (r: Outcome)
      requires Valid()
      modifies this`minFrame, this`maxFrame, this`frame, this`lastFrameTimeNs, base`calls
      ensures Valid()
      ensures r == Success || r == Failure(IllegalArgument)
      ensures r == Failure(IllegalArgument) <==> old(minFrame) > m
      ensures r == Success ==> minFrame == Clamp(old(minFrame), RangeLo(composition), RangeHi(composition))
      ensures r == Success ==> maxFrame == Clamp(m, RangeLo(composition), RangeHi(composition))
      ensures r.Failure? ==> minFrame == old(minFrame) && maxFrame == old(maxFrame) && frame == old(frame)
      ensures r.Failure? ==> lastFrameTimeNs == old(lastFrameTimeNs) && base.calls == old(base.calls)
      ensures r == Success ==>
        var t := ToInt(Clamp(old(frame), old(minFrame), m)) as real;
        frame == FrameAfterSet(old(frame), t, MinInForce(composition, minFrame), MaxInForce(composition, maxFrame)) &&
        lastFrameTimeNs == (if old(frame) == t then old(lastFrameTimeNs) else 0) &&
        base.calls == old(base.calls) + UpdatesIf(old(frame) != t, base.updateListeners)
    {
      r := SetMinAndMaxFrames(minFrame, m);
    }

    /** Forgets the composition and both requested bounds; the frame is kept. */
    method ClearComposition()
      modifies this`composition, this`minFrame, this`maxFrame
      ensures composition == null && minFrame == MIN_UNSET && maxFrame == MAX_UNSET
      ensures MinInForce(composition, minFrame) == 0.0 && MaxInForce(composition, maxFrame) == 0.0
      ensures base.Valid() == old(base.Valid()) && (old(base.Valid()) ==> Valid())
    {
      composition := null;
      minFrame, maxFrame := MIN_UNSET, MAX_UNSET;
    }

    /**
     * Adopts a composition: sets the requested bounds (which throws when
     * they cross), re-clamps the frame and notifies the update listeners.
     */
    method SetComposition(c: Composition.LottieComposition) returns (r: Outcome)
      requires Valid()
      modifies this`composition, this`minFrame, this`maxFrame, this`frame, this`lastFrameTimeNs, base`calls
      ensures Valid() && composition == c
      ensures r == Success || r == Failure(IllegalArgument)
      ensures r == Failure(IllegalArgument) <==>
        RequestedMin(old(composition), old(minFrame), c) > RequestedMax(old(composition), old(maxFrame), c)
      ensures r.Failure? ==> minFrame == old(minFrame) && maxFrame == old(maxFrame) && frame == old(frame)
      ensures r.Failure? ==> lastFrameTimeNs == old(lastFrameTimeNs) && base.calls == old(base.calls)
      ensures r.Success? ==>
        minFrame == Clamp(RequestedMin(old(composition), old(minFrame), c), c.startFrame, c.endFrame) &&
        maxFrame == Clamp(RequestedMax(old(composition), old(maxFrame), c), c.startFrame, c.endFrame)
      ensures r.Success? ==>
        var lo, hi := MinInForce(c, minFrame), MaxInForce(c, maxFrame);
        var a, b := RequestedMin(old(composition), old(minFrame), c), RequestedMax(old(composition), old(maxFrame), c);
        var t := ToInt(Clamp(old(frame), a, b)) as real;
        var f := FrameAfterSet(old(frame), t, lo, hi);
        frame == RecomposedFrame(f, lo, hi) &&
        lastFrameTimeNs == (if ToInt(f) != 0 || old(frame) != t then 0 else old(lastFrameTimeNs)) &&
        base.calls == old(base.calls) + UpdatesIf(old(frame) != t, base.updateListeners)
                      + UpdatesIf(ToInt(f) != 0, base.updateListeners) + Fanout(base.updateListeners, OnUpdate)
      ensures old(composition) != null && RangeOk(c) ==> r == Success
      ensures r == Success && RangeOk(c) ==> Playable(c, minFrame, maxFrame, frame)
      ensures r == Success && old(composition) != null && RangeOk(c) &&
              IsIntegral(c.startFrame) && IsIntegral(c.endFrame) ==>
        minFrame == c.startFrame && maxFrame == c.endFrame
    {
      var a, b := RequestedMin(composition, minFrame, c), RequestedMax(composition, maxFrame, c);
      var later := composition != null;
      composition := c;
      if later && RangeOk(c) {
        TruncMonotone(c.startFrame, c.endFrame);
      }
      r := Recompose(a, b);
      if r.Success? && RangeOk(c) {
        ComposedBounds(a, b, c.startFrame, c.endFrame, later);
      }
    }

    /**
     * The part of `setComposition` after the composition is stored: the
     * requested bounds are set, which throws when they cross, and the frame
     * is re-clamped.
     */
    method Recompose(a: real, b: real) returns (r: Outcome)
      requires Valid() && composition != null
      modifies this`minFrame, this`maxFrame, this`frame, this`lastFrameTimeNs, base`calls
      ensures Valid()
      ensures r == Success || r == Failure(IllegalArgument)
      ensures r == Failure(IllegalArgument) <==> a > b
      ensures r.Failure? ==> minFrame == old(minFrame) && maxFrame == old(maxFrame) && frame == old(frame)
      ensures r.Failure? ==> lastFrameTimeNs == old(lastFrameTimeNs) && base.calls == old(base.calls)
      ensures r.Success? ==>
        minFrame == Clamp(a, composition.startFrame, composition.endFrame) &&
        maxFrame == Clamp(b, composition.startFrame, composition.endFrame)
      ensures r.Success? ==>
        var lo, hi := MinInForce(composition, minFrame), MaxInForce(composition, maxFrame);
        var t := ToInt(Clamp(old(frame), a, b)) as real;
        var f := FrameAfterSet(old(frame), t, lo, hi);
        frame == RecomposedFrame(f, lo, hi) &&
        lastFrameTimeNs == (if ToInt(f) != 0 || old(frame) != t then 0 else old(lastFrameTimeNs)) &&
        base.calls == old(base.calls) + UpdatesIf(old(frame) != t, base.updateListeners)
                      + UpdatesIf(ToInt(f) != 0, base.updateListeners) + Fanout(base.updateListeners, OnUpdate)
    {
      r := SetMinAndMaxFrames(a, b);
      if r.Failure? {
        return;
      }
      Reclamp();
    }

    /**
     * The tail of `setComposition`: the frame is zeroed and `setFrame((int) f)`
     * called, then the update listeners are notified for the new composition.
     * When (int) f is 0 that `setFrame` returns early: the tick clock is kept
     * and only the one notification is sent. The frame takes the corrected
     * re-clamp, which differs from the code as written only when 0 is outside
     * the bounds in force.
     */
    method Reclamp()
      requires Valid()
      modifies this`frame, this`lastFrameTimeNs, base`calls
      ensures Valid()
      ensures frame == RecomposedFrame(old(frame), MinInForce(composition, minFrame), MaxInForce(composition, maxFrame))
      ensures lastFrameTimeNs == (if ToInt(old(frame)) == 0 then old(lastFrameTimeNs) else 0)
      ensures base.calls == old(base.calls) + UpdatesIf(ToInt(old(frame)) != 0, base.updateListeners)
                            + Fanout(base.updateListeners, OnUpdate)
    {
      var t := ToInt(frame);
      frame := Clamp(t as real, MinInForce(composition, minFrame), MaxInForce(composition, maxFrame));
      if t != 0 {
        lastFrameTimeNs := 0;
        base.NotifyUpdate();
      }
      base.NotifyUpdate();
    }

    method ReverseAnimationSpeed()
      modifies this`speed
      ensures speed == -old(speed)
    {
      speed := -speed;
    }

    method SetSpeed(s: real)
      modifies this`speed
      ensures speed == s
    {
      speed := s;
    }

    method SetLoopedCount(n: int)
      modifies this`loopedCount
      ensures loopedCount == n
    {
      loopedCount := n;
    }

    /**
     * Starts playback from the bound the direction starts at (cast to int),
     * with the repeat count and the tick clock reset.
     */
    method PlayAnimation()
      requires Valid()
      modifies this`running, this`frame, this`lastFrameTimeNs, this`repeatCount, base`calls
      ensures Valid()
      ensures running && repeatCount == 0 && lastFrameTimeNs == 0
      ensures frame == FrameAfterSet(old(frame), StartFrame(speed, composition, minFrame, maxFrame),
                                     MinInForce(composition, minFrame), MaxInForce(composition, maxFrame))
      ensures base.calls == old(base.calls) + Fanout(base.stateListeners, OnStart)
                            + UpdatesIf(old(frame) != StartFrame(speed, composition, minFrame, maxFrame), base.updateListeners)
      ensures Playable(composition, minFrame, maxFrame, old(frame)) ==> Playable(composition, minFrame, maxFrame, frame)
      ensures Playable(composition, minFrame, maxFrame, old(frame)) && IsIntegral(minFrame) && IsIntegral(maxFrame) ==>
        frame == if speed < 0.0 then maxFrame else minFrame
    {
      var t := StartFrame(speed, composition, minFrame, maxFrame);
      ghost var f0, calls0 := frame, base.calls;
      running := true;
      base.NotifyStart(speed < 0.0);
      ghost var calls1 := base.calls;
      assert calls1 == calls0 + Fanout(base.stateListeners, OnStart);
      SetFrame(t);
      assert base.calls == calls1 + UpdatesIf(old(frame) != t, base.updateListeners);
      lastFrameTimeNs := 0;
      repeatCount := 0;
      assert t == StartFrame(speed, composition, minFrame, maxFrame);
      if Playable(composition, minFrame, maxFrame, f0) && IsIntegral(minFrame) && IsIntegral(maxFrame) {
        WholeStartFrame(composition, speed, minFrame, maxFrame, f0);
      }
    }

    /** Stops playback and notifies the end. */
    method EndAnimation()
      modifies this`running, base`calls
      ensures !running
      ensures base.calls == old(base.calls) + Fanout(base.stateListeners, OnEnd)
    {
      running := false;
      base.NotifyEnd(speed < 0.0);
    }

    method PauseAnimation()
      modifies this`running
      ensures !running
    {
      running := false;
    }

    /**
     * Continues playback from the current frame, except that a frame sitting
     * on the bound the direction ends at jumps to the other bound.
     */
    method ResumeAnimation()
      modifies this`running, this`lastFrameTimeNs, this`frame
      ensures running && lastFrameTimeNs == 0
      ensures speed < 0.0 && old(frame) == MinInForce(composition, minFrame) ==> frame == MaxInForce(composition, maxFrame)
      ensures speed >= 0.0 && old(frame) == MaxInForce(composition, maxFrame) ==> frame == MinInForce(composition, minFrame)
      ensures (speed < 0.0 && old(frame) != MinInForce(composition, minFrame)) ||
              (speed >= 0.0 && old(frame) != MaxInForce(composition, maxFrame)) ==>
        frame == old(frame)
      ensures Playable(composition, minFrame, maxFrame, old(frame)) ==> Playable(composition, minFrame, maxFrame, frame)
    {
      running := true;
      lastFrameTimeNs := 0;
      var lo, hi := MinInForce(composition, minFrame), MaxInForce(composition, maxFrame);
      if speed < 0.0 && frame == lo {
        frame := hi;
      } else if speed >= 0.0 && frame == hi {
        frame := lo;
      }
    }

    method Cancel()
      modifies this`running, base`calls
      ensures !running
      ensures base.calls == old(base.calls) + Fanout(base.stateListeners, OnCancel)
    {
      base.NotifyCancel();
      running := false;
    }

    /**
     * One tick at time `now`: the frame advances by the elapsed frames in the
     * playback direction and is clamped into the bounds. Leaving the bounds
     * either ends playback on the far bound (loops exhausted) or wraps to the
     * start bound with a repeat. Afterwards a frame outside the raw bounds
     * is an error.
     */
    method DoFrame(now: int) returns (r: Outcome)
      requires Valid()
      modifies this`frame, this`lastFrameTimeNs, this`running, this`repeatCount, base`calls
      ensures Valid() && lastFrameTimeNs == now
      ensures
        var lo, hi := MinInForce(composition, minFrame), MaxInForce(composition, maxFrame);
        var f := Advanced(old(frame), speed, old(lastFrameTimeNs), now, composition);
        Contains(f, lo, hi) ==>
          frame == f && repeatCount == old(repeatCount) && running == old(running) &&
          base.calls == old(base.calls) + Fanout(base.updateListeners, OnUpdate)
      ensures
        var lo, hi := MinInForce(composition, minFrame), MaxInForce(composition, maxFrame);
        var f := Advanced(old(frame), speed, old(lastFrameTimeNs), now, composition);
        !Contains(f, lo, hi) && LoopsExhausted(loopedCount, old(repeatCount)) ==>
          frame == (if speed < 0.0 then lo else hi) && !running && repeatCount == old(repeatCount) &&
          base.calls == old(base.calls) + Fanout(base.updateListeners, OnUpdate) + Fanout(base.stateListeners, OnEnd)
      ensures
        var lo, hi := MinInForce(composition, minFrame), MaxInForce(composition, maxFrame);
        var f := Advanced(old(frame), speed, old(lastFrameTimeNs), now, composition);
        !Contains(f, lo, hi) && !LoopsExhausted(loopedCount, old(repeatCount)) ==>
          frame == (if speed < 0.0 then hi else lo) && running == old(running) &&
          repeatCount == old(repeatCount) + 1 &&
          base.calls == old(base.calls) + Fanout(base.updateListeners, OnUpdate) + Fanout(base.repeatListeners, OnRepeat)
      ensures r == Failure(IllegalState) <==> composition != null && (frame < minFrame || frame > maxFrame)
      ensures r.Success? || r == Failure(IllegalState)
      ensures Playable(composition, minFrame, maxFrame, old(frame)) ==>
        r == Success && Playable(composition, minFrame, maxFrame, frame)
    {
      var lo, hi := MinInForce(composition, minFrame), MaxInForce(composition, maxFrame);
      var f := Advanced(frame, speed, lastFrameTimeNs, now, composition);
      var ended := !Contains(f, lo, hi);
      frame := Clamp(f, lo, hi);
      lastFrameTimeNs := now;
      base.NotifyUpdate();
      if ended {
        if LoopsExhausted(loopedCount, repeatCount) {
          frame := if speed < 0.0 then lo else hi;
          running := false;
          base.NotifyEnd(speed < 0.0);
        } else {
          base.NotifyRepeat();
          repeatCount := repeatCount + 1;
          frame := if speed < 0.0 then hi else lo;
          lastFrameTimeNs := now;
        }
      }
      if composition != null && (frame < minFrame || frame > maxFrame) {
        return Failure(IllegalState);
      }
      r := Success;
    }
  }

  /** The forward fraction: how far the frame is from the minimum, as a part of the bounds' span. */
  function ForwardFraction(lo: real, hi: real, frame: real): real
    requires lo != hi
  {
    (frame - lo) / (hi - lo)
  }

  /** The reversed fraction is the forward one measured from the other end. */
  lemma FractionByDirection(c: Composition.LottieComposition?, speed: real, minFrame: real, maxFrame: real, frame: real)
    requires c != null && MinInForce(c, minFrame) < MaxInForce(c, maxFrame)
    ensures
      var lo, hi := MinInForce(c, minFrame), MaxInForce(c, maxFrame);
      PlaybackFraction(c, speed, minFrame, maxFrame, frame) ==
        Num(if speed < 0.0 then 1.0 - ForwardFraction(lo, hi, frame) else ForwardFraction(lo, hi, frame))
  {
    var lo, hi := MinInForce(c, minFrame), MaxInForce(c, maxFrame);
    if speed < 0.0 {
      ShareOfRest(frame - lo, hi - lo);
      assert hi - frame == (hi - lo) - (frame - lo);
    }
  }

  /** Playing inside bounds wider than a frame, the fraction lies in [0, 1]. */
  lemma FractionInUnitInterval(c: Composition.LottieComposition?, speed: real, minFrame: real, maxFrame: real, frame: real)
    requires Playable(c, minFrame, maxFrame, frame) && minFrame < maxFrame
    ensures
      var r := PlaybackFraction(c, speed, minFrame, maxFrame, frame);
      r.Num? && 0.0 <= r.v <= 1.0
  {
    QuotientInUnit(frame - minFrame, maxFrame - minFrame);
    QuotientInUnit(maxFrame - frame, maxFrame - minFrame);
  }

  /** Inside a composition longer than a frame, the absolute value lies in [0, 1]. */
  lemma AbsoluteValueInUnitInterval(c: Composition.LottieComposition?, minFrame: real, maxFrame: real, frame: real)
    requires Playable(c, minFrame, maxFrame, frame) && c.startFrame < c.endFrame
    ensures AbsoluteValue(c, frame).Num? && 0.0 <= AbsoluteValue(c, frame).v <= 1.0
  {
    QuotientInUnit(frame - c.startFrame, c.endFrame - c.startFrame);
  }

  /**
   * Bounds requested in order and clamped into a sentinel-free range lie
   * inside it, differ from the sentinels, and, for a later composition
   * with whole-frame ends, are exactly those ends.
   */
  lemma ComposedBounds(a: real, b: real, s: real, e: real, later: bool)
    requires MIN_UNSET < s <= e < MAX_UNSET && a <= b
    requires later ==> a == ToInt(s) as real && b == ToInt(e) as real
    ensures s <= Clamp(a, s, e) <= Clamp(b, s, e) <= e
    ensures Clamp(a, s, e) != MIN_UNSET && Clamp(b, s, e) != MAX_UNSET
    ensures later && IsIntegral(s) && IsIntegral(e) ==> Clamp(a, s, e) == s && Clamp(b, s, e) == e
  {
    if later && IsIntegral(s) && IsIntegral(e) {
      IntegralTrunc(s);
      IntegralTrunc(e);
    }
  }

  /** Starting playback between whole-frame bounds lands exactly on the starting bound. */
  lemma WholeStartFrame(c: Composition.LottieComposition?, speed: real, minFrame: real, maxFrame: real, cur: real)
    requires Playable(c, minFrame, maxFrame, cur) && IsIntegral(minFrame) && IsIntegral(maxFrame)
    ensures FrameAfterSet(cur, StartFrame(speed, c, minFrame, maxFrame), MinInForce(c, minFrame), MaxInForce(c, maxFrame))
            == if speed < 0.0 then maxFrame else minFrame
  {
    IntegralTrunc(minFrame);
    IntegralTrunc(maxFrame);
  }

  lemma ClampMonotone(a: real, b: real, lo: real, hi: real)
    requires a <= b
    ensures Clamp(a, lo, hi) <= Clamp(b, lo, hi)
  {
  }

  lemma TruncMonotone(x: real, y: real)
    requires x <= y
    ensures Trunc(x) <= Trunc(y) && ToInt(x) <= ToInt(y)
  {
  }

  lemma IntegralTrunc(x: real)
    requires IsIntegral(x) && INT_MIN as real <= x <= INT_MAX as real
    ensures ToInt(x) as real == x
  {
    var n := x.Floor;
    assert x == n as real;
    if x < 0.0 {
      assert -x == (-n) as real;
      assert (-x).Floor == -n;
    }
    assert Trunc(x) == n;
  }

  /**
   * Re-bounding keeps a frame that was inside the composition's range
   * inside the new bounds, when the frame lies in the requested range or the
   * requested bounds are whole frames.
   */
  lemma NoOpStaysInside(f: real, a: real, b: real, lo: real, hi: real, start: real, end: real)
    requires MIN_UNSET < start <= end < MAX_UNSET && start <= f <= end && a <= b
    requires lo == Clamp(a, start, end) && hi == Clamp(b, start, end)
    requires Contains(f, a, b) || (IsIntegral(a) && IsIntegral(b))
    ensures f == ToInt(Clamp(f, a, b)) as real ==> lo <= f <= hi
  {
    if f == ToInt(Clamp(f, a, b)) as real && !Contains(f, a, b) {
      if f < a {
        if a <= INT_MAX as real {
          IntegralTrunc(a);
        }
      } else {
        if INT_MIN as real <= b {
          IntegralTrunc(b);
        }
      }
    }
  }
}
