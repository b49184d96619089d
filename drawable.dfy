/**
 * The drawable that plays a composition: the queue of deferred ("lazy")
 * tasks that frame, progress, bound, marker, play, resume and value
 * callback requests join while there is no composition, the rules that turn
 * frames, progress values and markers into the bounds handed to the frame
 * clock, the same-composition check, and the dirty flag that coalesces
 * invalidations until the next draw.
 *
 * The frame clock is the animator of module ValueAnimator; what the
 * drawable asks of it is recorded, in order, as `AnimatorRequest`s. What
 * the animator reports back (whether it is running, its repeat count) and
 * how a key path pattern resolves against the layer tree are parameters.
 */
module Drawables {
  import opened Wrappers
  import opened JavaNum
  import Composition
  import P = Properties

  /** What the drawable asks of its frame clock. */
  datatype AnimatorRequest =
    | SetFrame(frame: real)
    | SetMinFrame(minFrame: int)
    | SetMaxFrame(maxFrame: real)
    | SetMinAndMaxFrames(low: real, high: real)
    | Play | Resume | End | Pause | Cancel
    | SetSpeed(speed: real) | ReverseSpeed | SetLoopedCount(count: int)
    | ClearComposition | SetComposition(composition: Composition.LottieComposition)
    /** `setFrame((int) (speed < 0 ? minFrame : maxFrame))`, read from the animator when it runs. */
    | SetFrameToDirectionEnd
    /** `setProgress(getAnimatedFraction())`, the fraction read from the animator when it runs. */
    | SetFrameAtFraction
    /** `setProgress(getProgress())`, the absolute progress read from the animator when it runs. */
    | SetFrameAtProgress

  /** Who receives a value callback: the root composition layer or a resolved element of the tree. */
  datatype Target = CompositionLayer | Element(id: nat)

  /** A key path: the whole composition, one already resolved to an element, or a pattern to resolve. */
  datatype KeyPath = CompositionKeyPath | ResolvedPath(element: nat) | PatternPath(keys: seq<string>)

  /** A call the drawable makes on something it does not own. */
  datatype DrawableCall =
    | Animator(request: AnimatorRequest)
    | Deliver(target: Target, property: P.Property, callback: object?)
    /** The view that shows the drawable is asked to redraw. */
    | ViewInvalidate

  /** A request deferred until a composition is set. */
  datatype Task =
    | FrameTask(frame: int)
    | ProgressTask(progress: real)
    | MinFrameTask(minFrame: int)
    | MinProgressTask(minProgress: real)
    | MaxFrameTask(maxFrame: int)
    | MaxProgressTask(maxProgress: real)
    | MinFrameMarkerTask(markerName: string)
    | MaxFrameMarkerTask(markerName: string)
    | MinAndMaxMarkerTask(markerName: string)
    | MarkerRangeTask(startMarker: string, endMarker: string, playEndMarkerStartFrame: bool)
    | MinAndMaxFrameTask(minFrame: int, maxFrame: int)
    | MinAndMaxProgressTask(minProgress: real, maxProgress: real)
    | PlayTask
    | ResumeTask
    | CallbackTask(keyPath: KeyPath, property: P.Property, callback: object?)

  /** Added to an int maximum so that the maximum frame itself is played. */
  const MAX_FRAME_SLACK: real := 0.99

  /** The first marker of the composition with the name, if any. */
  function MarkerNamed(c: Composition.LottieComposition, name: string): Option<Composition.Marker>
  {
    match Composition.FindMarker(c.markers, name)
    case None => None
    case Some(k) => Some(c.markers[k])
  }

  /** The frame at `progress` of the composition's range. */
  function FrameAt(c: Composition.LottieComposition, progress: real): real
  {
    Lerp(c.startFrame, c.endFrame, progress)
  }

  /** The value callback reaches these targets; a pattern reaches what it resolves to, in order. */
  function Deliveries(kp: KeyPath, property: P.Property, callback: object?, resolve: seq<string> -> seq<nat>): (r: seq<DrawableCall>)
    ensures kp.PatternPath? ==>
      && |r| == |resolve(kp.keys)|
      && forall i :: 0 <= i < |r| ==> r[i] == Deliver(Element(resolve(kp.keys)[i]), property, callback)
    ensures !kp.PatternPath? ==> r == [Deliver(if kp.CompositionKeyPath? then CompositionLayer else Element(kp.element), property, callback)]
  {
    match kp
    case CompositionKeyPath => [Deliver(CompositionLayer, property, callback)]
    case ResolvedPath(e) => [Deliver(Element(e), property, callback)]
    case PatternPath(keys) =>
      var ids := resolve(keys);
      seq(|ids|, i requires 0 <= i < |ids| => Deliver(Element(ids[i]), property, callback))
  }

  /** A value callback invalidates the drawable unless its pattern resolved to nothing. */
  predicate CallbackInvalidates(kp: KeyPath, resolve: seq<string> -> seq<nat>)
  {
    !kp.PatternPath? || |resolve(kp.keys)| > 0
  }

  predicate IsMarkerTask(t: Task)
  {
    t.MinFrameMarkerTask? || t.MaxFrameMarkerTask? || t.MinAndMaxMarkerTask? || t.MarkerRangeTask?
  }

  /** Some marker the task names is missing from the composition. */
  predicate MarkerMissing(t: Task, c: Composition.LottieComposition)
  {
    match t
    case MinFrameMarkerTask(n) => MarkerNamed(c, n).None?
    case MaxFrameMarkerTask(n) => MarkerNamed(c, n).None?
    case MinAndMaxMarkerTask(n) => MarkerNamed(c, n).None?
    case MarkerRangeTask(a, b, _) => MarkerNamed(c, a).None? || MarkerNamed(c, b).None?
    case _ => false
  }

  /**
   * What a request does once there is a composition `c`: the calls it
   * makes, or the error it throws. `enabled` is whether animations are
   * enabled, `repeatCount` the animator's, and `notify` whether an
   * invalidation would reach the view (the drawable is clean and shown).
   */
  function TaskCalls(t: Task, c: Composition.LottieComposition, enabled: bool, repeatCount: int,
                     resolve: seq<string> -> seq<nat>, notify: bool): (r: Result<seq<DrawableCall>>)
    ensures r.Err? <==> MarkerMissing(t, c)
    ensures r.Err? ==> r.error == IllegalArgument
  {
    if IsMarkerTask(t) then MarkerCalls(t, c)
    else if t.PlayTask? then Ok(Started(Play, enabled, repeatCount))
    else if t.ResumeTask? then Ok(Started(Resume, enabled, repeatCount))
    else if t.CallbackTask? then Ok(CallbackCalls(t.keyPath, t.property, t.callback, resolve, notify))
    else Ok([Animator(BoundsRequest(t, c))])
  }

  /** A marker task: the markers it names are looked up, the start marker first, and a missing one throws. */
  function MarkerCalls(t: Task, c: Composition.LottieComposition): (r: Result<seq<DrawableCall>>)
    requires IsMarkerTask(t)
    ensures r.Err? <==> MarkerMissing(t, c)
    ensures r.Err? ==> r.error == IllegalArgument
  {
    var sm := MarkerNamed(c, if t.MarkerRangeTask? then t.startMarker else t.markerName);
    if sm.None? then Err(IllegalArgument)
    else if !t.MarkerRangeTask? then Ok([Animator(MarkerRequest(t, sm.value, sm.value))])
    else
      var em := MarkerNamed(c, t.endMarker);
      if em.None? then Err(IllegalArgument)
      else Ok([Animator(MarkerRequest(t, sm.value, em.value))])
  }

  /** The request a frame, progress or bound task makes of the animator. */
  function BoundsRequest(t: Task, c: Composition.LottieComposition): AnimatorRequest
    requires !IsMarkerTask(t) && !t.PlayTask? && !t.ResumeTask? && !t.CallbackTask?
  {
    match t
    case FrameTask(f) => SetFrame(f as real)
    case ProgressTask(p) => SetFrame(FrameAt(c, p))
    case MinFrameTask(m) => SetMinFrame(m)
    case MinProgressTask(p) => SetMinFrame(ToInt(FrameAt(c, p)))
    case MaxFrameTask(m) => SetMaxFrame(m as real + MAX_FRAME_SLACK)
    case MaxProgressTask(p) => SetMaxFrame(ToInt(FrameAt(c, p)) as real + MAX_FRAME_SLACK)
    case MinAndMaxFrameTask(a, b) => SetMinAndMaxFrames(a as real, b as real + MAX_FRAME_SLACK)
    case MinAndMaxProgressTask(p, q) => SetMinAndMaxFrames(ToInt(FrameAt(c, p)) as real, ToInt(FrameAt(c, q)) as real + MAX_FRAME_SLACK)
  }

  /**
   * The request a marker task makes once its markers are found: the
   * minimum at the marker's start, the maximum at its end, both, or the
   * span from one marker's start to another's, each cast to int and the
   * maximum given its slack. `sm` and `em` are the start and end markers
   * (the same marker for the one-marker forms).
   */
  function MarkerRequest(t: Task, sm: Composition.Marker, em: Composition.Marker): AnimatorRequest
    requires IsMarkerTask(t)
  {
    match t
    case MinFrameMarkerTask(_) => SetMinFrame(ToInt(sm.startFrame))
    case MaxFrameMarkerTask(_) => SetMaxFrame(ToInt(sm.startFrame + sm.durationFrames) as real + MAX_FRAME_SLACK)
    case MinAndMaxMarkerTask(_) =>
      var s := ToInt(sm.startFrame);
      SetMinAndMaxFrames(s as real, Wrap32(s + ToInt(sm.durationFrames)) as real + MAX_FRAME_SLACK)
    case MarkerRangeTask(_, _, playEnd) =>
      SetMinAndMaxFrames(ToInt(sm.startFrame) as real, ToInt(em.startFrame + (if playEnd then 1.0 else 0.0)) as real + MAX_FRAME_SLACK)
  }

  /**
   * A value callback: delivered to each target, then, when it reached
   * any, the drawable invalidates (reaching the view when `notify`) and a
   * TIME_REMAP callback makes the animator re-apply its progress.
   */
  function CallbackCalls(kp: KeyPath, property: P.Property, callback: object?, resolve: seq<string> -> seq<nat>,
                         notify: bool): (r: seq<DrawableCall>)
  {
    var inv := CallbackInvalidates(kp, resolve);
    Deliveries(kp, property, callback, resolve)
    + (if inv && notify then [ViewInvalidate] else [])
    + (if inv && property == P.TimeRemap then [Animator(SetFrameAtProgress)] else [])
  }

  /**
   * Play or resume: the animator starts when animations are enabled or it
   * does not repeat; with animations disabled the frame then jumps to the
   * end of the playback direction and playback ends.
   */
  function Started(start: AnimatorRequest, enabled: bool, repeatCount: int): (r: seq<DrawableCall>)
    requires start == Play || start == Resume
    ensures enabled ==> r == [Animator(start)]
    ensures !enabled ==> |r| >= 2 && r[|r| - 2..] == [Animator(SetFrameToDirectionEnd), Animator(End)]
  {
    (if enabled || repeatCount == 0 then [Animator(start)] else [])
    + (if !enabled then [Animator(SetFrameToDirectionEnd), Animator(End)] else [])
  }

  /** The animator is asked to start exactly when animations are enabled or it does not repeat. */
  lemma StartedStarts(start: AnimatorRequest, enabled: bool, repeatCount: int)
    requires start == Play || start == Resume
    ensures Animator(start) in Started(start, enabled, repeatCount) <==> enabled || repeatCount == 0
  {
    var r := Started(start, enabled, repeatCount);
    if !enabled && repeatCount != 0 {
      assert r == [Animator(SetFrameToDirectionEnd), Animator(End)];
    }
  }

  /** The outcome of each queued task run on its own against a composition, with no invalidation reaching the view. */
  function Results(ts: seq<Task>, c: Composition.LottieComposition, enabled: bool, repeatCount: int,
                   resolve: seq<string> -> seq<nat>): (rs: seq<Result<seq<DrawableCall>>>)
    ensures |rs| == |ts|
  {
    if ts == [] then []
    else Results(ts[..|ts| - 1], c, enabled, repeatCount, resolve) + [TaskCalls(ts[|ts| - 1], c, enabled, repeatCount, resolve, false)]
  }

  /** The outcome of the `k`th task is that task's own. */
  lemma {:induction false} ResultsAt(ts: seq<Task>, k: nat, c: Composition.LottieComposition, enabled: bool, repeatCount: int,
                                     resolve: seq<string> -> seq<nat>)
    requires k < |ts|
    ensures Results(ts, c, enabled, repeatCount, resolve)[k] == TaskCalls(ts[k], c, enabled, repeatCount, resolve, false)
    decreases |ts|
  {
    if k < |ts| - 1 {
      ResultsAt(ts[..|ts| - 1], k, c, enabled, repeatCount, resolve);
    }
  }

  /** The outcomes of a queue are those of its two halves, in order. */
  lemma {:induction false} ResultsAppend(a: seq<Task>, b: seq<Task>, c: Composition.LottieComposition, enabled: bool,
                                         repeatCount: int, resolve: seq<string> -> seq<nat>)
    ensures Results(a + b, c, enabled, repeatCount, resolve) == Results(a, c, enabled, repeatCount, resolve) + Results(b, c, enabled, repeatCount, resolve)
    decreases |b|
  {
    if b == [] {
      assert a + b == a;
    } else {
      var b' := b[..|b| - 1];
      ResultsAppend(a, b', c, enabled, repeatCount, resolve);
      assert (a + b)[..|a + b| - 1] == a + b';
      assert (a + b)[|a + b| - 1] == b[|b| - 1];
      AppendAssoc(Results(a, c, enabled, repeatCount, resolve), Results(b', c, enabled, repeatCount, resolve),
                  [TaskCalls(b[|b| - 1], c, enabled, repeatCount, resolve, false)]);
    }
  }

  /**
   * Running outcomes in order: the calls made, and whether one threw,
   * which stops the run after the calls of those before it.
   */
  function Run(rs: seq<Result<seq<DrawableCall>>>): (seq<DrawableCall>, bool)
  {
    if rs == [] then ([], false)
    else
      var front := Run(rs[..|rs| - 1]);
      var last := rs[|rs| - 1];
      if front.1 || last.Err? then (front.0, true) else (front.0 + last.value, false)
  }

  /** Running the queue in order against a composition. */
  function Replay(ts: seq<Task>, c: Composition.LottieComposition, enabled: bool, repeatCount: int,
                  resolve: seq<string> -> seq<nat>): (seq<DrawableCall>, bool)
  {
    Run(Results(ts, c, enabled, repeatCount, resolve))
  }

  /** Once an outcome has thrown, the ones after it change nothing. */
  lemma {:induction false} RunFailureSticks(rs: seq<Result<seq<DrawableCall>>>, n: nat)
    requires n <= |rs| && Run(rs[..n]).1
    ensures Run(rs) == Run(rs[..n])
    decreases |rs| - n
  {
    if n < |rs| {
      assert rs[..|rs| - 1][..n] == rs[..n];
      RunFailureSticks(rs[..|rs| - 1], n);
    } else {
      assert rs[..n] == rs;
    }
  }

  /** One more outcome: it is used unless an earlier one threw, and a throw keeps the calls made so far. */
  lemma RunStep(rs: seq<Result<seq<DrawableCall>>>, i: nat)
    requires i < |rs| && !Run(rs[..i]).1
    ensures Run(rs[..i + 1]) == if rs[i].Err? then (Run(rs[..i]).0, true) else (Run(rs[..i]).0 + rs[i].value, false)
  {
    assert rs[..i + 1][..i] == rs[..i];
  }

  /** Outcomes run as their two halves in order: the second half runs only when the first did not throw. */
  lemma {:induction false} RunSplit(a: seq<Result<seq<DrawableCall>>>, b: seq<Result<seq<DrawableCall>>>)
    requires !Run(a).1
    ensures Run(a + b) == (Run(a).0 + Run(b).0, Run(b).1)
    decreases |b|
  {
    if b == [] {
      assert a + b == a;
      assert Run(a).0 + [] == Run(a).0;
    } else {
      var b' := b[..|b| - 1];
      RunSplit(a, b');
      assert (a + b)[..|a + b| - 1] == a + b';
      assert (a + b)[|a + b| - 1] == b[|b| - 1];
      if !Run(b').1 && b[|b| - 1].Ok? {
        AppendAssoc(Run(a).0, Run(b').0, b[|b| - 1].value);
      }
    }
  }

  /** Without a throw, the run makes every outcome's calls. */
  lemma {:induction false} RunWithoutErrors(rs: seq<Result<seq<DrawableCall>>>)
    requires forall i :: 0 <= i < |rs| ==> rs[i].Ok?
    ensures !Run(rs).1
  {
    if rs != [] {
      RunWithoutErrors(rs[..|rs| - 1]);
    }
  }

  /** A queue runs as its two halves in order: the second half runs only when the first did not throw. */
  lemma ReplaySplit(a: seq<Task>, b: seq<Task>, c: Composition.LottieComposition, enabled: bool,
                    repeatCount: int, resolve: seq<string> -> seq<nat>)
    requires !Replay(a, c, enabled, repeatCount, resolve).1
    ensures Replay(a + b, c, enabled, repeatCount, resolve)
      == (Replay(a, c, enabled, repeatCount, resolve).0 + Replay(b, c, enabled, repeatCount, resolve).0,
          Replay(b, c, enabled, repeatCount, resolve).1)
  {
    var ra, rb := Results(a, c, enabled, repeatCount, resolve), Results(b, c, enabled, repeatCount, resolve);
    ResultsAppend(a, b, c, enabled, repeatCount, resolve);
    RunSplit(ra, rb);
  }

  /** A queue without marker tasks never throws, so it always runs to the end. */
  lemma ReplayWithoutMarkers(ts: seq<Task>, c: Composition.LottieComposition, enabled: bool,
                             repeatCount: int, resolve: seq<string> -> seq<nat>)
    requires forall i :: 0 <= i < |ts| ==> !IsMarkerTask(ts[i])
    ensures !Replay(ts, c, enabled, repeatCount, resolve).1
  {
    var rs := Results(ts, c, enabled, repeatCount, resolve);
    forall i | 0 <= i < |rs|
      ensures rs[i].Ok?
    {
      ResultsAt(ts, i, c, enabled, repeatCount, resolve);
    }
    RunWithoutErrors(rs);
  }

  /** A marker range ending at a marker's start plays that start frame when asked to, and stops before it otherwise. */
  lemma MarkerRangeEnd(c: Composition.LottieComposition, a: string, b: string, playEnd: bool, enabled: bool,
                       repeatCount: int, resolve: seq<string> -> seq<nat>)
    requires MarkerNamed(c, a).Some? && MarkerNamed(c, b).Some?
    ensures var e := MarkerNamed(c, b).value.startFrame;
      TaskCalls(MarkerRangeTask(a, b, playEnd), c, enabled, repeatCount, resolve, false)
        == Ok([Animator(SetMinAndMaxFrames(ToInt(MarkerNamed(c, a).value.startFrame) as real,
                                           ToInt(e + (if playEnd then 1.0 else 0.0)) as real + MAX_FRAME_SLACK))])
  {
  }

  /** The deliveries of a value callback; a pattern is resolved and each element it reaches gets the callback, in order. */
  method DeliveriesTo(kp: KeyPath, p: P.Property, cb: object?, resolve: seq<string> -> seq<nat>) returns (ds: seq<DrawableCall>)
    ensures ds == Deliveries(kp, p, cb, resolve)
    ensures |ds| > 0 <==> CallbackInvalidates(kp, resolve)
  {
    if kp.CompositionKeyPath? {
      return [Deliver(CompositionLayer, p, cb)];
    } else if kp.ResolvedPath? {
      return [Deliver(Element(kp.element), p, cb)];
    }
    var ids := resolve(kp.keys);
    ds := [];
    for i := 0 to |ids|
      invariant |ds| == i
      invariant forall j :: 0 <= j < i ==> ds[j] == Deliver(Element(ids[j]), p, cb)
    {
      ds := ds + [Deliver(Element(ids[i]), p, cb)];
    }
    ghost var d := Deliveries(kp, p, cb, resolve);
    assert ds == d;
  }

  class LottieDrawable {
    /** The composition; the root composition layer exists exactly while it is set. */
    var composition: Composition.LottieComposition?
    var lazyCompositionTasks: seq<Task>
    var isDirty: bool
    var alpha: int
    var scale: real
    var systemAnimationsEnabled: bool
    var ignoreSystemAnimationsDisabled: bool
    /** Whether a view shows the drawable (the callback set by `setCallback`). */
    var hasView: bool
    var calls: seq<DrawableCall>

    /** A new drawable: no composition, an empty queue, clean, opaque, at scale 3, animations enabled. */
    constructor ()
      ensures composition == null && lazyCompositionTasks == [] && !isDirty && alpha == 255 && scale == 3.0
      ensures systemAnimationsEnabled && !ignoreSystemAnimationsDisabled && !hasView && calls == []
    {
      composition, lazyCompositionTasks, isDirty := null, [], false;
      alpha, scale := 255, 3.0;
      systemAnimationsEnabled, ignoreSystemAnimationsDisabled := true, false;
      hasView, calls := false, [];
    }

    predicate AnimationsEnabled()
      reads this`systemAnimationsEnabled, this`ignoreSystemAnimationsDisabled
    {
      systemAnimationsEnabled || ignoreSystemAnimationsDisabled
    }

    /** Marks the drawable dirty; only the first invalidation since the last draw reaches the view. */
    method InvalidateSelf()
      modifies this`isDirty, this`calls
      ensures isDirty
      ensures calls == old(calls) + (if !old(isDirty) && hasView then [ViewInvalidate] else [])
    {
      if isDirty {
        return;
      }
      isDirty := true;
      if hasView {
        calls := calls + [ViewInvalidate];
      }
    }

    /** Drawing clears the dirty flag (the drawing itself is platform work). */
    method DrawToCanvas()
      modifies this`isDirty
      ensures !isDirty
    {
      isDirty := false;
    }

    method SetCallback(shown: bool)
      modifies this`hasView
      ensures hasView == shown
    {
      hasView := shown;
    }

    method SetAlpha(a: int)
      modifies this`alpha, this`isDirty, this`calls
      ensures alpha == a && isDirty
      ensures calls == old(calls) + (if !old(isDirty) && hasView then [ViewInvalidate] else [])
    {
      alpha := a;
      InvalidateSelf();
    }

    method SetScale(s: real)
      modifies this`scale
      ensures scale == s
    {
      scale := s;
    }

    method SetSystemAnimationsAreEnabled(enabled: bool)
      modifies this`systemAnimationsEnabled
      ensures systemAnimationsEnabled == enabled
    {
      systemAnimationsEnabled := enabled;
    }

    method SetIgnoreDisabledSystemAnimations(ignore: bool)
      modifies this`ignoreSystemAnimationsDisabled
      ensures ignoreSystemAnimationsDisabled == ignore
    {
      ignoreSystemAnimationsDisabled := ignore;
    }

    /** The intrinsic width: -1 without a composition, else the composition's width times the scale, cast to int. */
    function IntrinsicWidth(): (r: int)
      reads this`composition, this`scale
      ensures composition == null ==> r == -1
      ensures composition != null ==> r == ToInt((composition.bounds.2 - composition.bounds.0) as real * scale)
    {
      if composition == null then -1 else ToInt((composition.bounds.2 - composition.bounds.0) as real * scale)
    }

    /** The intrinsic height: -1 without a composition, else the composition's height times the scale, cast to int. */
    function IntrinsicHeight(): (r: int)
      reads this`composition, this`scale
      ensures composition == null ==> r == -1
      ensures composition != null ==> r == ToInt((composition.bounds.3 - composition.bounds.1) as real * scale)
    {
      if composition == null then -1 else ToInt((composition.bounds.3 - composition.bounds.1) as real * scale)
    }

    /**
     * Forgets the composition: a running animator is cancelled, the
     * animator forgets the composition and the drawable invalidates.
     * `running` is what the animator reports.
     */
    method ClearComposition(running: bool)
      modifies this`composition, this`isDirty, this`calls
      ensures composition == null && isDirty
      ensures calls == old(calls) + (if running then [Animator(Cancel)] else []) + [Animator(AnimatorRequest.ClearComposition)]
        + (if !old(isDirty) && hasView then [ViewInvalidate] else [])
    {
      if running {
        calls := calls + [Animator(Cancel)];
      }
      composition := null;
      calls := calls + [Animator(AnimatorRequest.ClearComposition)];
      InvalidateSelf();
    }

    /**
     * Runs one request against the composition, which is set: marker
     * lookups, the calls on the animator, the value callback deliveries and
     * the invalidation they cause.
     */
    method Perform(t: Task, repeatCount: int, resolve: seq<string> -> seq<nat>) returns (r: Outcome)
      requires composition != null
      modifies this`calls, this`isDirty
      ensures var tc := TaskCalls(t, composition, AnimationsEnabled(), repeatCount, resolve, !old(isDirty) && hasView);
        && (r.Failure? <==> tc.Err?)
        && (r.Failure? ==> r.error == IllegalArgument && calls == old(calls))
        && (tc.Ok? ==> calls == old(calls) + tc.value)
      ensures isDirty == (old(isDirty) || (t.CallbackTask? && CallbackInvalidates(t.keyPath, resolve)))
    {
      ghost var tc := TaskCalls(t, composition, AnimationsEnabled(), repeatCount, resolve, !isDirty && hasView);
      r := Success;
      if t.CallbackTask? {
        assert tc == Ok(CallbackCalls(t.keyPath, t.property, t.callback, resolve, !isDirty && hasView));
        PerformCallback(t.keyPath, t.property, t.callback, resolve);
      } else if IsMarkerTask(t) {
        assert tc == MarkerCalls(t, composition);
        r := PerformMarker(t);
      } else if t.PlayTask? || t.ResumeTask? {
        PerformStart(t, repeatCount, resolve, !isDirty && hasView);
      } else {
        PerformBounds(t, AnimationsEnabled(), repeatCount, resolve, !isDirty && hasView);
      }
    }

    /** Starts or resumes playback, as far as animations are enabled. */
    method PerformStart(t: Task, repeatCount: int, resolve: seq<string> -> seq<nat>, ghost notify: bool)
      requires composition != null && (t.PlayTask? || t.ResumeTask?)
      modifies this`calls
      ensures var tc := TaskCalls(t, composition, AnimationsEnabled(), repeatCount, resolve, notify);
        tc.Ok? && calls == old(calls) + tc.value
    {
      var start := if t.PlayTask? then Play else Resume;
      calls := calls + Started(start, AnimationsEnabled(), repeatCount);
    }

    /** Hands a frame, progress or bound request to the animator. */
    method PerformBounds(t: Task, ghost enabled: bool, repeatCount: int, resolve: seq<string> -> seq<nat>, ghost notify: bool)
      requires composition != null && !IsMarkerTask(t) && !t.PlayTask? && !t.ResumeTask? && !t.CallbackTask?
      modifies this`calls
      ensures var tc := TaskCalls(t, composition, enabled, repeatCount, resolve, notify);
        tc.Ok? && calls == old(calls) + tc.value
    {
      calls := calls + [Animator(BoundsRequest(t, composition))];
    }

    /** Looks the task's markers up, the start marker first; a missing one throws. */
    method PerformMarker(t: Task) returns (r: Outcome)
      requires composition != null && IsMarkerTask(t)
      modifies this`calls
      ensures var tc := MarkerCalls(t, composition);
        && (r.Failure? <==> tc.Err?)
        && (r.Failure? ==> r.error == IllegalArgument && calls == old(calls))
        && (tc.Ok? ==> calls == old(calls) + tc.value)
    {
      var c := composition;
      var sm := c.GetMarker(if t.MarkerRangeTask? then t.startMarker else t.markerName);
      if sm.None? {
        return Failure(IllegalArgument);
      }
      var em := sm;
      if t.MarkerRangeTask? {
        em := c.GetMarker(t.endMarker);
        if em.None? {
          return Failure(IllegalArgument);
        }
      }
      calls := calls + [Animator(MarkerRequest(t, sm.value, em.value))];
      r := Success;
    }

    /** Delivers a value callback to its targets, then invalidates when it reached any. */
    method PerformCallback(kp: KeyPath, p: P.Property, cb: object?, resolve: seq<string> -> seq<nat>)
      modifies this`calls, this`isDirty
      ensures calls == old(calls) + CallbackCalls(kp, p, cb, resolve, !old(isDirty) && hasView)
      ensures isDirty == (old(isDirty) || CallbackInvalidates(kp, resolve))
    {
      var ds := DeliveriesTo(kp, p, cb, resolve);
      calls := calls + ds;
      if |ds| > 0 {
        InvalidateSelf();
        if p == P.TimeRemap {
          calls := calls + [Animator(SetFrameAtProgress)];
        }
      }
    }

    /**
     * A request made through the drawable's API: queued while there is no
     * composition, run at once otherwise.
     */
    method Submit(t: Task, repeatCount: int, resolve: seq<string> -> seq<nat>) returns (r: Outcome)
      modifies this`lazyCompositionTasks, this`calls, this`isDirty
      ensures old(composition) == null ==>
        r == Success && lazyCompositionTasks == old(lazyCompositionTasks) + [t] && calls == old(calls) && isDirty == old(isDirty)
      ensures old(composition) != null ==>
        var tc := TaskCalls(t, composition, AnimationsEnabled(), repeatCount, resolve, !old(isDirty) && hasView);
        && lazyCompositionTasks == old(lazyCompositionTasks)
        && (r.Failure? <==> tc.Err?)
        && (r.Failure? ==> r.error == IllegalArgument && calls == old(calls))
        && (tc.Ok? ==> calls == old(calls) + tc.value)
        && isDirty == (old(isDirty) || (t.CallbackTask? && CallbackInvalidates(t.keyPath, resolve)))
    {
      if composition == null {
        lazyCompositionTasks := lazyCompositionTasks + [t];
        return Success;
      }
      r := Perform(t, repeatCount, resolve);
    }

    /** A queued task runs once the drawable is already dirty, so it never invalidates the view itself. */
    method PerformQueued(t: Task, ghost c: Composition.LottieComposition, ghost enabled: bool, repeatCount: int,
                         resolve: seq<string> -> seq<nat>) returns (r: Outcome)
      requires composition == c && enabled == AnimationsEnabled() && isDirty
      modifies this`calls, this`isDirty
      ensures isDirty
      ensures var tc := TaskCalls(t, c, enabled, repeatCount, resolve, false);
        && (r.Failure? <==> tc.Err?)
        && (r.Failure? ==> calls == old(calls))
        && (tc.Ok? ==> calls == old(calls) + tc.value)
    {
      r := Perform(t, repeatCount, resolve);
    }

    /** The `i`th queued task, run after the calls `base` and those of the tasks before it. */
    method RunQueued(ts: seq<Task>, i: nat, ghost rs: seq<Result<seq<DrawableCall>>>, ghost base: seq<DrawableCall>,
                     ghost c: Composition.LottieComposition, ghost enabled: bool, repeatCount: int,
                     resolve: seq<string> -> seq<nat>) returns (failed: bool)
      requires composition == c && enabled == AnimationsEnabled() && isDirty
      requires i < |ts| && rs == Results(ts, c, enabled, repeatCount, resolve)
      requires !Run(rs[..i]).1 && calls == base + Run(rs[..i]).0
      modifies this`calls, this`isDirty
      ensures isDirty
      ensures failed == Run(rs[..i + 1]).1 && calls == base + Run(rs[..i + 1]).0
    {
      ResultsAt(ts, i, c, enabled, repeatCount, resolve);
      RunStep(rs, i);
      var r := PerformQueued(ts[i], c, enabled, repeatCount, resolve);
      failed := r.Failure?;
      if !failed {
        AppendAssoc(base, Run(rs[..i]).0, rs[i].value);
      }
    }

    /** Runs the queued tasks in order until one throws. */
    method RunTasks(ts: seq<Task>, repeatCount: int, resolve: seq<string> -> seq<nat>) returns (failed: bool)
      requires composition != null && isDirty
      modifies this`calls, this`isDirty
      ensures isDirty
      ensures var rp := Replay(ts, composition, AnimationsEnabled(), repeatCount, resolve);
        failed == rp.1 && calls == old(calls) + rp.0
    {
      var c := composition;
      ghost var enabled := AnimationsEnabled();
      ghost var rs := Results(ts, c, enabled, repeatCount, resolve);
      var i := 0;
      failed := false;
      while i < |ts|
        invariant 0 <= i <= |ts| && isDirty
        invariant !Run(rs[..i]).1 && calls == old(calls) + Run(rs[..i]).0
      {
        failed := RunQueued(ts, i, rs, old(calls), c, enabled, repeatCount, resolve);
        if failed {
          RunFailureSticks(rs, i + 1);
          assert Replay(ts, c, enabled, repeatCount, resolve) == Run(rs[..i + 1]);
          return;
        }
        i := i + 1;
      }
      assert rs[..i] == rs;
      assert Replay(ts, c, enabled, repeatCount, resolve) == Run(rs);
    }

    /**
     * Adopts a composition. The current one again: false, and nothing
     * changes. Otherwise the old one is cleared (which invalidates), the
     * animator adopts the new one and moves to its own fraction of it, and
     * the queue runs in order and is emptied; a task that throws ends the
     * call with its error, with the whole queue still in place. `running`
     * and `repeatCount` are what the animator reports.
     */
    method SetComposition(c: Composition.LottieComposition, running: bool, repeatCount: int, resolve: seq<string> -> seq<nat>)
      returns (r: Result<bool>)
      modifies this`composition, this`lazyCompositionTasks, this`isDirty, this`calls
      ensures c == old(composition) ==>
        r == Ok(false) && calls == old(calls) && lazyCompositionTasks == old(lazyCompositionTasks) && isDirty == old(isDirty)
      ensures c != old(composition) ==>
        var rp := Replay(old(lazyCompositionTasks), c, AnimationsEnabled(), repeatCount, resolve);
        && composition == c && isDirty
        && calls == old(calls) + (if running then [Animator(Cancel)] else []) + [Animator(AnimatorRequest.ClearComposition)]
           + (if hasView then [ViewInvalidate] else []) + [Animator(AnimatorRequest.SetComposition(c)), Animator(SetFrameAtFraction)] + rp.0
        && (rp.1 ==> r == Err(IllegalArgument) && lazyCompositionTasks == old(lazyCompositionTasks))
        && (!rp.1 ==> r == Ok(true) && lazyCompositionTasks == [])
    {
      if composition == c {
        return Ok(false);
      }
      isDirty := false;
      ClearComposition(running);
      composition := c;
      calls := calls + [Animator(AnimatorRequest.SetComposition(c)), Animator(SetFrameAtFraction)];
      var failed := RunTasks(lazyCompositionTasks, repeatCount, resolve);
      if failed {
        return Err(IllegalArgument);
      }
      lazyCompositionTasks := [];
      r := Ok(true);
    }

    /** Ends playback; the queue is emptied. */
    method EndAnimation()
      modifies this`lazyCompositionTasks, this`calls
      ensures lazyCompositionTasks == [] && calls == old(calls) + [Animator(End)]
    {
      lazyCompositionTasks := [];
      calls := calls + [Animator(End)];
    }

    /** Pauses playback; the queue is emptied. */
    method PauseAnimation()
      modifies this`lazyCompositionTasks, this`calls
      ensures lazyCompositionTasks == [] && calls == old(calls) + [Animator(Pause)]
    {
      lazyCompositionTasks := [];
      calls := calls + [Animator(Pause)];
    }

    /** Cancels playback; the queue is emptied. */
    method CancelAnimation()
      modifies this`lazyCompositionTasks, this`calls
      ensures lazyCompositionTasks == [] && calls == old(calls) + [Animator(Cancel)]
    {
      lazyCompositionTasks := [];
      calls := calls + [Animator(Cancel)];
    }

    method SetSpeed(s: real)
      modifies this`calls
      ensures calls == old(calls) + [Animator(AnimatorRequest.SetSpeed(s))]
    {
      calls := calls + [Animator(AnimatorRequest.SetSpeed(s))];
    }

    method ReverseAnimationSpeed()
      modifies this`calls
      ensures calls == old(calls) + [Animator(ReverseSpeed)]
    {
      calls := calls + [Animator(ReverseSpeed)];
    }

    method SetRepeatCount(count: int)
      modifies this`calls
      ensures calls == old(calls) + [Animator(SetLoopedCount(count))]
    {
      calls := calls + [Animator(SetLoopedCount(count))];
    }
  }

  /** Queue, then compose: a request made before the composition runs when it arrives, as if made after. */
  lemma QueuedRunsLikeDirect(t: Task, c: Composition.LottieComposition, enabled: bool, repeatCount: int,
                             resolve: seq<string> -> seq<nat>)
    ensures Replay([t], c, enabled, repeatCount, resolve).1 <==> TaskCalls(t, c, enabled, repeatCount, resolve, false).Err?
    ensures TaskCalls(t, c, enabled, repeatCount, resolve, false).Ok? ==>
      Replay([t], c, enabled, repeatCount, resolve).0 == TaskCalls(t, c, enabled, repeatCount, resolve, false).value
  {
    var rs := Results([t], c, enabled, repeatCount, resolve);
    assert rs[..0] == [] && rs[..1] == rs;
    RunStep(rs, 0);
    if rs[0].Ok? {
      assert [] + rs[0].value == rs[0].value;
    }
  }
}
