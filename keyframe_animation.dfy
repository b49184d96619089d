/**
 * The animation of one property over a list of keyframes: an overall
 * progress clamped to the keyframes' span, the keyframe current at that
 * progress, the progress into it, listeners told of changes, a one-entry
 * value cache and an optional value callback. The three list shapes
 * (empty, one keyframe, several) are told apart by the list's length.
 *
 * The value itself is computed by the typed animations; here `getValue` is
 * split into its first half, `Lookup` (answer from the cache, fail, or say
 * which keyframe to evaluate at which progress), and its last step,
 * `Remember` (store the computed value in the cache).
 */
module KeyframeAnimations {
  import opened Wrappers
  import opened JavaNum
  import opened Keyframes
  import opened ValueCallbacks
  import Composition

  /** A listener told when the animated value changes, by identity. */
  type ListenerId = nat

  /** The progress at which keyframe `k` starts. */
  function StartOf<K>(k: Keyframe<K>): Float
  {
    StartProgressOf(k.composition, k.startFrame)
  }

  /** The progress at which keyframe `k` ends. */
  function EndOf<K>(k: Keyframe<K>): Float
  {
    EndProgressOf(k.composition, k.startFrame, k.endFrame)
  }

  /** Keyframe `k` contains progress `p`: `p` lies in its half-open span. */
  predicate Holds<K>(k: Keyframe<K>, p: Float)
  {
    ContainsProgressOf(k.composition, k.startFrame, k.endFrame, p)
  }

  /** The progress before which nothing is animated: 0 for no keyframes, else the first one's start. */
  function StartDelayProgress<K>(ks: seq<Keyframe<K>>): Float
  {
    if ks == [] then Num(0.0) else StartOf(ks[0])
  }

  /** The progress after which nothing is animated: 1 for no keyframes, else the last one's end. */
  function EndProgress<K>(ks: seq<Keyframe<K>>): Float
  {
    if ks == [] then Num(1.0) else EndOf(ks[|ks| - 1])
  }

  /**
   * The requested progress moved into [lo, hi], testing the lower end
   * first, with float comparisons: a NaN on either side moves nothing.
   */
  function ClampProgress(p: Float, lo: Float, hi: Float): (r: Float)
    ensures FLe(lo, hi) && p != NaN ==> FLe(lo, r) && FLe(r, hi)
    ensures FLe(lo, p) && FLe(p, hi) ==> r == p
    ensures p == NaN || (lo == NaN && hi == NaN) ==> r == p
  {
    FloatOrder(p, lo);
    FloatOrder(p, hi);
    FloatOrder(lo, hi);
    if FLt(p, lo) then lo else if FGt(p, hi) then hi else p
  }

  /**
   * The progress after asking for `p`: moved into the span, or kept when
   * there are no keyframes. Over a span whose ends are ordered, a request
   * other than NaN lands inside it.
   */
  function ProgressAfter<K>(ks: seq<Keyframe<K>>, progress: Float, p: Float): (r: Float)
    ensures ks != [] && FLe(StartDelayProgress(ks), EndProgress(ks)) && p != NaN ==>
      FLe(StartDelayProgress(ks), r) && FLe(r, EndProgress(ks))
    ensures ks != [] && p == NaN ==> r == NaN
  {
    if ks == [] then progress else ClampProgress(p, StartDelayProgress(ks), EndProgress(ks))
  }

  /**
   * The backward search through indices i down to 1 for a keyframe, other
   * than `current`, that contains `p`; 0 when there is none.
   */
  function FindFrom<K>(ks: seq<Keyframe<K>>, current: Keyframe?<K>, p: Float, i: int): (r: nat)
    requires i < |ks|
    ensures r == 0 || (1 <= r <= i && ks[r] != current && Holds(ks[r], p))
    ensures forall j :: r < j <= i && 1 <= j ==> ks[j] == current || !Holds(ks[j], p)
    decreases i
  {
    if i < 1 then 0
    else if ks[i] != current && Holds(ks[i], p) then i
    else FindFrom(ks, current, p, i - 1)
  }

  /**
   * The index of the keyframe at progress `p` among several: the last one
   * once `p` reaches its start, else the nearest one from the end, other
   * than `current`, that contains `p`, else the first.
   */
  function FindIndex<K>(ks: seq<Keyframe<K>>, current: Keyframe?<K>, p: Float): (r: nat)
    requires |ks| >= 2
    ensures r < |ks|
    ensures r == |ks| - 1 <==> FGe(p, StartOf(ks[|ks| - 1]))
    ensures 1 <= r < |ks| - 1 ==> ks[r] != current && Holds(ks[r], p)
    ensures r < |ks| - 1 ==> forall j :: r < j < |ks| - 1 ==> ks[j] == current || !Holds(ks[j], p)
  {
    if FGe(p, StartOf(ks[|ks| - 1])) then |ks| - 1 else FindFrom(ks, current, p, |ks| - 2)
  }

  /** `findKeyframe`: the backward search, as a loop. */
  method FindKeyframe<K>(ks: seq<Keyframe<K>>, current: Keyframe?<K>, p: Float) returns (k: Keyframe<K>)
    requires |ks| >= 2
    ensures k == ks[FindIndex(ks, current, p)]
  {
    k := ks[|ks| - 1];
    if FGe(p, StartOf(k)) {
      return;
    }
    var i := |ks| - 2;
    while i >= 1
      invariant 0 <= i <= |ks| - 2
      invariant FindFrom(ks, current, p, |ks| - 2) == FindFrom(ks, current, p, i)
    {
      k := ks[i];
      if current != k && Holds(k, p) {
        return;
      }
      i := i - 1;
    }
    k := ks[0];
  }

  /**
   * Over a composition of zero length, no keyframe with an end frame holds
   * any progress, so a search among such keyframes falls through to the
   * first keyframe unless the progress reaches the last keyframe's start.
   */
  lemma ZeroLengthSearch<K>(ks: seq<Keyframe<K>>, current: Keyframe?<K>, p: Float)
    requires |ks| >= 2
    requires forall i :: 0 <= i < |ks| ==> ks[i].composition != null && ZeroLength(ks[i].composition)
    requires forall i :: 0 <= i < |ks| ==> ks[i].endFrame.Some?
    ensures FindIndex(ks, current, p) == 0 || FindIndex(ks, current, p) == |ks| - 1
  {
    var r := FindIndex(ks, current, p);
    if 1 <= r < |ks| - 1 {
      var k := ks[r];
      ZeroLengthHoldsNothing(k.composition, k.startFrame, k.endFrame.value, p);
    }
  }

  /** Over a composition of zero length, a keyframe with an end frame contains no progress at all, finite or not. */
  lemma ZeroLengthHoldsNothing(c: Composition.LottieComposition, startFrame: real, endFrame: real, p: Float)
    requires ZeroLength(c)
    ensures !ContainsProgressOf(c, startFrame, Some(endFrame), p)
  {
    var s := StartProgressOf(c, startFrame);
    var dp := Div(endFrame - startFrame, c.DurationFrames());
    assert EndProgressOf(c, startFrame, Some(endFrame)) == FAdd(s, dp);
  }

  /**
   * The share (p - s) / (e - s) of a span [s, e] that progress `p` has
   * covered, in float arithmetic: finite over a span of non-zero length,
   * infinite or NaN over a span of zero length.
   */
  function Share(p: Float, s: Float, e: Float): (r: Float)
    ensures p.Num? && s.Num? && e.Num? && s != e ==> r.Num? && s.v + r.v * (e.v - s.v) == p.v
    ensures s.Num? && e.Num? && s.v < e.v && FGe(p, s) && FLt(p, e) ==> r.Num? && 0.0 <= r.v < 1.0
    ensures p.Num? && s.Num? && s == e ==> !r.Num? && (r == NaN <==> p == s)
    ensures p == NaN || s == NaN || e == NaN ==> r == NaN
  {
    if p.Num? && s.Num? && e.Num? && s != e then
      assert (p.v - s.v) / (e.v - s.v) * (e.v - s.v) == p.v - s.v;
      if s.v < e.v && s.v <= p.v < e.v then
        QuotientInUnit(p.v - s.v, e.v - s.v);
        FDiv(FSub(p, s), FSub(e, s))
      else
        FDiv(FSub(p, s), FSub(e, s))
    else
      FDiv(FSub(p, s), FSub(e, s))
  }

  /**
   * The progress into the current keyframe, before any easing: 0 for a
   * discrete animation or a static keyframe, else the share of the
   * keyframe's span covered (see `LinearProgressShare`); asking for the
   * current keyframe of an empty list fails.
   */
  function LinearProgressOf<K>(isDiscrete: bool, k: Keyframe?<K>, p: Float): (r: Result<Float>)
    ensures isDiscrete ==> r == Ok(Num(0.0))
    ensures !isDiscrete && k == null ==> r == Err(IllegalState)
    ensures !isDiscrete && k != null ==> r.Ok?
    ensures !isDiscrete && k != null && k.IsStatic() ==> r == Ok(Num(0.0))
  {
    if isDiscrete then Ok(Num(0.0))
    else if k == null then Err(IllegalState)
    else if k.IsStatic() then Ok(Num(0.0))
    else Ok(Share(p, StartOf(k), EndOf(k)))
  }

  /**
   * The linear progress of an animated keyframe: the share of its span
   * covered, in [0, 1) while the keyframe holds the progress; a keyframe of
   * zero progress length gives an infinity, or NaN at its start; a NaN
   * anywhere gives NaN.
   */
  lemma LinearProgressShare<K>(k: Keyframe<K>, p: Float)
    requires !k.IsStatic()
    ensures var r := LinearProgressOf(false, k, p).value;
      && (p.Num? && StartOf(k).Num? && EndOf(k).Num? && StartOf(k) != EndOf(k) ==>
            r.Num? && StartOf(k).v + r.v * (EndOf(k).v - StartOf(k).v) == p.v)
      && (StartOf(k).Num? && EndOf(k).Num? && StartOf(k).v < EndOf(k).v && Holds(k, p) ==>
            r.Num? && 0.0 <= r.v < 1.0)
      && (p.Num? && StartOf(k).Num? && StartOf(k) == EndOf(k) ==> !r.Num? && (r == NaN <==> p == StartOf(k)))
      && (p == NaN || StartOf(k) == NaN || EndOf(k) == NaN ==> r == NaN)
  {
    assert LinearProgressOf(false, k, p).value == Share(p, StartOf(k), EndOf(k));
  }

  /**
   * The progress into the current keyframe after easing. The curve is never
   * applied, so it is the linear progress whenever there is a current keyframe.
   */
  function InterpolatedProgressOf<K>(isDiscrete: bool, k: Keyframe?<K>, p: Float): (r: Result<Float>)
    ensures k == null ==> r == Err(IllegalState)
    ensures k != null ==> r == LinearProgressOf(isDiscrete, k, p)
  {
    if k == null then Err(IllegalState)
    else if k.IsStatic() then Ok(Num(0.0))
    else LinearProgressOf(isDiscrete, k, p)
  }

  /**
   * The keyframe current after the progress moved to `q`, and whether the
   * value may have changed: a single keyframe changes iff it is animated;
   * among several, the current one is kept (changed iff animated) while it
   * contains `q`, and is otherwise replaced by the search (always a change).
   */
  function Advance<K>(ks: seq<Keyframe<K>>, current: Keyframe<K>, q: Float): (Keyframe<K>, bool)
    requires current in ks
  {
    if |ks| == 1 || Holds(current, q) then (current, !current.IsStatic())
    else (ks[FindIndex(ks, current, q)], true)
  }

  /**
   * Whenever some keyframe contains `q`, the keyframe current after moving
   * to `q` contains it too, unless `q` has reached the last keyframe's
   * start, where the last keyframe becomes current.
   */
  lemma AdvanceFindsHolder<K>(ks: seq<Keyframe<K>>, current: Keyframe<K>, q: Float, j: nat)
    requires current in ks && |ks| >= 2
    requires j < |ks| && Holds(ks[j], q)
    ensures Holds(Advance(ks, current, q).0, q)
            || (Advance(ks, current, q).0 == ks[|ks| - 1] && FGe(q, StartOf(ks[|ks| - 1])))
  {
  }

  /**
   * Whether the one-entry value cache answers for keyframe `current` at
   * progress `l`; progresses are compared as floats, so NaN never hits.
   */
  predicate CacheHit<K>(n: nat, cachedCurrent: Keyframe?<K>, cachedProgress: Float, current: Keyframe?<K>, l: Float)
  {
    if n == 1 then FEq(cachedProgress, l) else cachedCurrent == current && FEq(cachedProgress, l)
  }

  /** The first half of `getValue`. */
  datatype Lookup<K, A> =
    | Cached(value: Option<A>)
    | Evaluate(keyframe: Keyframe<K>, progress: Float)

  /**
   * What `getValue` does before evaluating: fail when there is no current
   * keyframe to ask; without a callback, answer from the cache when it
   * holds the same keyframe and progress; refuse keyframes eased per axis;
   * otherwise evaluate the current keyframe at its eased progress.
   */
  function LookupOf<K, A>(ks: seq<Keyframe<K>>, isDiscrete: bool, current: Keyframe?<K>, progress: Float,
                          hasCallback: bool, cachedCurrent: Keyframe?<K>, cachedProgress: Float,
                          cached: Option<A>): Result<Lookup<K, A>>
  {
    match LinearProgressOf(isDiscrete, current, progress)
    case Err(e) => Err(e)
    case Ok(l) =>
      if !hasCallback && ks == [] then Err(IllegalState)
      else if !hasCallback && CacheHit(|ks|, cachedCurrent, cachedProgress, current, l) then Ok(Cached(cached))
      else if current == null then Err(IllegalState)
      else if current.xInterpolator.Some? && current.yInterpolator.Some? then Err(UnsupportedOperation)
      else match InterpolatedProgressOf(isDiscrete, current, progress)
        case Err(e) => Err(e)
        case Ok(t) => Ok(Evaluate(current, t))
  }

  /**
   * The lookup answers from the cache exactly when there is no callback and
   * the cache holds the current keyframe at the current linear progress;
   * when it evaluates, it is at the linear progress.
   */
  lemma LookupCases<K, A>(ks: seq<Keyframe<K>>, isDiscrete: bool, current: Keyframe?<K>, progress: Float,
                          hasCallback: bool, cachedCurrent: Keyframe?<K>, cachedProgress: Float,
                          cached: Option<A>)
    requires current == null <==> ks == []
    ensures var r := LookupOf(ks, isDiscrete, current, progress, hasCallback, cachedCurrent, cachedProgress, cached);
            var l := LinearProgressOf(isDiscrete, current, progress);
            && (r.Ok? && r.value.Cached? <==>
                  l.Ok? && ks != [] && !hasCallback && CacheHit(|ks|, cachedCurrent, cachedProgress, current, l.value))
            && (r.Ok? && r.value.Cached? ==> r.value.value == cached)
            && (r.Ok? && r.value.Evaluate? ==> r.value.keyframe == current && r.value.progress == l.value)
            && (ks == [] ==> r == Err(IllegalState))
  {
  }

  /** The cache after a lookup: refilled with the keyframe and progress just asked about, on a miss. */
  function CacheAfter<K>(ks: seq<Keyframe<K>>, isDiscrete: bool, current: Keyframe?<K>, progress: Float,
                         hasCallback: bool, cachedCurrent: Keyframe?<K>, cachedProgress: Float): (Keyframe?<K>, Float)
  {
    match LinearProgressOf(isDiscrete, current, progress)
    case Err(_) => (cachedCurrent, cachedProgress)
    case Ok(l) =>
      if hasCallback || ks == [] then (cachedCurrent, cachedProgress)
      else if |ks| == 1 then (cachedCurrent, l)
      else (current, l)
  }

  /**
   * Without a callback, a lookup that did not fail leaves the cache
   * answering the same question, unless the linear progress is NaN.
   */
  lemma SecondLookupHits<K, A>(ks: seq<Keyframe<K>>, isDiscrete: bool, current: Keyframe?<K>, progress: Float,
                               cachedCurrent: Keyframe?<K>, cachedProgress: Float, cached: Option<A>)
    requires current == null <==> ks == []
    requires LookupOf(ks, isDiscrete, current, progress, false, cachedCurrent, cachedProgress, cached).Ok?
    requires LinearProgressOf(isDiscrete, current, progress) != Ok(NaN)
    ensures var (c, p) := CacheAfter(ks, isDiscrete, current, progress, false, cachedCurrent, cachedProgress);
            LookupOf(ks, isDiscrete, current, progress, false, c, p, cached) == Ok(Cached(cached))
  {
  }

  /**
   * A NaN linear progress, which every animated keyframe of a composition
   * of zero length gives, is never answered from the cache: each lookup
   * evaluates again.
   */
  lemma NaNNeverCached<K, A>(ks: seq<Keyframe<K>>, isDiscrete: bool, current: Keyframe?<K>, progress: Float,
                             hasCallback: bool, cachedCurrent: Keyframe?<K>, cachedProgress: Float, cached: Option<A>)
    requires LinearProgressOf(isDiscrete, current, progress) == Ok(NaN)
    ensures var r := LookupOf(ks, isDiscrete, current, progress, hasCallback, cachedCurrent, cachedProgress, cached);
            !(r.Ok? && r.value.Cached?)
  {
  }

  /**
   * Over a composition of zero length, an animated keyframe's linear
   * progress is NaN whatever the overall progress: the start progress is
   * infinite or NaN, and so is the span it is divided by.
   */
  lemma ZeroLengthLinearIsNaN<K>(k: Keyframe<K>, p: Float)
    requires k.composition != null && ZeroLength(k.composition) && !k.IsStatic()
    ensures LinearProgressOf(false, k, p) == Ok(NaN)
  {
    var s, e := StartOf(k), EndOf(k);
    if k.endFrame.Some? {
      var dp := Div(k.endFrame.value - k.startFrame, k.composition.DurationFrames());
      assert e == FAdd(s, dp);
    }
  }

  /** The callback's set, empty for none: the frame of what attaching touches. */
  function Attached<A>(cb: LottieValueCallback?<A>): set<LottieValueCallback<A>>
  {
    if cb == null then {} else {cb}
  }

  /** The keyframe's set, empty for none: the frame of what evaluating it touches. */
  function Present<K>(k: Keyframe?<K>): set<Keyframe<K>>
  {
    if k == null then {} else {k}
  }

  /** The "not computed yet" sentinel of the animation's progress caches: -1. */
  const UNSET: Float := Num(-1.0)

  class BaseKeyframeAnimation<K, A> {
    const keyframes: seq<Keyframe<K>>
    var listeners: seq<ListenerId>
    /** The listeners told of a change, in order. */
    var notified: seq<ListenerId>
    var isDiscrete: bool
    var progress: Float
    var valueCallback: LottieValueCallback?<A>
    var cachedGetValue: Option<A>
    var cachedStartDelayProgress: Float
    var cachedEndProgress: Float
    /** The keyframe the list wrapper points at: none for no keyframes, the only one for one. */
    var current: Keyframe?<K>
    var cachedCurrent: Keyframe?<K>
    var cachedInterpolatedProgress: Float

    ghost predicate Valid()
      reads this`current, this`cachedStartDelayProgress, this`cachedEndProgress
    {
      && (current == null <==> keyframes == [])
      && (current != null ==> current in keyframes)
      && (|keyframes| == 1 ==> current == keyframes[0])
      && (cachedStartDelayProgress == UNSET || cachedStartDelayProgress == StartDelayProgress(keyframes))
      && (cachedEndProgress == UNSET || cachedEndProgress == EndProgress(keyframes))
    }

    /**
     * Wraps the keyframes: with several, the current keyframe is found by
     * searching for progress 0 while none is current yet.
     */
    constructor (keyframes: seq<Keyframe<K>>)
      ensures this.keyframes == keyframes && Valid()
      ensures listeners == [] && notified == [] && !isDiscrete && progress == Num(0.0) && valueCallback == null
      ensures cachedGetValue.None? && cachedStartDelayProgress == UNSET && cachedEndProgress == UNSET
      ensures current == (if keyframes == [] then null
                          else if |keyframes| == 1 then keyframes[0]
                          else keyframes[FindIndex(keyframes, null, Num(0.0))])
      ensures cachedCurrent == null && cachedInterpolatedProgress == UNSET
    {
      var c: Keyframe?<K> := null;
      if |keyframes| >= 2 {
        c := FindKeyframe(keyframes, null, Num(0.0));
      } else if |keyframes| == 1 {
        c := keyframes[0];
      }
      this.keyframes := keyframes;
      listeners, notified, isDiscrete, progress := [], [], false, Num(0.0);
      valueCallback, cachedGetValue := null, None;
      cachedStartDelayProgress, cachedEndProgress := UNSET, UNSET;
      current, cachedCurrent, cachedInterpolatedProgress := c, null, UNSET;
    }

    method SetIsDiscrete()
      modifies this`isDiscrete
      ensures isDiscrete
    {
      isDiscrete := true;
    }

    /** Listeners are kept in a list: adding one twice makes it hear every change twice. */
    method AddUpdateListener(l: ListenerId)
      modifies this`listeners
      ensures listeners == old(listeners) + [l]
    {
      listeners := listeners + [l];
    }

    /** Tells every listener, in order, that the value changed. */
    method NotifyListeners()
      modifies this`notified
      ensures notified == old(notified) + listeners
    {
      var i := 0;
      while i < |listeners|
        invariant 0 <= i <= |listeners|
        invariant notified == old(notified) + listeners[..i]
      {
        assert listeners[..i + 1] == listeners[..i] + [listeners[i]];
        notified := notified + [listeners[i]];
        i := i + 1;
      }
    }

    /** The start delay, computed once. */
    method GetStartDelayProgress() returns (r: Float)
      requires Valid()
      modifies this`cachedStartDelayProgress
      ensures Valid() && r == StartDelayProgress(keyframes)
    {
      if cachedStartDelayProgress == UNSET {
        cachedStartDelayProgress := if keyframes == [] then Num(0.0) else StartOf(keyframes[0]);
      }
      r := cachedStartDelayProgress;
    }

    /** The end progress, computed once. */
    method GetEndProgress() returns (r: Float)
      requires Valid()
      modifies this`cachedEndProgress
      ensures Valid() && r == EndProgress(keyframes)
    {
      if cachedEndProgress == UNSET {
        cachedEndProgress := if keyframes == [] then Num(1.0) else EndOf(keyframes[|keyframes| - 1]);
      }
      r := cachedEndProgress;
    }

    /** The list wrapper's `isValueChanged`: moves the current keyframe to progress `q`. */
    method IsValueChanged(q: Float) returns (changed: bool)
      requires Valid() && keyframes != []
      modifies this`current
      ensures Valid()
      ensures (current, changed) == Advance(keyframes, old(current), q)
    {
      if |keyframes| == 1 || Holds(current, q) {
        return !current.IsStatic();
      }
      current := FindKeyframe(keyframes, current, q);
      changed := true;
    }

    /**
     * Moves the progress into the keyframes' span; when it really moves,
     * the current keyframe follows and the listeners are told if the value
     * may have changed. No keyframes: nothing happens. "Moves" is float
     * inequality, so a NaN progress always counts as a move.
     */
    method SetProgress(p: Float)
      requires Valid()
      modifies this`progress, this`current, this`cachedStartDelayProgress, this`cachedEndProgress, this`notified
      ensures Valid()
      ensures keyframes == [] ==> progress == old(progress) && current == old(current) && notified == old(notified)
      ensures keyframes != [] ==>
        var q := ClampProgress(p, StartDelayProgress(keyframes), EndProgress(keyframes));
        if FEq(q, old(progress)) then
          progress == old(progress) && current == old(current) && notified == old(notified)
        else
          && progress == q
          && current == Advance(keyframes, old(current), q).0
          && notified == old(notified) + (if Advance(keyframes, old(current), q).1 then listeners else [])
      ensures progress == ProgressAfter(keyframes, old(progress), p)
    {
      if keyframes == [] {
        return;
      }
      var q := ClampToSpan(p);
      if FEq(q, progress) {
        return;
      }
      progress := q;
      var changed := IsValueChanged(q);
      if changed {
        NotifyListeners();
      }
    }

    /** `p` moved into the keyframes' span; the end is asked for only when `p` is not below the start. */
    method ClampToSpan(p: Float) returns (q: Float)
      requires Valid()
      modifies this`cachedStartDelayProgress, this`cachedEndProgress
      ensures Valid()
      ensures q == ClampProgress(p, StartDelayProgress(keyframes), EndProgress(keyframes))
    {
      q := p;
      var lo := GetStartDelayProgress();
      if FLt(q, lo) {
        q := lo;
      } else {
        var hi := GetEndProgress();
        if FGt(q, hi) {
          q := hi;
        }
      }
    }

    /** The list wrapper's `isCachedValueEnabled`: answers, and refills the cache on a miss. */
    method IsCachedValueEnabled(l: Float) returns (r: Result<bool>)
      requires Valid()
      modifies this`cachedCurrent, this`cachedInterpolatedProgress
      ensures keyframes == [] ==> r == Err(IllegalState)
      ensures keyframes != [] ==>
        r == Ok(CacheHit(|keyframes|, old(cachedCurrent), old(cachedInterpolatedProgress), current, l))
      ensures (cachedCurrent, cachedInterpolatedProgress)
        == (if keyframes == [] then (old(cachedCurrent), old(cachedInterpolatedProgress))
            else if |keyframes| == 1 then (old(cachedCurrent), l)
            else (current, l))
    {
      if keyframes == [] {
        return Err(IllegalState);
      }
      if |keyframes| == 1 {
        if FEq(cachedInterpolatedProgress, l) {
          return Ok(true);
        }
        cachedInterpolatedProgress := l;
        return Ok(false);
      }
      if cachedCurrent == current && FEq(cachedInterpolatedProgress, l) {
        return Ok(true);
      }
      cachedCurrent, cachedInterpolatedProgress := current, l;
      r := Ok(false);
    }

    /** The first half of `getValue`; see `LookupOf` and `CacheAfter`. */
    method Lookup() returns (r: Result<Lookup<K, A>>)
      requires Valid()
      modifies this`cachedCurrent, this`cachedInterpolatedProgress
      ensures r == LookupOf(keyframes, isDiscrete, current, progress, valueCallback != null,
                            old(cachedCurrent), old(cachedInterpolatedProgress), cachedGetValue)
      ensures (cachedCurrent, cachedInterpolatedProgress)
        == CacheAfter(keyframes, isDiscrete, current, progress, valueCallback != null,
                      old(cachedCurrent), old(cachedInterpolatedProgress))
    {
      var linear := LinearProgressOf(isDiscrete, current, progress);
      if linear.Err? {
        return Err(linear.error);
      }
      if valueCallback == null {
        var hit := IsCachedValueEnabled(linear.value);
        if hit.Err? {
          return Err(hit.error);
        }
        if hit.value {
          return Ok(Cached(cachedGetValue));
        }
      }
      if current == null {
        return Err(IllegalState);
      }
      if current.xInterpolator.Some? && current.yInterpolator.Some? {
        return Err(UnsupportedOperation);
      }
      var t := InterpolatedProgressOf(isDiscrete, current, progress);
      r := Ok(Evaluate(current, t.value));
    }

    /** The last step of `getValue`: the computed value becomes the cached one. */
    method Remember(v: Option<A>)
      modifies this`cachedGetValue
      ensures cachedGetValue == v
    {
      cachedGetValue := v;
    }

    /** Detaches the previous callback and attaches the new one to this animation. */
    method SetValueCallback(cb: LottieValueCallback?<A>)
      modifies this`valueCallback, Attached(valueCallback)`animation, Attached(cb)`animation
      ensures valueCallback == cb
      ensures old(valueCallback) != null && old(valueCallback) != cb ==> old(valueCallback).animation == null
      ensures cb != null ==> cb.animation == this
    {
      if valueCallback != null {
        valueCallback.SetAnimation(null);
      }
      valueCallback := cb;
      if cb != null {
        cb.SetAnimation(this);
      }
    }
  }
}
