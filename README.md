# Lottie-ohos core, modelled in Dafny

Lottie-ohos plays After Effects animations exported as JSON (the Bodymovin
format). A composition is parsed into layers and shape contents; each
animated property is a list of keyframes; a frame clock (the value animator)
moves the current frame; the drawable that owns the clock hands the progress
to every layer, and each layer composes its transform, masks, mattes and
contents into canvas operations.

This project models the core of that system and proves properties of the
model:

- the frame clock (`ValueAnimator`), its listener sets (`AnimatorListeners`)
  and the clock's documented scenarios (`AnimatorScenarios`);
- keyframes (`Keyframes`), keyframe animations with their current-keyframe
  search and caches (`KeyframeAnimations`), the typed float, integer and
  scale animations (`TypedAnimations`), the split-dimension position
  (`SplitDimension`) and value callbacks (`ValueCallbacks`);
- the transform animation and the matrices it composes (`Transform`,
  `Matrices`);
- the base layer with its masks and mattes (`Layers`), shape content groups
  (`ContentGroups`, `Contents`), merge paths (`MergePaths`), the solid fill
  (`Fills`), the stroke (`Strokes`, `PaintContents`) and the gradient fill
  and stroke (`Gradients`);
- the composition (`Composition`) and the drawable with its queue of lazy
  tasks (`Drawables`);
- the shape-data and keyframe parsers (`ShapeParsers`, `KeyframeParsers`)
  and the `Utils` helpers (`Utils`);
- the composition factory's task cache and zip import
  (`CompositionFactory`), the network cache and file extensions
  (`NetworkCaches`), image assets and their manager (`ImageAssets`), the text
  delegate (`TextDelegates`) and the library configuration (`Config`).

Objects whose fields the Java code updates in place are Dafny classes with
`modifies` and `reads` frames, and their loops carry invariants against
specification functions; pure code is datatypes, functions and lemmas.
Keyframe progresses and animated float values are IEEE floats with
infinities and NaN (`JavaNum.Float`), so a division by a zero-length
composition and NaN comparisons behave as in Java; finite floats are reals,
without rounding. Other floats (frames, bounds, geometry) are reals. Java's
`(int)` cast, 32-bit wrap-around and `Math.round` are written out
(`JavaNum`). What an object asks of objects
outside its own module (animations it listens to, the drawable it
invalidates, a canvas) is recorded as a log of calls. What unseen code
reports (the JSON reader's fields, a pixel-map decoder, the file system,
trigonometry) is passed in as parameters.

## Model

Members without a row are specification helpers: predicates and functions
the contracts above are stated in (for instance the drawable's replay of
queued tasks, `Drawables.Replay`, and the stroke's path grouping,
`Strokes.Grouped`), the platform value types of `Geometry`, `Matrices` and
`Properties` that the contracts use, and arithmetic or sequence facts used
inside proofs (such as `JavaNum.MulBetween`, `Wrappers.AppendAssoc` and the path-string facts `NetworkCaches.StripSuffixDir` and `NetworkCaches.NoTempBeforeSlash`).

| member | source | states |
|---|---|---|
| AnimatorListeners.Insert | lottielib/src/main/java/com/airbnb/lottie/utils/BaseLottieAnimator.java:16-18 | adding to a copy-on-write set: the listener is present afterwards, nothing else is added, a present listener leaves the set as it was, and no listener is ever held twice |
| AnimatorListeners.Remove | lottielib/src/main/java/com/airbnb/lottie/utils/BaseLottieAnimator.java:20-22 | removing: exactly the listener goes, nothing is added, an absent listener leaves the set as it was, and no duplicates appear |
| AnimatorListeners.Fanout | lottielib/src/main/java/com/airbnb/lottie/utils/BaseLottieAnimator.java:52-80 | a notification makes one callback per listener, in the set's order, of the notification's kind |
| AnimatorListeners.RemoveUndoesInsert | lottielib/src/main/java/com/airbnb/lottie/utils/BaseLottieAnimator.java:16-22 | removing a listener just added to a set that lacked it restores the set |
| AnimatorListeners.FanoutOncePerListener | lottielib/src/main/java/com/airbnb/lottie/utils/BaseLottieAnimator.java:52-80 | every listener in the set is called exactly once per notification, and a listener outside it never |
| AnimatorListeners.Notifier.constructor | lottielib/src/main/java/com/airbnb/lottie/utils/BaseLottieAnimator.java:10-14 | all three sets start empty and no callback has been made |
| AnimatorListeners.Notifier.AddUpdateListener | lottielib/src/main/java/com/airbnb/lottie/utils/BaseLottieAnimator.java:16-18 | the update set becomes the insertion of the listener |
| AnimatorListeners.Notifier.RemoveUpdateListener | lottielib/src/main/java/com/airbnb/lottie/utils/BaseLottieAnimator.java:20-22 | the update set becomes the removal of the listener |
| AnimatorListeners.Notifier.RemoveAllUpdateListeners | lottielib/src/main/java/com/airbnb/lottie/utils/BaseLottieAnimator.java:24-26 | the update set is empty |
| AnimatorListeners.Notifier.AddListener | lottielib/src/main/java/com/airbnb/lottie/utils/BaseLottieAnimator.java:28-30 | the state-change set becomes the insertion of the listener |
| AnimatorListeners.Notifier.RemoveListener | lottielib/src/main/java/com/airbnb/lottie/utils/BaseLottieAnimator.java:32-34 | the state-change set becomes the removal of the listener |
| AnimatorListeners.Notifier.RemoveAllListeners | lottielib/src/main/java/com/airbnb/lottie/utils/BaseLottieAnimator.java:36-38 | the state-change set is empty |
| AnimatorListeners.Notifier.AddRepeatListener | lottielib/src/main/java/com/airbnb/lottie/utils/BaseLottieAnimator.java:40-42 | the repeat set becomes the insertion of the listener |
| AnimatorListeners.Notifier.RemoveRepeatListener | lottielib/src/main/java/com/airbnb/lottie/utils/BaseLottieAnimator.java:44-46 | the repeat set becomes the removal of the listener |
| AnimatorListeners.Notifier.RemoveRepeatListeners | lottielib/src/main/java/com/airbnb/lottie/utils/BaseLottieAnimator.java:48-50 | the repeat set is empty |
| AnimatorListeners.Notifier.Walk | lottielib/src/main/java/com/airbnb/lottie/utils/BaseLottieAnimator.java:53-55 | walking a set appends one callback per listener, in order |
| AnimatorListeners.Notifier.NotifyStart | lottielib/src/main/java/com/airbnb/lottie/utils/BaseLottieAnimator.java:52-56 | every state-change listener receives onStart, in order, whatever the direction |
| AnimatorListeners.Notifier.NotifyRepeat | lottielib/src/main/java/com/airbnb/lottie/utils/BaseLottieAnimator.java:58-62 | every repeat listener receives onRepeat, in order |
| AnimatorListeners.Notifier.NotifyEnd | lottielib/src/main/java/com/airbnb/lottie/utils/BaseLottieAnimator.java:64-68 | every state-change listener receives onEnd, in order, whatever the direction |
| AnimatorListeners.Notifier.NotifyCancel | lottielib/src/main/java/com/airbnb/lottie/utils/BaseLottieAnimator.java:70-74 | every state-change listener receives onCancel, in order |
| AnimatorListeners.Notifier.NotifyUpdate | lottielib/src/main/java/com/airbnb/lottie/utils/BaseLottieAnimator.java:76-80 | every update listener receives onUpdate, in order |
| ValueAnimator.FrameAfterSet | lottielib/src/main/java/com/airbnb/lottie/utils/LottieValueAnimator.java:169-176 | setting the current frame again changes nothing; any other frame is clamped into ordered bounds and kept exactly when already inside them |
| ValueAnimator.RecomposedFrame | lottielib/src/main/java/com/airbnb/lottie/utils/LottieValueAnimator.java:162-164 | the corrected re-clamp after a new composition lands inside ordered bounds, and agrees with the code as written whenever the truncated frame is not 0 |
| ValueAnimator.RecomposedFrameAsWrittenLeavesBounds | lottielib/src/main/java/com/airbnb/lottie/utils/LottieValueAnimator.java:162-164 | as written, a frame of 0 under bounds [0.5, 10] stays at 0, below the minimum, where the corrected re-clamp gives 0.5 |
| ValueAnimator.RebindFrame | lottielib/src/main/java/com/airbnb/lottie/utils/LottieValueAnimator.java:186-196 | the intended frame after re-bounding: (int) of the old frame clamped into the requested bounds, then clamped into the bounds in force, so it always lies inside ordered bounds |
| ValueAnimator.RebindAgrees | lottielib/src/main/java/com/airbnb/lottie/utils/LottieValueAnimator.java:169-196 | the code as written and the intended re-bound leave the same frame exactly when the frame moves or already lies inside the new bounds |
| ValueAnimator.RebindAsWrittenLeavesBounds | lottielib/src/main/java/com/airbnb/lottie/utils/LottieValueAnimator.java:186-196 | as written, frame 200 re-bounded to [200.5, 800] stays at 200, below the minimum, because `setFrame(200)` returns early; the intended re-bound gives 200.5 |
| ValueAnimator.BoundsInForce | lottielib/src/main/java/com/airbnb/lottie/utils/LottieValueAnimator.java:268-280 | with a composition and bounds set inside its range, the bounds in force are the stored ones, not the sentinels' substitutes |
| ValueAnimator.LottieValueAnimator.constructor | lottielib/src/main/java/com/airbnb/lottie/utils/LottieValueAnimator.java:17-37 | speed 1, frame 0, no repeats, unset bounds (Integer.MIN_VALUE / MAX_VALUE), no composition, not running, no listeners |
| ValueAnimator.LottieValueAnimator.SetFrame | lottielib/src/main/java/com/airbnb/lottie/utils/LottieValueAnimator.java:169-176 | the same frame is ignored; another is clamped into the bounds in force, resets the tick clock and notifies every update listener; a playable state stays playable |
| ValueAnimator.LottieValueAnimator.SetMinAndMaxFrames | lottielib/src/main/java/com/airbnb/lottie/utils/LottieValueAnimator.java:186-196 | crossed bounds throw IllegalArgumentException and change nothing; otherwise both bounds are clamped into the composition's range (the float range without one) and the frame moves to (int) of itself clamped into the requested bounds; a playable state stays playable (as written: the frame can stay outside the new bounds, see Findings) |
| ValueAnimator.LottieValueAnimator.SetMinFrame | lottielib/src/main/java/com/airbnb/lottie/utils/LottieValueAnimator.java:178-180 | the new minimum goes with the current maximum cast to int; it throws exactly when the minimum exceeds that maximum |
| ValueAnimator.LottieValueAnimator.SetMaxFrame | lottielib/src/main/java/com/airbnb/lottie/utils/LottieValueAnimator.java:182-184 | the current minimum goes with the new maximum; it throws exactly when the minimum exceeds the new maximum |
| ValueAnimator.LottieValueAnimator.ClearComposition | lottielib/src/main/java/com/airbnb/lottie/utils/LottieValueAnimator.java:145-149 | the composition and both requested bounds are forgotten, so both bounds in force become 0; the frame is kept |
| ValueAnimator.LottieValueAnimator.SetComposition | lottielib/src/main/java/com/airbnb/lottie/utils/LottieValueAnimator.java:151-167 | the first composition intersects the earlier requested bounds with its range, a later one takes its whole range (both cast to int); crossed bounds throw; the frame is re-clamped (corrected, see Findings), with the clock reset and the listeners notified as `setFrame` does it (nothing when the frame truncates to 0), and the listeners notified once more; a later composition with an ordered range always succeeds and leaves the animator playable; a throw leaves the bounds, the frame, the tick clock and the listener calls as they were |
| ValueAnimator.LottieValueAnimator.Recompose | lottielib/src/main/java/com/airbnb/lottie/utils/LottieValueAnimator.java:155-166 | crossed requested bounds throw and leave the bounds, the frame, the tick clock and the listener calls as they were; otherwise the bounds are the requested ones clamped into the composition, `setMinAndMaxFrames` moves the frame as `setFrame` does, and the re-clamp follows with its clock reset and notifications |
| ValueAnimator.LottieValueAnimator.Reclamp | lottielib/src/main/java/com/airbnb/lottie/utils/LottieValueAnimator.java:162-176 | the frame becomes the corrected re-clamp of its truncation; when the truncation is not 0, `setFrame` resets the tick clock and notifies the update listeners; when it is 0, `setFrame` returns early, the clock is kept and only the notification for the new composition is sent |
| ValueAnimator.LottieValueAnimator.ReverseAnimationSpeed | lottielib/src/main/java/com/airbnb/lottie/utils/LottieValueAnimator.java:198-200 | the speed is negated |
| ValueAnimator.LottieValueAnimator.SetSpeed | lottielib/src/main/java/com/airbnb/lottie/utils/LottieValueAnimator.java:202-204 | the speed is the one given |
| ValueAnimator.LottieValueAnimator.SetLoopedCount | lottielib/src/main/java/com/airbnb/lottie/utils/LottieValueAnimator.java:117 | the loop count the platform animator reports is the one given |
| ValueAnimator.LottieValueAnimator.PlayAnimation | lottielib/src/main/java/com/airbnb/lottie/utils/LottieValueAnimator.java:225-232 | playback runs, the start listeners are told, the frame moves to the bound the direction starts at (cast to int), and the repeat count and tick clock are reset; with whole-frame bounds the frame is exactly that bound |
| ValueAnimator.LottieValueAnimator.EndAnimation | lottielib/src/main/java/com/airbnb/lottie/utils/LottieValueAnimator.java:235-238 | playback stops and the end listeners are told |
| ValueAnimator.LottieValueAnimator.PauseAnimation | lottielib/src/main/java/com/airbnb/lottie/utils/LottieValueAnimator.java:241-243 | playback stops and nobody is told |
| ValueAnimator.LottieValueAnimator.ResumeAnimation | lottielib/src/main/java/com/airbnb/lottie/utils/LottieValueAnimator.java:246-255 | playback runs with the tick clock reset; a frame sitting on the bound the direction ends at jumps to the other bound, any other frame stays |
| ValueAnimator.LottieValueAnimator.Cancel | lottielib/src/main/java/com/airbnb/lottie/utils/LottieValueAnimator.java:259-262 | the cancel listeners are told and playback stops |
| ValueAnimator.LottieValueAnimator.DoFrame | lottielib/src/main/java/com/airbnb/lottie/utils/LottieValueAnimator.java:98-143 | the frame advances by the elapsed time over the frame duration in the playback direction; inside the bounds it stays there; outside with the loops exhausted it ends on the far bound and playback stops; otherwise it wraps to the start bound and the repeat count grows; the listeners are told in that order; verifyFrame throws IllegalStateException exactly when the frame is outside the raw bounds, which never happens from a playable state |
| ValueAnimator.FractionByDirection | lottielib/src/main/java/com/airbnb/lottie/utils/LottieValueAnimator.java:73-82 | reversed, the animated fraction is one minus the forward fraction |
| ValueAnimator.FractionInUnitInterval | lottielib/src/main/java/com/airbnb/lottie/utils/LottieValueAnimator.java:73-82 | inside bounds wider than a frame the animated fraction lies in [0, 1] |
| ValueAnimator.AbsoluteValueInUnitInterval | lottielib/src/main/java/com/airbnb/lottie/utils/LottieValueAnimator.java:59-65 | inside a composition longer than a frame the absolute animated value lies in [0, 1] |
| ValueAnimator.ComposedBounds | lottielib/src/main/java/com/airbnb/lottie/utils/LottieValueAnimator.java:151-194 | bounds requested in order and clamped into the composition's range lie inside it in order and never equal the sentinels; a later composition with whole-frame ends gets exactly those ends |
| ValueAnimator.WholeStartFrame | lottielib/src/main/java/com/airbnb/lottie/utils/LottieValueAnimator.java:268-280 | starting playback between whole-frame bounds lands exactly on the start bound of the direction |
| ValueAnimator.NoOpStaysInside | lottielib/src/main/java/com/airbnb/lottie/utils/LottieValueAnimator.java:186-196 | re-bounding keeps a frame inside the new bounds when the frame lies in the requested range or the requested bounds are whole frames |
| AnimatorScenarios.NewComposition | entry/src/main/java/com/airbnb/lottie/LottieValueAnimatorUnitTest.java:116-137 | a test composition spans the given frames at 1000 frames per second |
| AnimatorScenarios.Setup | entry/src/main/java/com/airbnb/lottie/LottieValueAnimatorUnitTest.java:60-63 | the fixture: a fresh animator given a composition of frames [0, 1000] adopts bounds [0, 1000], frame 0, speed 1 |
| AnimatorScenarios.ResumingMaintainsValue | entry/src/main/java/com/airbnb/lottie/LottieValueAnimatorUnitTest.java:144-149 | after setting frame 500, resuming keeps frame 500 |
| AnimatorScenarios.FrameConvertsToAnimatedFraction | entry/src/main/java/com/airbnb/lottie/LottieValueAnimatorUnitTest.java:151-157 | frame 500 gives an animated fraction and an absolute value of exactly 0.5 |
| AnimatorScenarios.PlayingResetsValue | entry/src/main/java/com/airbnb/lottie/LottieValueAnimatorUnitTest.java:159-165 | playing forward from frame 500 restarts at frame 0 with fraction 0 |
| AnimatorScenarios.ReversingMaintainsValue | entry/src/main/java/com/airbnb/lottie/LottieValueAnimatorUnitTest.java:167-174 | reversing at frame 250 keeps the frame, gives fraction 0.75 and absolute value 0.25 |
| AnimatorScenarios.ResumeReversingWithMaxValue | entry/src/main/java/com/airbnb/lottie/LottieValueAnimatorUnitTest.java:195-203 | with maximum 900, resuming in reverse from frame 0 jumps to 900: fraction 0, absolute value 0.9 |
| AnimatorScenarios.PlayReversingWithMaxValue | entry/src/main/java/com/airbnb/lottie/LottieValueAnimatorUnitTest.java:205-213 | with maximum 900, playing in reverse starts at 900: fraction 0, absolute value 0.9 |
| AnimatorScenarios.BoundedAt400 | entry/src/main/java/com/airbnb/lottie/LottieValueAnimatorUnitTest.java:215-219 | bounds 200 and 800 requested one at a time, then frame 400, leave exactly those bounds and that frame |
| AnimatorScenarios.MinAndMaxBothSet | entry/src/main/java/com/airbnb/lottie/LottieValueAnimatorUnitTest.java:215-229 | inside [200, 800], frame 400 is a third of the way forward, two thirds reversed (also after resuming), absolute value 0.4 |
| AnimatorScenarios.MinAndMaxBothSetThenPlayReversed | entry/src/main/java/com/airbnb/lottie/LottieValueAnimatorUnitTest.java:230-232 | playing in reverse inside [200, 800] starts at 800 with fraction 0 |
| AnimatorScenarios.SetFrameIntegrity | entry/src/main/java/com/airbnb/lottie/LottieValueAnimatorUnitTest.java:236-246 | under bounds [200, 800], frames 100 and 900 are clamped to 200 and 800 |
| AnimatorScenarios.MinAndMaxFrameIntegrity | entry/src/main/java/com/airbnb/lottie/LottieValueAnimatorUnitTest.java:248-252 | bounds 800 and 200 are refused with IllegalArgumentException |
| AnimatorScenarios.BoundsOutsideComposition | entry/src/main/java/com/airbnb/lottie/LottieValueAnimatorUnitTest.java:255-266 | a minimum of -9000 and a maximum of 9000 are clamped to the composition's 0 and 1000 |
| AnimatorScenarios.BoundsBeforeComposition | entry/src/main/java/com/airbnb/lottie/LottieValueAnimatorUnitTest.java:287-294 | bounds [100, 900] requested before the first composition survive its arrival |
| AnimatorScenarios.MinFrameBeforeComposition | entry/src/main/java/com/airbnb/lottie/LottieValueAnimatorUnitTest.java:362-369 | a minimum of 100 requested before the composition is kept, and the maximum becomes its end, 1000 |
| AnimatorScenarios.LaterCompositionBounds | entry/src/main/java/com/airbnb/lottie/LottieValueAnimatorUnitTest.java:325-342 | a later composition of 500 or 1500 frames makes the maximum 500 or 1500 |
| AnimatorScenarios.ResetComposition | entry/src/main/java/com/airbnb/lottie/LottieValueAnimatorUnitTest.java:345-359 | clearing the composition makes both bounds 0; setting it again restores [0, 1000] |
| JavaNum.Trunc | lottielib/src/main/java/com/airbnb/lottie/utils/LottieValueAnimator.java:164 | the `(int)` cast rounds toward zero |
| JavaNum.ToInt | lottielib/src/main/java/com/airbnb/lottie/utils/LottieValueAnimator.java:164 | the `(int)` cast of a finite float is an int: the truncation when it fits |
| JavaNum.Saturate | lottielib/src/main/java/com/airbnb/lottie/utils/LottieValueAnimator.java:164 | out-of-range values saturate to the ends of the int range; in-range ones are kept |
| JavaNum.Lerp | lottie/src/main/java/com/airbnb/lottie/animation/keyframe/FloatKeyframeAnimation.java:39 | the blend gives the start at 0, the end at 1, and stays between them for a progress in [0, 1] |
| JavaNum.Clamp | lottielib/src/main/java/com/airbnb/lottie/utils/LottieValueAnimator.java:173 | the value moved into ordered bounds, unchanged when already inside, the lower bound when below it |
| JavaNum.Div | lottie/src/main/java/com/airbnb/lottie/value/Keyframe.java:111 | float division: the quotient by a non-zero divisor; by zero, an infinity of the dividend's sign, or NaN for 0 / 0 |
| JavaNum.FAdd | lottie/src/main/java/com/airbnb/lottie/value/Keyframe.java:127 | float +: the sum of finite values; NaN in gives NaN; opposite infinities give NaN; an infinite operand gives an infinite or NaN result |
| JavaNum.FSub | lottie/src/main/java/com/airbnb/lottie/animation/keyframe/BaseKeyframeAnimation.java:100-101 | float -: the difference of finite values; NaN in gives NaN; an infinity minus itself is NaN |
| JavaNum.FMul | lottie/src/main/java/com/airbnb/lottie/animation/keyframe/FloatKeyframeAnimation.java:39 | float *: the product of finite values; NaN in gives NaN; an infinite operand gives an infinite or NaN result |
| JavaNum.FDiv | lottie/src/main/java/com/airbnb/lottie/animation/keyframe/BaseKeyframeAnimation.java:102 | float /: finite values divide as `Div`; NaN in gives NaN; an infinity over an infinity is NaN; a finite value over an infinity is 0 |
| JavaNum.FloatOrder | lottie/src/main/java/com/airbnb/lottie/animation/keyframe/BaseKeyframeAnimation.java:58-64 | Java's float comparisons: between non-NaN values exactly one of <, ==, > holds; none holds with NaN; on finite values they are the real order |
| JavaNum.FToInt | lottie/src/main/java/com/airbnb/lottie/animation/keyframe/IntegerKeyframeAnimation.java:39 | the `(int)` cast of a float: NaN gives 0, the infinities the ends of the int range, a finite value its cast |
| JavaNum.FLerp | lottie/src/main/java/com/airbnb/lottie/animation/keyframe/FloatKeyframeAnimation.java:39 | the float blend: the real blend on finite arguments, NaN when any argument is NaN |
| Geometry.Translate | lottie/src/main/java/com/airbnb/lottie/value/LottieRelativePointValueCallback.java:25 | moving a finite point by finite offsets adds the offsets to its coordinates |
| Geometry.LerpPoint | lottie/src/main/java/com/airbnb/lottie/value/LottieRelativePointValueCallback.java:18-21 | each coordinate blended at the same progress: the start point at 0, the end point at 1 for finite points; all NaN at a NaN progress |
| Geometry.LerpScale | lottie/src/main/java/com/airbnb/lottie/animation/keyframe/ScaleKeyframeAnimation.java:34-37 | each scale factor blended at the same progress: the start pair at 0, the end pair at 1 for finite pairs; all NaN at a NaN progress |
| Keyframes.StartProgressOf | lottie/src/main/java/com/airbnb/lottie/value/Keyframe.java:106-114 | over a composition of non-zero length the start progress is finite and maps back to the start frame; without a composition it is 0; over a composition of zero length the division by 0 gives +infinity for a keyframe starting after the composition's frame, -infinity for one starting before it, and NaN for one starting at it |
| Keyframes.EndProgressOf | lottie/src/main/java/com/airbnb/lottie/value/Keyframe.java:116-131 | over a composition of non-zero length the end progress is finite and maps back to the end frame; it is 1 without a composition or without an end frame; over a composition of zero length a keyframe with an end frame ends at an infinity or NaN |
| Keyframes.ProgressContiguous | lottie/src/main/java/com/airbnb/lottie/value/Keyframe.java:111-127 | a keyframe ending at frame f ends at exactly the progress where a keyframe starting at f starts |
| Keyframes.ProgressOrdered | lottie/src/main/java/com/airbnb/lottie/value/Keyframe.java:111-127 | in a composition of positive length, a keyframe whose frames are ordered has ordered progress (float <=) |
| Keyframes.Keyframe.constructor | lottie/src/main/java/com/airbnb/lottie/value/Keyframe.java:49-60 | a keyframe eased by one curve keeps its arguments, has no per-axis curves and no path tangents, is static exactly when it has no curve, and has every memo unset |
| Keyframes.Keyframe.Split | lottie/src/main/java/com/airbnb/lottie/value/Keyframe.java:62-73 | a keyframe eased per axis keeps its arguments, has no single curve, is static exactly when it has neither axis curve, and has every memo unset |
| Keyframes.Keyframe.Static | lottie/src/main/java/com/airbnb/lottie/value/Keyframe.java:93-104 | a static keyframe holds one value at both ends over [Float.MIN_VALUE, Float.MAX_VALUE], with no composition, so its progress span is [0, 1] |
| Keyframes.Keyframe.GetStartProgress | lottie/src/main/java/com/airbnb/lottie/value/Keyframe.java:106-114 | the start progress as specified, infinities and NaN included, computed once and remembered |
| Keyframes.Keyframe.GetEndProgress | lottie/src/main/java/com/airbnb/lottie/value/Keyframe.java:116-131 | the end progress as specified, infinities and NaN included, computed once and remembered |
| Keyframes.Keyframe.ContainsProgress | lottie/src/main/java/com/airbnb/lottie/value/Keyframe.java:138-140 | a progress is contained exactly when it is >= the start progress and < the end progress in float comparison, so never when either side is NaN |
| Keyframes.ZeroLengthContains | lottie/src/main/java/com/airbnb/lottie/value/Keyframe.java:106-140 | over a composition of zero length a finite progress is contained only by a keyframe that starts before the composition's frame and has no end frame, and then exactly when it is below 1 |
| Keyframes.StartValueFloat | lottie/src/main/java/com/airbnb/lottie/value/Keyframe.java:146-151 | the unboxed start value, remembered; a null start value is a NullPointerException |
| Keyframes.EndValueFloat | lottie/src/main/java/com/airbnb/lottie/value/Keyframe.java:157-162 | the unboxed end value, remembered; a null end value is a NullPointerException |
| Keyframes.StartValueInt | lottie/src/main/java/com/airbnb/lottie/value/Keyframe.java:168-173 | the unboxed integer start value, remembered; null is a NullPointerException |
| Keyframes.EndValueInt | lottie/src/main/java/com/airbnb/lottie/value/Keyframe.java:179-184 | the unboxed integer end value, remembered; null is a NullPointerException |
| Keyframes.RepeatedProgress | lottie/src/main/java/com/airbnb/lottie/value/Keyframe.java:106-131 | asking twice gives the same progress span, whether or not the first call filled the memo |
| KeyframeAnimations.FindFrom | lottie/src/main/java/com/airbnb/lottie/animation/keyframe/BaseKeyframeAnimation.java:329-338 | the backward search returns a keyframe from the scanned range that is not the current one and holds the progress, or 0; every keyframe it passed over was the current one or did not hold the progress |
| KeyframeAnimations.FindIndex | lottie/src/main/java/com/airbnb/lottie/animation/keyframe/BaseKeyframeAnimation.java:324-339 | the last keyframe is chosen exactly when the progress reaches its start (float >=); a middle keyframe chosen holds the progress and is not the current one; no later middle keyframe qualified |
| KeyframeAnimations.FindKeyframe | lottie/src/main/java/com/airbnb/lottie/animation/keyframe/BaseKeyframeAnimation.java:324-339 | the loop over the list picks the keyframe the search specification names |
| KeyframeAnimations.ZeroLengthHoldsNothing | lottie/src/main/java/com/airbnb/lottie/value/Keyframe.java:138-140 | over a composition of zero length a keyframe with an end frame holds no progress at all, finite, infinite or NaN |
| KeyframeAnimations.ZeroLengthSearch | lottie/src/main/java/com/airbnb/lottie/animation/keyframe/BaseKeyframeAnimation.java:324-339 | over a composition of zero length the search among keyframes with end frames ends at the last keyframe or falls through to the first; it never picks a middle one |
| KeyframeAnimations.ClampProgress | lottie/src/main/java/com/airbnb/lottie/animation/keyframe/BaseKeyframeAnimation.java:58-62 | the clamp with float comparisons, lower end tested first: inside ordered bounds for any request other than NaN, unchanged when already inside, and a NaN request passes through |
| KeyframeAnimations.ProgressAfter | lottie/src/main/java/com/airbnb/lottie/animation/keyframe/BaseKeyframeAnimation.java:54-62 | an empty list keeps the progress; otherwise the clamped request, which lies in an ordered span unless the request is NaN, and is NaN for a NaN request |
| KeyframeAnimations.LinearProgressOf | lottie/src/main/java/com/airbnb/lottie/animation/keyframe/BaseKeyframeAnimation.java:91-103 | 0 when discrete or static; no current keyframe is IllegalStateException; otherwise a value, the float share (p - start) / (end - start) that `LinearProgressShare` characterises |
| KeyframeAnimations.Share | lottie/src/main/java/com/airbnb/lottie/animation/keyframe/BaseKeyframeAnimation.java:100-102 | the float share of a span: finite over a finite span of non-zero length, where start plus share times span is the progress; in [0, 1) for a progress inside a forward span; infinite over a span of zero length, NaN exactly at its start; NaN when any input is NaN |
| KeyframeAnimations.LinearProgressShare | lottie/src/main/java/com/airbnb/lottie/animation/keyframe/BaseKeyframeAnimation.java:91-103 | for an animated keyframe: over a finite span of non-zero length start plus the result times the span is the progress, and a progress the keyframe holds gives a value in [0, 1); over a span of zero length a finite progress gives an infinity, or NaN at its start; a NaN progress or end gives NaN |
| KeyframeAnimations.ZeroLengthLinearIsNaN | lottie/src/main/java/com/airbnb/lottie/animation/keyframe/BaseKeyframeAnimation.java:91-103 | over a composition of zero length every animated keyframe's linear progress is NaN, whatever the overall progress |
| KeyframeAnimations.InterpolatedProgressOf | lottie/src/main/java/com/airbnb/lottie/animation/keyframe/BaseKeyframeAnimation.java:110-117 | with no current keyframe it fails; otherwise the eased progress is the linear one (the easing curve is never applied) |
| KeyframeAnimations.AdvanceFindsHolder | lottie/src/main/java/com/airbnb/lottie/animation/keyframe/BaseKeyframeAnimation.java:316-339 | when some keyframe holds the new progress, the keyframe current after the change check holds it too, or is the last keyframe whose start the progress reaches |
| KeyframeAnimations.LookupCases | lottie/src/main/java/com/airbnb/lottie/animation/keyframe/BaseKeyframeAnimation.java:135-156 | getValue answers from the cache exactly when there is no callback and the wrapper reports a hit, and then returns the cached value; otherwise it evaluates the current keyframe at the linear progress; an empty list fails |
| KeyframeAnimations.SecondLookupHits | lottie/src/main/java/com/airbnb/lottie/animation/keyframe/BaseKeyframeAnimation.java:135-156 | without a callback, asking again right after a successful lookup is answered from the cache, unless the linear progress is NaN |
| KeyframeAnimations.NaNNeverCached | lottie/src/main/java/com/airbnb/lottie/animation/keyframe/BaseKeyframeAnimation.java:356-365 | a NaN linear progress never equals the cached one, so such a lookup is never answered from the cache |
| KeyframeAnimations.BaseKeyframeAnimation.constructor | lottie/src/main/java/com/airbnb/lottie/animation/keyframe/BaseKeyframeAnimation.java:24-43 | no listeners, not discrete, progress 0, no callback, every cache unset; the current keyframe is none, the only one, or the one the search finds for progress 0; any keyframe list is accepted |
| KeyframeAnimations.BaseKeyframeAnimation.SetIsDiscrete | lottie/src/main/java/com/airbnb/lottie/animation/keyframe/BaseKeyframeAnimation.java:45-47 | the animation is discrete |
| KeyframeAnimations.BaseKeyframeAnimation.AddUpdateListener | lottie/src/main/java/com/airbnb/lottie/animation/keyframe/BaseKeyframeAnimation.java:49-51 | the listener is appended |
| KeyframeAnimations.BaseKeyframeAnimation.NotifyListeners | lottie/src/main/java/com/airbnb/lottie/animation/keyframe/BaseKeyframeAnimation.java:73-77 | every listener is told once, in order |
| KeyframeAnimations.BaseKeyframeAnimation.GetStartDelayProgress | lottie/src/main/java/com/airbnb/lottie/animation/keyframe/BaseKeyframeAnimation.java:120-125 | the start of the first keyframe (0 for none), remembered |
| KeyframeAnimations.BaseKeyframeAnimation.GetEndProgress | lottie/src/main/java/com/airbnb/lottie/animation/keyframe/BaseKeyframeAnimation.java:128-133 | the end of the last keyframe (1 for none), remembered |
| KeyframeAnimations.BaseKeyframeAnimation.IsValueChanged | lottie/src/main/java/com/airbnb/lottie/animation/keyframe/BaseKeyframeAnimation.java:316-322 | a progress the current keyframe holds reports a change exactly when it is not static; any other moves to the searched keyframe and reports a change |
| KeyframeAnimations.BaseKeyframeAnimation.SetProgress | lottie/src/main/java/com/airbnb/lottie/animation/keyframe/BaseKeyframeAnimation.java:54-71 | an empty list ignores it; otherwise the progress is clamped into the keyframes' span; a clamped progress float-equal to the stored one changes nothing (a NaN is never equal, so it always counts as a move); a new one is stored, advances the current keyframe and tells the listeners when the value changed; the stored progress is `ProgressAfter`, inside the span unless the request is NaN |
| KeyframeAnimations.BaseKeyframeAnimation.ClampToSpan | lottie/src/main/java/com/airbnb/lottie/animation/keyframe/BaseKeyframeAnimation.java:58-62 | the request clamped as `ClampProgress` says; the span's end is asked for only when the request is not below its start |
| KeyframeAnimations.BaseKeyframeAnimation.IsCachedValueEnabled | lottie/src/main/java/com/airbnb/lottie/animation/keyframe/BaseKeyframeAnimation.java:356-365 | an empty list fails; one keyframe hits when the progress repeats; several hit when both the current keyframe and the progress repeat, the progresses compared as floats, so a NaN never hits; the cache then holds the new pair |
| KeyframeAnimations.BaseKeyframeAnimation.Lookup | lottie/src/main/java/com/airbnb/lottie/animation/keyframe/BaseKeyframeAnimation.java:135-151 | getValue's first half: the answer is the lookup specification's, and the cache moves as the specification says |
| KeyframeAnimations.BaseKeyframeAnimation.Remember | lottie/src/main/java/com/airbnb/lottie/animation/keyframe/BaseKeyframeAnimation.java:153 | the computed value is cached |
| KeyframeAnimations.BaseKeyframeAnimation.SetValueCallback | lottie/src/main/java/com/airbnb/lottie/animation/keyframe/BaseKeyframeAnimation.java:162-170 | the new callback is installed and bound to this animation; a different previous callback is unbound |
| TypedAnimations.LerpInt | lottie/src/main/java/com/airbnb/lottie/animation/keyframe/IntegerKeyframeAnimation.java:39 | the integer blend cast to int: the start value at progress 0 and the end value at progress 1; NaN gives 0; an infinite progress gives the end of the int range in the direction travelled, or 0 when the two values agree |
| TypedAnimations.LerpIntIsFloatBlend | lottie/src/main/java/com/airbnb/lottie/animation/keyframe/IntegerKeyframeAnimation.java:39 | the integer blend is the float blend of the two values, cast to int |
| TypedAnimations.InfiniteBlend | lottie/src/main/java/com/airbnb/lottie/animation/keyframe/IntegerKeyframeAnimation.java:39 | at an infinite progress the float blend of two ints is the infinity of the direction travelled, or NaN when they agree |
| TypedAnimations.ValueAtOf | lottie/src/main/java/com/airbnb/lottie/animation/keyframe/FloatKeyframeAnimation.java:25-40 | a keyframe missing a value is IllegalStateException; with no callback the value is the blend of the two values; with a callback, its non-null answer wins and a null answer falls back to the blend; the only other failures are an unboxed null end frame and the linear progress's own failure |
| TypedAnimations.FloatValueAt | lottie/src/main/java/com/airbnb/lottie/animation/keyframe/FloatKeyframeAnimation.java:25-40 | evaluating a float keyframe gives what the specification says and hands the callback the keyframe's frames, values and progresses |
| TypedAnimations.FloatValue | lottie/src/main/java/com/airbnb/lottie/animation/keyframe/FloatKeyframeAnimation.java:46-48 | the float value evaluates the current keyframe at its eased progress; no current keyframe is IllegalStateException |
| TypedAnimations.GetFloat | lottie/src/main/java/com/airbnb/lottie/animation/keyframe/BaseKeyframeAnimation.java:135-156 | getValue for floats: a cache hit returns the cached value, an evaluation stores and returns its value, a failure leaves the cache alone |
| TypedAnimations.IntValueAt | lottie/src/main/java/com/airbnb/lottie/animation/keyframe/IntegerKeyframeAnimation.java:25-40 | evaluating an integer keyframe gives what the specification says with the truncating blend |
| TypedAnimations.IntValue | lottie/src/main/java/com/airbnb/lottie/animation/keyframe/IntegerKeyframeAnimation.java:46-48 | the integer value evaluates the current keyframe at its eased progress; no current keyframe is IllegalStateException |
| TypedAnimations.GetInt | lottie/src/main/java/com/airbnb/lottie/animation/keyframe/BaseKeyframeAnimation.java:135-156 | getValue for integers: a cache hit returns the cached value, an evaluation stores and returns its value, a failure leaves the cache alone |
| TypedAnimations.ScaleKeyframeAnimation.constructor | lottie/src/main/java/com/airbnb/lottie/animation/keyframe/ScaleKeyframeAnimation.java:11-15 | a fresh base animation over any keyframe list, and a reused scale pair starting at (1, 1) |
| TypedAnimations.ScaleKeyframeAnimation.ValueAt | lottie/src/main/java/com/airbnb/lottie/animation/keyframe/ScaleKeyframeAnimation.java:17-39 | missing values fail; a callback's answer wins; otherwise the reused pair is set to the per-axis blend and returned |
| TypedAnimations.ScaleKeyframeAnimation.GetValue | lottie/src/main/java/com/airbnb/lottie/animation/keyframe/BaseKeyframeAnimation.java:135-156 | getValue for scales, with the same cache behaviour as the other typed animations |
| ValueCallbacks.LottieValueCallback.constructor | lottie/src/main/java/com/airbnb/lottie/value/LottieValueCallback.java:20-27 | a plain callback answers with its static value (none by default), has seen no frame and is bound to no animation |
| ValueCallbacks.LottieValueCallback.Overriding | lottie/src/main/java/com/airbnb/lottie/value/LottieValueCallback.java:34-37 | a subclass that overrides getValue answers with its own function of the frame being drawn and the static value |
| ValueCallbacks.LottieValueCallback.InterpolatedValue | lottie/src/main/java/com/airbnb/lottie/value/LottieInterpolatedValue.java:12-14 | an interpolated value over a start and end value with the default curve and no static value |
| ValueCallbacks.LottieValueCallback.InterpolatedValueWith | lottie/src/main/java/com/airbnb/lottie/value/LottieInterpolatedValue.java:16-20 | an interpolated value over a start and end value with the given curve |
| ValueCallbacks.LottieValueCallback.SetValue | lottie/src/main/java/com/airbnb/lottie/value/LottieValueCallback.java:39-44 | the static value is replaced, and the bound animation, if any, is asked to notify its listeners |
| ValueCallbacks.LottieValueCallback.GetValueInternal | lottie/src/main/java/com/airbnb/lottie/value/LottieValueCallback.java:46-51 | the frame information is recorded and handed to getValue: a plain callback answers its static value, an interpolated one blends its start and end values at the overall progress, whatever the curve |
| ValueCallbacks.LottieValueCallback.SetAnimation | lottie/src/main/java/com/airbnb/lottie/value/LottieValueCallback.java:53-55 | the callback is bound to the given animation, or to none |
| ValueCallbacks.RelativePointOf | lottie/src/main/java/com/airbnb/lottie/value/LottieRelativePointValueCallback.java:16-40 | a missing start or end point is a NullPointerException; otherwise the result fails exactly when there is no offset (IllegalArgumentException), and at progress 0 and 1 it is the start and end point moved by the offset |
| ValueCallbacks.LottieRelativePointValueCallback.constructor | lottie/src/main/java/com/airbnb/lottie/value/LottieRelativePointValueCallback.java:7-10 | no offset, a plain static-value callback (which, once bound to an animation, answers its static value and not the relative point), and a reused point at the origin |
| ValueCallbacks.LottieRelativePointValueCallback.WithOffset | lottie/src/main/java/com/airbnb/lottie/value/LottieRelativePointValueCallback.java:12-14 | the given point is the offset |
| ValueCallbacks.LottieRelativePointValueCallback.GetOffset | lottie/src/main/java/com/airbnb/lottie/value/LottieRelativePointValueCallback.java:34-40 | the static value; without one, IllegalArgumentException |
| ValueCallbacks.LottieRelativePointValueCallback.GetValue | lottie/src/main/java/com/airbnb/lottie/value/LottieRelativePointValueCallback.java:16-27 | the result is the specification's; the reused point holds the blend before the offset is asked for, and the moved point afterwards |
| SplitDimension.AxisAnswer | lottie/src/main/java/com/airbnb/lottie/animation/keyframe/SplitDimensionPathKeyframeAnimation.java:86-105 | no callback or no current keyframe gives no answer; a static callback answers its value; an interpolated one blends at the axis's eased keyframe progress, which is passed in the overall-progress slot |
| SplitDimension.DriveAxis | lottie/src/main/java/com/airbnb/lottie/animation/keyframe/SplitDimensionPathKeyframeAnimation.java:54-55 | one axis's progress is set as that axis's own setProgress says |
| SplitDimension.AxisValue | lottie/src/main/java/com/airbnb/lottie/animation/keyframe/SplitDimensionPathKeyframeAnimation.java:56 | reading one axis's value leaves its progress, callback and listeners alone and caches a successful value |
| SplitDimension.SplitDimensionPathKeyframeAnimation.Unset | lottie/src/main/java/com/airbnb/lottie/animation/keyframe/SplitDimensionPathKeyframeAnimation.java:22-27 | the animation has an empty keyframe list of its own, both axes, both points at the origin and no axis callbacks, before the initial setProgress |
| SplitDimension.SplitDimensionPathKeyframeAnimation.SetProgress | lottie/src/main/java/com/airbnb/lottie/animation/keyframe/SplitDimensionPathKeyframeAnimation.java:53-60 | both axes get the progress; on success the point holds the two axis values and every listener of the split animation is told once; a failing axis value leaves the point and the listeners untold |
| SplitDimension.SplitDimensionPathKeyframeAnimation.Update | lottie/src/main/java/com/airbnb/lottie/animation/keyframe/SplitDimensionPathKeyframeAnimation.java:54-56 | both axes are driven, then both values read; the result holds the two cached axis values |
| SplitDimension.SplitDimensionPathKeyframeAnimation.DriveBoth | lottie/src/main/java/com/airbnb/lottie/animation/keyframe/SplitDimensionPathKeyframeAnimation.java:54-55 | the x axis, then the y axis, get the progress |
| SplitDimension.SplitDimensionPathKeyframeAnimation.AxisValues | lottie/src/main/java/com/airbnb/lottie/animation/keyframe/SplitDimensionPathKeyframeAnimation.java:56 | both axis values are read without moving either axis |
| SplitDimension.SplitDimensionPathKeyframeAnimation.Create | lottie/src/main/java/com/airbnb/lottie/animation/keyframe/SplitDimensionPathKeyframeAnimation.java:22-30 | construction ends with setProgress of the initial progress 0: both axes are driven to 0 and the point holds their values; no callbacks are attached |
| SplitDimension.SplitDimensionPathKeyframeAnimation.SetXValueCallback | lottie/src/main/java/com/airbnb/lottie/animation/keyframe/SplitDimensionPathKeyframeAnimation.java:32-40 | the x callback is installed and bound to this animation; a different previous one is unbound |
| SplitDimension.SplitDimensionPathKeyframeAnimation.SetYValueCallback | lottie/src/main/java/com/airbnb/lottie/animation/keyframe/SplitDimensionPathKeyframeAnimation.java:42-50 | the y callback is installed and bound to this animation; a different previous one is unbound |
| SplitDimension.SplitDimensionPathKeyframeAnimation.AskAxis | lottie/src/main/java/com/airbnb/lottie/animation/keyframe/SplitDimensionPathKeyframeAnimation.java:86-95 | one axis's callback is asked exactly as the axis answer says |
| SplitDimension.SplitDimensionPathKeyframeAnimation.GetValue | lottie/src/main/java/com/airbnb/lottie/animation/keyframe/SplitDimensionPathKeyframeAnimation.java:62-110 | each coordinate is the axis callback's answer when there is one, else the stored point's coordinate; with no callbacks the value is the stored point |
| Transform.PresentInMembers | lottie/src/main/java/com/airbnb/lottie/animation/keyframe/TransformKeyframeAnimation.java:84-143 | a component is visited exactly when it is in the fixed order and present |
| Transform.PresentInDistinct | lottie/src/main/java/com/airbnb/lottie/animation/keyframe/TransformKeyframeAnimation.java:84-143 | no component is visited twice |
| Transform.FanoutStep | lottie/src/main/java/com/airbnb/lottie/animation/keyframe/TransformKeyframeAnimation.java:115-143 | walking the order one component further adds one call exactly when that component is present |
| Transform.FanoutOnce | lottie/src/main/java/com/airbnb/lottie/animation/keyframe/TransformKeyframeAnimation.java:84-143 | every present component receives each broadcast exactly once, and an absent one never |
| Transform.ThenFull | lottie/src/main/java/com/airbnb/lottie/animation/keyframe/TransformKeyframeAnimation.java:182-233 | applying a stage that agrees with a full stage matrix is multiplying by that matrix |
| Transform.ThenIdentity | lottie/src/main/java/com/airbnb/lottie/animation/keyframe/TransformKeyframeAnimation.java:162-164 | a skipped stage whose value is the identity changes nothing |
| Transform.ZeroSkewIsIdentity | lottie/src/main/java/com/airbnb/lottie/animation/keyframe/TransformKeyframeAnimation.java:187-216 | a skew of 0 builds the identity from the three skew matrices whatever the skew angle |
| Transform.MissingSkewAngleIsZero | lottie/src/main/java/com/airbnb/lottie/animation/keyframe/TransformKeyframeAnimation.java:188-189 | without a skew angle the skew uses cos 0 and sin 1, which is what an angle of 0 gives |
| Transform.StagesAgree | lottie/src/main/java/com/airbnb/lottie/animation/keyframe/TransformKeyframeAnimation.java:159-231 | each of the five stages of getMatrix is either skipped with an identity value or is the full stage matrix |
| Transform.MatrixIsFullProduct | lottie/src/main/java/com/airbnb/lottie/animation/keyframe/TransformKeyframeAnimation.java:182-233 | the matrix is position, then rotation, then skew, then scale, then the negated anchor point, multiplied in that order; skipping identity stages changes nothing |
| Transform.NothingPresentIsIdentity | lottie/src/main/java/com/airbnb/lottie/animation/keyframe/TransformKeyframeAnimation.java:182-233 | without any component the matrix is the identity |
| Transform.RepeaterAtZero | lottie/src/main/java/com/airbnb/lottie/animation/keyframe/TransformKeyframeAnimation.java:246-266 | for 0 copies the repeater's matrix is the identity |
| Transform.RepeaterPositionAtZero | lottie/src/main/java/com/airbnb/lottie/animation/keyframe/TransformKeyframeAnimation.java:251-253 | for 0 copies the position stage is the identity |
| Transform.RepeaterScaleAtZero | lottie/src/main/java/com/airbnb/lottie/animation/keyframe/TransformKeyframeAnimation.java:254-258 | for 0 copies the scale stage (scale to the power 0) is the identity |
| Transform.RepeaterRotationAtZero | lottie/src/main/java/com/airbnb/lottie/animation/keyframe/TransformKeyframeAnimation.java:259-263 | for 0 copies the rotation stage is the identity |
| Transform.RepeaterAtOne | lottie/src/main/java/com/airbnb/lottie/animation/keyframe/TransformKeyframeAnimation.java:246-266 | one copy's matrix is the position, then the scale, then the rotation about the anchor point (the origin without one) |
| Transform.RepeaterRotationFixesPivot | lottie/src/main/java/com/airbnb/lottie/animation/keyframe/TransformKeyframeAnimation.java:259-263 | whatever the number of copies, the rotation stage leaves the anchor point where it is |
| Transform.Route | lottie/src/main/java/com/airbnb/lottie/animation/keyframe/TransformKeyframeAnimation.java:274-301 | a callback for a property reaches the component that property names exactly when it is present; a present split position takes the x and y callbacks; an absent anchor point, position, scale, rotation or opacity is a NullPointerException; every other property is declined |
| Transform.TransformKeyframeAnimation.constructor | lottie/src/main/java/com/airbnb/lottie/animation/keyframe/TransformKeyframeAnimation.java:36-69 | the components present are those the model gives; a skew comes with a fresh nine-value array of zeros; the matrix starts as the identity |
| Transform.TransformKeyframeAnimation.Offers | lottie/src/main/java/com/airbnb/lottie/animation/keyframe/TransformKeyframeAnimation.java:71-82 | all nine components are offered to the layer in the fixed order, an absent one as nothing |
| Transform.TransformKeyframeAnimation.AddListener | lottie/src/main/java/com/airbnb/lottie/animation/keyframe/TransformKeyframeAnimation.java:84-113 | every present component gets the listener, once, in the fixed order |
| Transform.TransformKeyframeAnimation.SetProgress | lottie/src/main/java/com/airbnb/lottie/animation/keyframe/TransformKeyframeAnimation.java:115-144 | every present component is set to the progress, once, in the fixed order |
| Transform.TransformKeyframeAnimation.Broadcast | lottie/src/main/java/com/airbnb/lottie/animation/keyframe/TransformKeyframeAnimation.java:84-144 | the loop over the fixed order makes exactly the fan-out of calls |
| Transform.TransformKeyframeAnimation.ClearSkewValues | lottie/src/main/java/com/airbnb/lottie/animation/keyframe/TransformKeyframeAnimation.java:235-239 | every entry of the skew array is 0 |
| Transform.TransformKeyframeAnimation.FillTurn | lottie/src/main/java/com/airbnb/lottie/animation/keyframe/TransformKeyframeAnimation.java:191-196 | the skew array holds the first skew matrix: cos, sin, -sin, cos and 1 |
| Transform.TransformKeyframeAnimation.FillShear | lottie/src/main/java/com/airbnb/lottie/animation/keyframe/TransformKeyframeAnimation.java:198-203 | the skew array holds the shear matrix: 1, tan, 1 and 1 |
| Transform.TransformKeyframeAnimation.ApplySkew | lottie/src/main/java/com/airbnb/lottie/animation/keyframe/TransformKeyframeAnimation.java:187-216 | the skew stage is the product of the three skew matrices, and the array is left holding the third |
| Transform.TransformKeyframeAnimation.GetMatrix | lottie/src/main/java/com/airbnb/lottie/animation/keyframe/TransformKeyframeAnimation.java:182-233 | the matrix built and returned is the stage composition the specification gives |
| Transform.TransformKeyframeAnimation.GetMatrixForRepeater | lottie/src/main/java/com/airbnb/lottie/animation/keyframe/TransformKeyframeAnimation.java:246-266 | the repeater's matrix is the position times the amount, the scale to the power of the amount, and the rotation times the amount about the anchor point |
| Transform.TransformKeyframeAnimation.ApplyValueCallback | lottie/src/main/java/com/airbnb/lottie/animation/keyframe/TransformKeyframeAnimation.java:274-301 | the callback is handed to the routed component and true returned; a declined property returns false and calls nothing; a missing required component fails |
| Layers.ForModel | lottie/src/main/java/com/airbnb/lottie/model/layer/BaseLayer.java:52-72 | an unknown layer type yields no layer, and every other type yields the layer class built for exactly that type |
| Layers.ForModelOfType | lottie/src/main/java/com/airbnb/lottie/model/layer/BaseLayer.java:52-72 | every layer class is what a model of its own type becomes, so the dispatch misses no class |
| Layers.RemoveFirstCount | lottie/src/main/java/com/airbnb/lottie/model/layer/BaseLayer.java:208-210 | removing an animation takes exactly one occurrence of it out of the list, leaving every other animation's count alone |
| Layers.RemoveAdded | lottie/src/main/java/com/airbnb/lottie/model/layer/BaseLayer.java:201-210 | removing an animation just added (and not added before) restores the earlier list |
| Layers.MatteBlend | lottie/src/main/java/com/airbnb/lottie/model/layer/BaseLayer.java:119-123 | the matte paint cuts out (DST_OUT) exactly for an inverted matte and keeps in (DST_IN) for every other matte type |
| Layers.DriveEach | lottie/src/main/java/com/airbnb/lottie/model/layer/BaseLayer.java:571-573 | driving a list of animations moves each one, in list order, to the given progress, one call per animation |
| Layers.InOutDividedTwice | lottie/src/main/java/com/airbnb/lottie/model/layer/BaseLayer.java:559-565 | the in/out animation receives the progress divided by the time stretch twice: multiplying its value by the stretch twice gives the progress back |
| Layers.InOutZeroStretch | lottie/src/main/java/com/airbnb/lottie/model/layer/BaseLayer.java:559-565 | with a zero time stretch the progress is left undivided once but then divided by zero: the in/out animation receives an infinity, or NaN exactly when the progress is zero |
| Layers.MatteStretchCancels | lottie/src/main/java/com/airbnb/lottie/model/layer/BaseLayer.java:559-570 | a matte layer whose stretch equals this layer's is moved to the unstretched progress, the stretch cancelling out |
| Layers.ComposedFurther | lottie/src/main/java/com/airbnb/lottie/model/layer/BaseLayer.java:240-244 | pre-concatenating the ancestors' matrices from the farthest inward is the same matrix whether the farthest is folded into the parent first or last |
| Layers.AlphaShareRange | lottie/src/main/java/com/airbnb/lottie/model/layer/BaseLayer.java:246-247 | a parent alpha within 0..255 and an opacity within 0..100 give a share of full opacity within 0..1 |
| Layers.LayerAlphaFull | lottie/src/main/java/com/airbnb/lottie/model/layer/BaseLayer.java:246-247 | a layer without an opacity animation, or at 100 percent, under a fully opaque parent draws at alpha 255 |
| Layers.LayerAlphaRange | lottie/src/main/java/com/airbnb/lottie/model/layer/BaseLayer.java:246-247 | the alpha a layer draws its content with stays within 0..255 whenever the parent alpha and the opacity are in range |
| Layers.UnionHoldsAll | lottie/src/main/java/com/airbnb/lottie/model/layer/BaseLayer.java:364-375 | the union of the mask bounds contains the bounds of every mask |
| Layers.MaskUnionSkipped | lottie/src/main/java/com/airbnb/lottie/model/layer/BaseLayer.java:355-362 | as written, a non-inverted ADD mask covering the layer exactly still empties its bounds, where the intended union of mask bounds leaves them whole |
| Layers.WalkConcat | lottie/src/main/java/com/airbnb/lottie/model/layer/BaseLayer.java:231-320 | the save depth after two op sequences is the depth the second reaches from where the first ends |
| Layers.WalkDeeper | lottie/src/main/java/com/airbnb/lottie/model/layer/BaseLayer.java:231-320 | an op sequence that never restores past its start behaves the same one level deeper |
| Layers.BalancedConcat | lottie/src/main/java/com/airbnb/lottie/model/layer/BaseLayer.java:231-320 | two sequences that each restore every save they make still do when joined |
| Layers.BalancedWrap | lottie/src/main/java/com/airbnb/lottie/model/layer/BaseLayer.java:231-320 | a balanced sequence drawn into an offscreen layer (save, ops, restore) is balanced |
| Layers.FlatBalanced | lottie/src/main/java/com/airbnb/lottie/model/layer/BaseLayer.java:476-503 | a sequence with no save and no restore is balanced |
| Layers.MaskOpsBalanced | lottie/src/main/java/com/airbnb/lottie/model/layer/BaseLayer.java:407-446 | whatever its mode and inversion, each mask restores every offscreen layer it saves |
| Layers.EachMaskBalanced | lottie/src/main/java/com/airbnb/lottie/model/layer/BaseLayer.java:448-461 | drawing any number of masks in order leaves the save depth where it started |
| Layers.OffscreenBalanced | lottie/src/main/java/com/airbnb/lottie/model/layer/BaseLayer.java:269-305 | the offscreen path (content, masks, matte) restores every layer it saves |
| Layers.DrawBalanced | lottie/src/main/java/com/airbnb/lottie/model/layer/BaseLayer.java:231-320 | every draw of a layer, visible or not, with or without masks and matte, restores every canvas layer it saves |
| Layers.TrimToMatteKeeps | lottie/src/main/java/com/airbnb/lottie/model/layer/BaseLayer.java:386-402 | the matte trim leaves the bounds whole or empties them; without a matte or with an inverted matte it never changes them; it empties them only when they miss the matte's bounds |
| Layers.MaskTrimCovers | lottie/src/main/java/com/airbnb/lottie/model/layer/BaseLayer.java:334-384 | mask bounds are used for trimming exactly when no mask is NONE, SUBTRACT or inverted, and then they contain every mask's bounds |
| Layers.TrimToMasksKeeps | lottie/src/main/java/com/airbnb/lottie/model/layer/BaseLayer.java:334-384 | the mask trim leaves the bounds whole or empties them, and empties them only when trimming applies and they miss the union of the mask bounds |
| Layers.ProgressCallsSplit | lottie/src/main/java/com/airbnb/lottie/model/layer/BaseLayer.java:551-574 | setting the progress moves each mask animation to the raw progress first, then, after the in/out animation and the matte, every other animation to the progress divided by the time stretch, in list order |
| Layers.ConcatParents | lottie/src/main/java/com/airbnb/lottie/model/layer/BaseLayer.java:240-244 | the matrix built by the loop over the parent list is the parent matrix pre-concatenated with each ancestor's transform from the farthest inward |
| Layers.Parts | lottie/src/main/java/com/airbnb/lottie/animation/keyframe/TransformKeyframeAnimation.java:71-82 | the animations handed to the layer are the transform's components in the given order, one per component |
| Layers.AddAnimationsToLayer | lottie/src/main/java/com/airbnb/lottie/animation/keyframe/TransformKeyframeAnimation.java:71-82 | the layer gains the transform's present components, in the fixed order opacity, start and end opacity, anchor, position, scale, rotation, skew, skew angle; absent ones are skipped |
| Layers.BaseLayer.constructor | lottie/src/main/java/com/airbnb/lottie/model/layer/BaseLayer.java:115-141 | a new layer sets its matte paint by matte type, registers with its transform, listens to every mask and opacity animation, keeps the opacity animations and the in/out animation in its animation list, and starts visible exactly when it has no in/out animation or that one is at 1 |
| Layers.BaseLayer.ListenToAll | lottie/src/main/java/com/airbnb/lottie/model/layer/BaseLayer.java:128-139 | the layer registers as listener of each given animation, in order |
| Layers.BaseLayer.OnValueChanged | lottie/src/main/java/com/airbnb/lottie/model/layer/BaseLayer.java:157-160 | a changed animation value invalidates the drawable, when there is one |
| Layers.BaseLayer.InvalidateSelf | lottie/src/main/java/com/airbnb/lottie/model/layer/BaseLayer.java:195-199 | invalidation reaches the drawable exactly when there is one |
| Layers.BaseLayer.OnInOutValueChanged | lottie/src/main/java/com/airbnb/lottie/model/layer/BaseLayer.java:182-187 | an in/out value change makes the layer visible exactly when the value is 1, and invalidates only when visibility changed |
| Layers.BaseLayer.SetVisible | lottie/src/main/java/com/airbnb/lottie/model/layer/BaseLayer.java:544-549 | the visibility becomes the given value, and the drawable is invalidated only when it changed |
| Layers.BaseLayer.AddAnimation | lottie/src/main/java/com/airbnb/lottie/model/layer/BaseLayer.java:201-206 | a present animation is appended to the list; a missing one leaves it unchanged |
| Layers.BaseLayer.RemoveAnimation | lottie/src/main/java/com/airbnb/lottie/model/layer/BaseLayer.java:208-210 | the first occurrence of the animation leaves the list, and nothing else does |
| Layers.BaseLayer.SetMatteLayer | lottie/src/main/java/com/airbnb/lottie/model/layer/BaseLayer.java:166-168 | the matte layer becomes the given one |
| Layers.BaseLayer.SetParentLayer | lottie/src/main/java/com/airbnb/lottie/model/layer/BaseLayer.java:174-176 | the parent layer becomes the given one |
| Layers.BaseLayer.SetProgress | lottie/src/main/java/com/airbnb/lottie/model/layer/BaseLayer.java:551-574 | the transform gets the raw progress on every present component; masks the raw progress; the in/out animation the progress stretched twice; the matte its stretched progress times its own stretch; every other animation the stretched progress |
| Layers.BaseLayer.DriveStretched | lottie/src/main/java/com/airbnb/lottie/model/layer/BaseLayer.java:562-570 | the in/out animation and the matte receive the once-stretched progress as described above, and nothing else is driven |
| Layers.BaseLayer.DriveAll | lottie/src/main/java/com/airbnb/lottie/model/layer/BaseLayer.java:571-573 | the loop moves every animation of the list to the progress, in order |
| Layers.BaseLayer.BuildParentLayerListIfNeeded | lottie/src/main/java/com/airbnb/lottie/model/layer/BaseLayer.java:576-591 | an existing parent list is kept; otherwise the list becomes the chain of ancestors, nearest first, ending at the layer with no parent |
| Layers.BaseLayer.GetBounds | lottie/src/main/java/com/airbnb/lottie/model/layer/BaseLayer.java:212-229 | the bounds start empty, the parent list is built, and the bounds matrix is the parent matrix (with every ancestor's transform when asked) times the layer's own transform |
| Layers.BaseLayer.AreAllMasksNone | lottie/src/main/java/com/airbnb/lottie/model/layer/BaseLayer.java:463-474 | true exactly when there are masks and every one of them is NONE |
| Layers.BaseLayer.IntersectBoundsWithMatte | lottie/src/main/java/com/airbnb/lottie/model/layer/BaseLayer.java:386-402 | the bounds after the matte trim are those of the matte trim specification |
| Layers.BaseLayer.IntersectBoundsWithMask | lottie/src/main/java/com/airbnb/lottie/model/layer/BaseLayer.java:334-384 | the bounds after the mask loop are trimmed against the union of the mask bounds, as the mask trim specification says (the corrected loop) |
| Layers.BaseLayer.ApplyMasks | lottie/src/main/java/com/airbnb/lottie/model/layer/BaseLayer.java:448-538 | the mask pass draws every mask in order into one DST_IN layer, each by its mode and inversion, the first SUBTRACT mask starting from an opaque black cover |
| Layers.BaseLayer.DrawOffscreen | lottie/src/main/java/com/airbnb/lottie/model/layer/BaseLayer.java:269-305 | the offscreen draw saves over the trimmed bounds, clears a pixel beyond them, draws the content, then the masks, then the matte into its own layer, and restores |
| Layers.BaseLayer.Draw | lottie/src/main/java/com/airbnb/lottie/model/layer/BaseLayer.java:231-320 | a hidden or invisible layer draws nothing; one without matte or masks draws its content under the composed matrix and alpha; otherwise its bounds are trimmed by matte and masks and it draws offscreen only when they are at least a pixel wide and high (the mask trim is the corrected one, see Findings) |
| Layers.BaseLayer.AddValueCallback | lottie/src/main/java/com/airbnb/lottie/model/layer/BaseLayer.java:626-629 | a callback for a transform property reaches exactly the component that property routes to, a property the transform does not handle changes nothing, and one for a required component the transform lacks fails with a null pointer |
| ContentGroups.ConvertedMembers | lottie/src/main/java/com/airbnb/lottie/animation/content/ContentGroup.java:33-43 | a content is in the group's list exactly when some model converts to it; models converting to nothing are dropped, so the list is never longer than the models |
| ContentGroups.ContentsFromModels | lottie/src/main/java/com/airbnb/lottie/animation/content/ContentGroup.java:33-43 | the loop keeps, in model order, exactly the contents the models convert to |
| ContentGroups.FindTransform | lottie/src/main/java/com/airbnb/lottie/animation/content/ContentGroup.java:45-53 | the result is the first transform among the models, and none exactly when there is no transform |
| ContentGroups.FindTransformFrom | lottie/src/main/java/com/airbnb/lottie/animation/content/ContentGroup.java:45-53 | from a given position on, the result is the first transform at or after it, none when there is none |
| ContentGroups.AbsorbAllShrinks | lottie/src/main/java/com/airbnb/lottie/animation/content/ContentGroup.java:92-102 | absorption by the greedy contents only takes contents out of the group's list, never adds or duplicates one |
| ContentGroups.AbsorbAllKeepsNonPaths | lottie/src/main/java/com/airbnb/lottie/animation/content/ContentGroup.java:92-102 | a content that is not a path (a fill, a stroke, a group) is never absorbed and stays in the group |
| ContentGroups.RemainingKeepsNonPaths | lottie/src/main/java/com/airbnb/lottie/animation/content/ContentGroup.java:101 | one greedy content's absorption never takes a content that is not a path |
| ContentGroups.SetContentsCallsEach | lottie/src/main/java/com/airbnb/lottie/animation/content/ContentGroup.java:116-126 | setContents makes one call per child, last child first; each child receives the outer contents followed by the children after it, nearest last, and the children before it |
| ContentGroups.GroupPathWithoutPaths | lottie/src/main/java/com/airbnb/lottie/animation/content/ContentGroup.java:149-167 | a group with no path child has an empty path |
| ContentGroups.GroupPathHolds | lottie/src/main/java/com/airbnb/lottie/animation/content/ContentGroup.java:149-167 | every sub-path of every path child is in the group's path, placed by the group matrix |
| ContentGroups.FusedBoundsHold | lottie/src/main/java/com/airbnb/lottie/animation/content/ContentGroup.java:220-234 | the fused bounds contain the starting bounds and the bounds of every drawing child |
| ContentGroups.TwoDrawingsFrom | lottie/src/main/java/com/airbnb/lottie/animation/content/ContentGroup.java:207-218 | the early-stopping count says yes exactly when the drawings already seen plus those remaining reach two |
| ContentGroups.HasTwoOrMoreDrawableContent | lottie/src/main/java/com/airbnb/lottie/animation/content/ContentGroup.java:207-218 | true exactly when at least two children draw |
| ContentGroups.GroupAlphaFull | lottie/src/main/java/com/airbnb/lottie/animation/content/ContentGroup.java:176-179 | without an opacity animation a group keeps a whole-number parent alpha in 0..255 unchanged |
| ContentGroups.DrawChildrenAreDrawings | lottie/src/main/java/com/airbnb/lottie/animation/content/ContentGroup.java:195-200 | exactly the drawing children are drawn, one call each |
| ContentGroups.DrawChildrenAlpha | lottie/src/main/java/com/airbnb/lottie/animation/content/ContentGroup.java:194-200 | every child draw uses the same child alpha |
| ContentGroups.DrawChildrenNoSave | lottie/src/main/java/com/airbnb/lottie/animation/content/ContentGroup.java:195-200 | drawing the children never opens an offscreen layer itself |
| ContentGroups.GroupDrawOffscreen | lottie/src/main/java/com/airbnb/lottie/animation/content/ContentGroup.java:169-205 | a visible group draws through an offscreen layer exactly when opacity goes to layers, two or more children draw and the alpha is not full; then every child draws at full alpha 255, otherwise at the layer alpha |
| ContentGroups.ContentGroup.constructor | lottie/src/main/java/com/airbnb/lottie/animation/content/ContentGroup.java:79-103 | the group builds its transform exactly when its models hold one, adds that transform's components to the layer and listens to them; then each greedy content, in list order, absorbs from the list, and the group keeps what is left |
| ContentGroups.ContentGroup.SetContents | lottie/src/main/java/com/airbnb/lottie/animation/content/ContentGroup.java:115-126 | the calls made on the children are those of the setContents specification above |
| ContentGroups.ContentGroup.GetPathList | lottie/src/main/java/com/airbnb/lottie/animation/content/ContentGroup.java:128-139 | the first call lists the path children in order and keeps the list; later calls return the kept list |
| ContentGroups.ContentGroup.GetPath | lottie/src/main/java/com/airbnb/lottie/animation/content/ContentGroup.java:149-167 | a hidden group has an empty path; otherwise every path child's path is added, last first, under the transform's matrix or the identity |
| ContentGroups.ContentGroup.GetBounds | lottie/src/main/java/com/airbnb/lottie/animation/content/ContentGroup.java:220-234 | the bounds after the loop are the starting bounds fused with every drawing child's bounds |
| ContentGroups.ContentGroup.Draw | lottie/src/main/java/com/airbnb/lottie/animation/content/ContentGroup.java:169-205 | what one draw issues is the group draw specification: nothing when hidden, the children last first, offscreen as stated above |
| ContentGroups.ContentGroup.OnValueChanged | lottie/src/main/java/com/airbnb/lottie/animation/content/ContentGroup.java:105-108 | a changed transform value invalidates the drawable |
| ContentGroups.ContentGroup.AddValueCallback | lottie/src/main/java/com/airbnb/lottie/animation/content/ContentGroup.java:262-267 | without a transform nothing happens; with one, the callback is routed as the transform routes it and fails exactly when that routing fails |
| ContentGroups.ContentGroup.AbsorbGreedy | lottie/src/main/java/com/airbnb/lottie/animation/content/ContentGroup.java:92-102 | the loop leaves the list the greedy contents absorb to, and each greedy content holds exactly the paths it took from the list as it stood at its turn |
| ContentGroups.ContentGroup.MakeTransform | lottie/src/main/java/com/airbnb/lottie/animation/content/ContentGroup.java:86-90 | a transform is built exactly when the models hold one; its components go to the layer in the fixed order and the group listens to each |
| Contents.Transformed | lottie/src/main/java/com/airbnb/lottie/animation/content/ContentGroup.java:163 | adding a path under a matrix keeps every sub-path, in order, each placed by the matrix after its own |
| Contents.TransformedIdentity | lottie/src/main/java/com/airbnb/lottie/animation/content/ContentGroup.java:145-146 | adding a path under the identity leaves every sub-path where it was |
| Contents.PathsMembers | lottie/src/main/java/com/airbnb/lottie/animation/content/ContentGroup.java:128-139 | filtering the path contents keeps exactly the contents that are paths, and the paths and the rest together account for the whole list |
| Contents.PathsAppend | lottie/src/main/java/com/airbnb/lottie/animation/content/ContentGroup.java:128-139 | listing the path contents of two lists joined is joining their lists |
| Contents.LastIndex | lottielib/src/main/java/com/airbnb/lottie/animation/content/MergePathsContent.java:27 | the position the iterator stops at walking back is the last occurrence of the content, and none exactly when it is absent |
| MergePaths.AbsorbMoves | lottielib/src/main/java/com/airbnb/lottie/animation/content/MergePathsContent.java:24-35 | absorption moves contents between the group's list and the merge content: together they hold exactly what the list held, nothing lost and nothing duplicated |
| MergePaths.AbsorbedArePaths | lottielib/src/main/java/com/airbnb/lottie/animation/content/MergePathsContent.java:24-35 | a content is absorbed exactly when it is a path listed before the merge content's last occurrence; nothing is absorbed when the merge content is absent |
| MergePaths.RemainingShape | lottielib/src/main/java/com/airbnb/lottie/animation/content/MergePathsContent.java:24-35 | after absorption no path content is left before the merge content, and the merge content and everything after it are untouched |
| MergePaths.StepBack | lottielib/src/main/java/com/airbnb/lottie/animation/content/MergePathsContent.java:28-34 | one step back of the iterator either moves a path to the absorbed list or keeps a non-path in place |
| MergePaths.JoinedLength | lottielib/src/main/java/com/airbnb/lottie/animation/content/MergePathsContent.java:65-69 | joining paths of n sub-paths each gives their count times n sub-paths |
| MergePaths.ForwardedEach | lottielib/src/main/java/com/airbnb/lottie/animation/content/MergePathsContent.java:38-42 | setContents is handed on unchanged to each absorbed path, in absorption order, one call each |
| MergePaths.MergePathsContent.constructor | lottielib/src/main/java/com/airbnb/lottie/animation/content/MergePathsContent.java:19-22 | a new merge content has absorbed nothing and made no call |
| MergePaths.MergePathsContent.AbsorbContent | lottielib/src/main/java/com/airbnb/lottie/animation/content/MergePathsContent.java:24-35 | the list left is the remaining list of the absorption specification and the merge content gains exactly the absorbed paths, nearest first |
| MergePaths.MergePathsContent.FindSelf | lottielib/src/main/java/com/airbnb/lottie/animation/content/MergePathsContent.java:27 | the first loop stops at the last occurrence of the merge content, or at the front when it is absent |
| MergePaths.MergePathsContent.SetContents | lottielib/src/main/java/com/airbnb/lottie/animation/content/MergePathsContent.java:37-42 | every absorbed path receives the same before and after lists, in order |
| MergePaths.MergePathsContent.GetPath | lottielib/src/main/java/com/airbnb/lottie/animation/content/MergePathsContent.java:44-69 | a hidden merge content, or one in any mode but MERGE, has an empty path; in MERGE mode the path is the absorbed paths one after another |
| PaintContents.CallbackAnimation.constructor | lottie/src/main/java/com/airbnb/lottie/animation/content/FillContent.java:139-140 | the callback animation holds the callback it was made for |
| PaintContents.ListenToEach | lottielib/src/main/java/com/airbnb/lottie/animation/content/BaseStrokeContent.java:90-98 | subscribing to a list of animations makes one listener call per animation, in list order |
| PaintContents.SwapReplaces | lottie/src/main/java/com/airbnb/lottie/animation/content/FillContent.java:131-144 | when the previous callback animation was the last the layer got, a swap replaces it in place by the new one, or drops it |
| PaintContents.SwapKeepsOne | lottie/src/main/java/com/airbnb/lottie/animation/content/FillContent.java:131-144 | however often a COLOR_FILTER callback is set or cleared, the layer holds at most one callback animation beside its other animations |
| PaintContents.SwapCallbackAnimation | lottie/src/main/java/com/airbnb/lottie/animation/content/FillContent.java:131-144 | the previous callback animation leaves the layer; a null callback leaves none, any other gets a fresh callback animation holding it, which the layer gets last |
| PaintContents.PaintAlpha | lottielib/src/main/java/com/airbnb/lottie/animation/content/BaseStrokeContent.java:149-150 | the paint alpha is always within 0..1, and for an in-range parent alpha and opacity it is the parent's share of 255 times the opacity share of 100 |
| PaintContents.AlphaShareInUnit | lottielib/src/main/java/com/airbnb/lottie/animation/content/BaseStrokeContent.java:149 | for in-range inputs the stroke's alpha expression already lies in 0..1, so the clamp changes nothing |
| PaintContents.CollectPaths | lottie/src/main/java/com/airbnb/lottie/animation/content/FillContent.java:70-78 | setContents appends exactly the path contents of the contents after it, in list order |
| PaintContents.AddedPathsHold | lottie/src/main/java/com/airbnb/lottie/animation/content/FillContent.java:99-102 | every sub-path of every collected path is in the drawn path, placed by the parent matrix |
| PaintContents.AddPaths | lottie/src/main/java/com/airbnb/lottie/animation/content/FillContent.java:99-102 | the loop adds the collected paths in order, each under the parent matrix |
| Fills.FillAlphaAsWritten | lottie/src/main/java/com/airbnb/lottie/animation/content/FillContent.java:92-93 | as written the alpha is truncated to an integer before it is clamped to 0..1, so it stays within 0..1 |
| Fills.FillAlphaAsWrittenIsZeroOrOne | lottie/src/main/java/com/airbnb/lottie/animation/content/FillContent.java:92-93 | as written the fill alpha is only ever fully transparent or fully opaque |
| Fills.FillAlphaHalfOpacity | lottie/src/main/java/com/airbnb/lottie/animation/content/FillContent.java:92-93 | at full parent alpha and 50 percent opacity, the fill as written is invisible where the intended alpha is one half |
| Fills.FillAlpha | lottie/src/main/java/com/airbnb/lottie/animation/content/FillContent.java:92-93 | the intended fill alpha is within 0..1 and, for in-range inputs, the parent's share of 255 times the opacity share of 100, as the stroke computes it |
| Fills.FillAlphaAgreesAtEnds | lottie/src/main/java/com/airbnb/lottie/animation/content/FillContent.java:92-93 | the written and intended alphas agree at full opacity and at zero, which is why the truncation shows only at partial opacity |
| Fills.FillContent.constructor | lottie/src/main/java/com/airbnb/lottie/animation/content/FillContent.java:44-63 | a fill missing its colour or its opacity gets no animations and leaves the layer alone; otherwise it listens to both and the layer gets colour then opacity |
| Fills.FillContent.OnValueChanged | lottie/src/main/java/com/airbnb/lottie/animation/content/FillContent.java:65-68 | a changed value invalidates the drawable |
| Fills.FillContent.SetContents | lottie/src/main/java/com/airbnb/lottie/animation/content/FillContent.java:70-78 | the fill collects exactly the path contents after it, in order |
| Fills.FillContent.Draw | lottie/src/main/java/com/airbnb/lottie/animation/content/FillContent.java:85-107 | a hidden fill draws nothing; one built without colour fails with a null pointer; otherwise the paint takes the colour, the (intended) alpha and the colour filter when set, and the drawn path is every collected path under the parent matrix |
| Fills.FillContent.GetBounds | lottie/src/main/java/com/airbnb/lottie/animation/content/FillContent.java:109-118 | the bounds are those of the collected paths under the parent matrix, grown by one pixel on each side |
| Fills.FillContent.AddValueCallback | lottie/src/main/java/com/airbnb/lottie/animation/content/FillContent.java:125-145 | COLOR and OPACITY callbacks go to their animation, failing with a null pointer when the fill has none; a COLOR_FILTER callback swaps the filter animation on the layer, present exactly when the callback is not null; other properties change nothing |
| Strokes.FirstIndividual | lottielib/src/main/java/com/airbnb/lottie/animation/content/BaseStrokeContent.java:108-115 | the trim path the stroke takes from the contents before it is an individual trim path among them |
| Strokes.FirstIndividualIsFirst | lottielib/src/main/java/com/airbnb/lottie/animation/content/BaseStrokeContent.java:108-115 | the backward scan ends on the individual trim path with the lowest index, and finds none exactly when there is none |
| Strokes.GroupPathsAppend | lottielib/src/main/java/com/airbnb/lottie/animation/content/BaseStrokeContent.java:125-139 | closing a group appends its paths after those of the groups already closed |
| Strokes.ScanPathsAre | lottielib/src/main/java/com/airbnb/lottie/animation/content/BaseStrokeContent.java:120-136 | at every point of the backward scan, the grouped paths are the stroked paths seen so far, last first |
| Strokes.GroupedPaths | lottielib/src/main/java/com/airbnb/lottie/animation/content/BaseStrokeContent.java:120-139 | the path groups hold every path content after the stroke exactly once, from the last to the first |
| Strokes.ScanTrims | lottielib/src/main/java/com/airbnb/lottie/animation/content/BaseStrokeContent.java:120-136 | every group is trimmed by the trim path found before the stroke or by an individual trim path after it |
| Strokes.DashedBounds | lottielib/src/main/java/com/airbnb/lottie/animation/content/BaseStrokeContent.java:278-294 | under a non-negative scale no dash ends up shorter than one scaled unit and no gap shorter than a tenth, and a value above its floor is only scaled |
| Strokes.GroupOpsEach | lottielib/src/main/java/com/airbnb/lottie/animation/content/BaseStrokeContent.java:163-179 | the draw issues one operation per group, in group order; a group goes to the trim-path drawing exactly when it has a trim path, otherwise its paths are stroked last first under the parent matrix |
| Strokes.BaseStrokeContent.constructor | lottielib/src/main/java/com/airbnb/lottie/animation/content/BaseStrokeContent.java:55-99 | the layer gets opacity, width, each dash animation and the offset, in that order; the stroke listens to the same animations in the same order; the dash array has one zero per dash animation |
| Strokes.BaseStrokeContent.OnValueChanged | lottielib/src/main/java/com/airbnb/lottie/animation/content/BaseStrokeContent.java:101-104 | a changed value invalidates the drawable |
| Strokes.BaseStrokeContent.ListenToAll | lottielib/src/main/java/com/airbnb/lottie/animation/content/BaseStrokeContent.java:90-98 | the stroke subscribes to each given animation, in order |
| Strokes.BaseStrokeContent.SetShader | lottie/src/main/java/com/airbnb/lottie/animation/content/GradientStrokeContent.java:73-80 | the paint's shader becomes the given one under the given matrix |
| Strokes.BaseStrokeContent.SetContents | lottielib/src/main/java/com/airbnb/lottie/animation/content/BaseStrokeContent.java:106-140 | the new path groups are those of the backward grouping under the trim path taken from before; the stroke subscribes to that trim path, then to every individual trim path after it, last first |
| Strokes.BaseStrokeContent.ApplyDashPatternIfNeeded | lottielib/src/main/java/com/airbnb/lottie/animation/content/BaseStrokeContent.java:270-298 | with no dash animations nothing changes; otherwise the dash array holds each value raised to its floor and scaled, and the path effect uses it with the scaled offset, or 0 without an offset animation |
| Strokes.BaseStrokeContent.StrokeGroups | lottielib/src/main/java/com/airbnb/lottie/animation/content/BaseStrokeContent.java:163-179 | the loop over the groups issues the operations of the group specification |
| Strokes.BaseStrokeContent.Draw | lottielib/src/main/java/com/airbnb/lottie/animation/content/BaseStrokeContent.java:142-181 | a zero-scale matrix draws nothing and touches nothing; otherwise the paint gets the clamped alpha and the scaled width, and a non-positive width stops there; a positive one applies the dash pattern and colour filter and strokes every group |
| Strokes.BaseStrokeContent.GetBounds | lottielib/src/main/java/com/airbnb/lottie/animation/content/BaseStrokeContent.java:249-268 | the bounds are those of every group's paths in order, grown by half the stroke width plus one pixel on each side, so a non-negative width only grows them |
| Strokes.BaseStrokeContent.AddValueCallback | lottielib/src/main/java/com/airbnb/lottie/animation/content/BaseStrokeContent.java:305-326 | OPACITY and STROKE_WIDTH callbacks go to their animation; a COLOR_FILTER callback swaps the filter animation on the layer, present exactly when the callback is not null; other properties change nothing |
| Strokes.AddAll | lottielib/src/main/java/com/airbnb/lottie/animation/content/BaseStrokeContent.java:81-88 | the layer gains the given animations, in order |
| Strokes.JoinBackward | lottielib/src/main/java/com/airbnb/lottie/animation/content/BaseStrokeContent.java:170-173 | the group's paths are added last first under the parent matrix |
| Gradients.Quantised | lottie/src/main/java/com/airbnb/lottie/animation/content/GradientFillContent.java:200-202 | a progress quantised to the cache steps is a 32-bit integer, as Math.round returns |
| Gradients.GradientHash | lottie/src/main/java/com/airbnb/lottie/animation/content/GradientFillContent.java:199-214 | the hash is a 32-bit integer equal to 17 times 31p for each non-zero quantised progress p, wrapped to 32 bits, and is 17 when all three progresses quantise to 0 |
| Gradients.HashStepIsProduct | lottie/src/main/java/com/airbnb/lottie/animation/content/GradientFillContent.java:205-211 | one step of the hash in wrapping int arithmetic equals the wrapped exact product, so intermediate overflow does not change the result |
| Gradients.WrapMul | lottie/src/main/java/com/airbnb/lottie/animation/content/GradientFillContent.java:205-211 | wrapping an intermediate product before multiplying again gives the same 32-bit result |
| Gradients.WrapShift | lottie/src/main/java/com/airbnb/lottie/animation/content/GradientFillContent.java:205-211 | adding a multiple of 2^32 does not change a wrapped value |
| Gradients.DynamicColorsAsWritten | lottie/src/main/java/com/airbnb/lottie/animation/content/GradientFillContent.java:216-232 | as written the colour array has one entry per gradient colour, whatever the callback reports |
| Gradients.DynamicColorsLost | lottie/src/main/java/com/airbnb/lottie/animation/content/GradientFillContent.java:216-232 | as written, without a GRADIENT_COLOR callback every colour is left null, and a callback reporting more colours than the gradient has overruns the array |
| Gradients.DynamicColors | lottie/src/main/java/com/airbnb/lottie/animation/content/GradientFillContent.java:216-232 | the intended colours: the gradient's own without a callback, the callback's colours in order with one, never a null entry |
| Gradients.DynamicColorsAgree | lottie/src/main/java/com/airbnb/lottie/animation/content/GradientFillContent.java:220-223 | when the callback reports as many colours as the gradient has, the written and the intended colours agree |
| Gradients.FillRadius | lottie/src/main/java/com/airbnb/lottie/animation/content/GradientFillContent.java:190-193 | the fill's radial radius is always positive, and equals the distance between the points whenever that is positive |
| Gradients.GradientAlpha | lottie/src/main/java/com/airbnb/lottie/animation/content/GradientFillContent.java:129-130 | the gradient fill's paint alpha is always within 0..255, and 255 at full parent alpha and full opacity |
| Gradients.ShaderCache.constructor | lottie/src/main/java/com/airbnb/lottie/animation/content/GradientFillContent.java:42-43 | a new shader cache is empty |
| Gradients.ShaderCache.Get | lottie/src/main/java/com/airbnb/lottie/animation/content/GradientFillContent.java:153-172 | a hit returns the cached shader and leaves the cache unchanged; a miss returns the built shader and stores it under the hash |
| Gradients.ShaderCache.Clear | lottie/src/main/java/com/airbnb/lottie/animation/content/GradientFillContent.java:264-265 | clearing leaves the cache empty |
| Gradients.CacheStable | lottie/src/main/java/com/airbnb/lottie/animation/content/GradientFillContent.java:153-172 | once a lookup has stored a shader, a later lookup under the same hash returns it, whatever it would build |
| Gradients.GradientFillContent.constructor | lottie/src/main/java/com/airbnb/lottie/animation/content/GradientFillContent.java:59-83 | the fill computes its cache steps from the duration, listens to colour, opacity, start and end point, and the layer gets them in that order; both caches start empty |
| Gradients.GradientFillContent.OnValueChanged | lottie/src/main/java/com/airbnb/lottie/animation/content/GradientFillContent.java:85-88 | a changed value invalidates the drawable |
| Gradients.GradientFillContent.SetContents | lottie/src/main/java/com/airbnb/lottie/animation/content/GradientFillContent.java:90-98 | the fill collects exactly the path contents after it, in order |
| Gradients.GradientFillContent.GetLinearShader | lottie/src/main/java/com/airbnb/lottie/animation/content/GradientFillContent.java:153-172 | the linear shader comes from the linear cache under the frame's hash, built from the two points and the intended colours on a miss |
| Gradients.GradientFillContent.GetRadialShader | lottie/src/main/java/com/airbnb/lottie/animation/content/GradientFillContent.java:174-197 | the radial shader comes from the radial cache under the frame's hash, built around the start point with the floored radius on a miss |
| Gradients.GradientFillContent.Draw | lottie/src/main/java/com/airbnb/lottie/animation/content/GradientFillContent.java:100-134 | a hidden fill draws nothing and touches no cache; otherwise the path is every collected path under the parent matrix, the paint gets the shader of its type (only that cache is consulted), the colour filter when set, and the clamped alpha |
| Gradients.GradientFillContent.GetBounds | lottie/src/main/java/com/airbnb/lottie/animation/content/GradientFillContent.java:136-146 | the bounds are those of the collected paths joined without a matrix, grown by one pixel on each side |
| Gradients.GradientFillContent.AddValueCallback | lottie/src/main/java/com/airbnb/lottie/animation/content/GradientFillContent.java:239-271 | OPACITY goes to its animation; COLOR_FILTER and GRADIENT_COLOR swap their callback animation on the layer, present exactly when the callback is not null; a non-null GRADIENT_COLOR callback empties both shader caches, and nothing else touches them |
| Gradients.GradientStrokeContent.constructor | lottie/src/main/java/com/airbnb/lottie/animation/content/GradientStrokeContent.java:41-62 | the stroke's own animations go to the layer first, then colour, start and end point; it listens to them in the same order; both caches start empty |
| Gradients.GradientStrokeContent.GetLinearShader | lottie/src/main/java/com/airbnb/lottie/animation/content/GradientStrokeContent.java:90-107 | the linear shader comes from the linear cache under the frame's hash, built on a miss |
| Gradients.GradientStrokeContent.GetRadialShader | lottie/src/main/java/com/airbnb/lottie/animation/content/GradientStrokeContent.java:110-130 | the radial shader comes from the radial cache under the frame's hash, built with the unfloored distance as radius on a miss |
| Gradients.GradientStrokeContent.Draw | lottie/src/main/java/com/airbnb/lottie/animation/content/GradientStrokeContent.java:64-82 | a hidden stroke draws nothing; otherwise the paint gets the shader of its type under the parent matrix, then the stroke draws as a plain stroke does |
| Gradients.GradientStrokeContent.AddValueCallback | lottie/src/main/java/com/airbnb/lottie/animation/content/GradientStrokeContent.java:167-183 | the plain stroke's callbacks apply first; a GRADIENT_COLOR callback then swaps the colour callback animation, present exactly when the callback is not null, without clearing the shader caches |
| Composition.FindMarker | lottie/src/main/java/com/airbnb/lottie/LottieComposition.java:182-191 | the result is the index of the first marker matching the name, and none exactly when no marker matches |
| Composition.FindMarkerFirst | lottie/src/main/java/com/airbnb/lottie/LottieComposition.java:182-191 | a matching marker with no match before it is the one found |
| Composition.LottieComposition.constructor | lottie/src/main/java/com/airbnb/lottie/LottieComposition.java:74-89 | init stores every argument as given; the mask-and-matte count starts at 0 and the dash-pattern flag false |
| Composition.LottieComposition.DurationFrames | lottie/src/main/java/com/airbnb/lottie/LottieComposition.java:201-203 | the length in frames is what takes the start frame to the end frame |
| Composition.LottieComposition.Duration | lottie/src/main/java/com/airbnb/lottie/LottieComposition.java:144-146 | the duration is the frames over the rate in milliseconds, truncated and saturated to a long; non-negative for a forward animation at a positive rate; a zero rate gives the long range's end on the side of the frame count, or 0 for an empty animation |
| Composition.LottieComposition.LayerModelForId | lottie/src/main/java/com/airbnb/lottie/LottieComposition.java:131-138 | a layer is found exactly when its id is registered, and it is the registered one |
| Composition.LottieComposition.HasImages | lottie/src/main/java/com/airbnb/lottie/LottieComposition.java:193-195 | the composition has images exactly when the image map is not empty |
| Composition.LottieComposition.Warnings | lottie/src/main/java/com/airbnb/lottie/LottieComposition.java:119-121 | the warning list is always empty, since adding a warning only logs it |
| Composition.LottieComposition.AddWarning | lottie/src/main/java/com/airbnb/lottie/LottieComposition.java:91-93 | adding a warning leaves the warning list empty |
| Composition.LottieComposition.IncrementMatteOrMaskCount | lottie/src/main/java/com/airbnb/lottie/LottieComposition.java:99-101 | the count grows by exactly the given amount |
| Composition.LottieComposition.SetHasDashPattern | lottie/src/main/java/com/airbnb/lottie/LottieComposition.java:95-97 | the dash-pattern flag becomes the given value |
| Composition.LottieComposition.GetMarker | lottie/src/main/java/com/airbnb/lottie/LottieComposition.java:182-191 | a marker is returned exactly when one matches the name; it matches, it is one of the composition's markers, and it is the first that matches |
| Drawables.Deliveries | lottie/src/main/java/com/airbnb/lottie/LottieDrawable.java:1034-1064 | the composition key path reaches the composition layer, a resolved path its one element, and a pattern exactly the elements it resolves to, each in order with the same property and callback |
| Drawables.TaskCalls | lottie/src/main/java/com/airbnb/lottie/LottieDrawable.java:429-869 | a request made with a composition fails exactly when it names a marker the composition lacks, and then with IllegalArgumentException |
| Drawables.MarkerCalls | lottie/src/main/java/com/airbnb/lottie/LottieDrawable.java:569-667 | a marker request throws IllegalArgumentException exactly when one of the markers it names is missing |
| Drawables.Started | lottie/src/main/java/com/airbnb/lottie/LottieDrawable.java:429-482 | with animations enabled play and resume only start the animator; with them disabled the last two calls jump to the end of the playback direction and end playback |
| Drawables.StartedStarts | lottie/src/main/java/com/airbnb/lottie/LottieDrawable.java:429-482 | the animator is started exactly when animations are enabled or the animation does not repeat |
| Drawables.Results | lottie/src/main/java/com/airbnb/lottie/LottieDrawable.java:206-216 | the queue's replay has one outcome per queued task |
| Drawables.ResultsAt | lottie/src/main/java/com/airbnb/lottie/LottieDrawable.java:206-216 | the k-th outcome is what the k-th queued task does on the new composition, with no view notification since the drawable is already dirty |
| Drawables.ResultsAppend | lottie/src/main/java/com/airbnb/lottie/LottieDrawable.java:206-216 | replaying two queues one after the other gives the outcomes of each in turn |
| Drawables.RunFailureSticks | lottie/src/main/java/com/airbnb/lottie/LottieDrawable.java:206-216 | once a queued task has thrown, the tasks after it contribute nothing |
| Drawables.RunStep | lottie/src/main/java/com/airbnb/lottie/LottieDrawable.java:206-216 | running one more task either stops the replay with its error or appends its calls |
| Drawables.RunSplit | lottie/src/main/java/com/airbnb/lottie/LottieDrawable.java:206-216 | a prefix that runs without error contributes its calls, and the rest then decides the outcome |
| Drawables.RunWithoutErrors | lottie/src/main/java/com/airbnb/lottie/LottieDrawable.java:206-216 | a replay in which no task fails does not fail |
| Drawables.ReplaySplit | lottie/src/main/java/com/airbnb/lottie/LottieDrawable.java:206-216 | replaying a queue in two parts, the first without error, makes the calls of both parts in order |
| Drawables.ReplayWithoutMarkers | lottie/src/main/java/com/airbnb/lottie/LottieDrawable.java:206-216 | a queue that holds no marker request never fails on any composition |
| Drawables.MarkerRangeEnd | lottie/src/main/java/com/airbnb/lottie/LottieDrawable.java:642-667 | the range between two markers runs from the first marker's start to the second's start, one frame further when playEnd, with the maximum's slack of 0.99 |
| Drawables.DeliveriesTo | lottie/src/main/java/com/airbnb/lottie/LottieDrawable.java:1034-1064 | the loop delivers the callback to every element in the order the pattern resolves, and delivers something exactly when the drawable will invalidate |
| Drawables.LottieDrawable.constructor | lottie/src/main/java/com/airbnb/lottie/LottieDrawable.java:61-139 | a new drawable has no composition, an empty queue, is clean, has alpha 255 and scale 3, and has system animations enabled and not ignored |
| Drawables.LottieDrawable.InvalidateSelf | lottie/src/main/java/com/airbnb/lottie/LottieDrawable.java:346-356 | the drawable becomes dirty, and the view is asked to redraw only when the drawable was clean and is shown |
| Drawables.LottieDrawable.DrawToCanvas | lottie/src/main/java/com/airbnb/lottie/LottieDrawable.java:378-393 | drawing leaves the drawable clean |
| Drawables.LottieDrawable.SetCallback | lottie/src/main/java/com/airbnb/lottie/LottieDrawable.java:259-262 | the drawable is shown exactly when a view is attached |
| Drawables.LottieDrawable.SetAlpha | lottie/src/main/java/com/airbnb/lottie/LottieDrawable.java:358-362 | the alpha is stored and the drawable invalidates itself |
| Drawables.LottieDrawable.SetScale | lottie/src/main/java/com/airbnb/lottie/LottieDrawable.java:925-927 | the scale is stored |
| Drawables.LottieDrawable.SetSystemAnimationsAreEnabled | lottie/src/main/java/com/airbnb/lottie/LottieDrawable.java:897-899 | the system setting is stored |
| Drawables.LottieDrawable.SetIgnoreDisabledSystemAnimations | lottie/src/main/java/com/airbnb/lottie/LottieDrawable.java:909-911 | the override is stored |
| Drawables.LottieDrawable.IntrinsicWidth | lottie/src/main/java/com/airbnb/lottie/LottieDrawable.java:996-998 | -1 without a composition; otherwise the composition's bounds width times the scale, cast to int |
| Drawables.LottieDrawable.IntrinsicHeight | lottie/src/main/java/com/airbnb/lottie/LottieDrawable.java:1000-1002 | -1 without a composition; otherwise the composition's bounds height times the scale, cast to int |
| Drawables.LottieDrawable.ClearComposition | lottie/src/main/java/com/airbnb/lottie/LottieDrawable.java:322-331 | the composition is dropped and the drawable invalidates; a running animator is cancelled before the animator clears its composition |
| Drawables.LottieDrawable.Perform | lottie/src/main/java/com/airbnb/lottie/LottieDrawable.java:429-1077 | with a composition, a request makes exactly the calls its specification gives, or throws IllegalArgumentException having made none; only a callback that reaches something dirties the drawable |
| Drawables.LottieDrawable.PerformStart | lottie/src/main/java/com/airbnb/lottie/LottieDrawable.java:429-482 | play and resume with a composition never fail and make the calls of their specification |
| Drawables.LottieDrawable.PerformBounds | lottie/src/main/java/com/airbnb/lottie/LottieDrawable.java:484-826 | a frame, progress or bounds request with a composition never fails and makes its one animator call |
| Drawables.LottieDrawable.PerformMarker | lottie/src/main/java/com/airbnb/lottie/LottieDrawable.java:569-630 | a marker request makes its animator call, or throws IllegalArgumentException with no call made when a marker is missing |
| Drawables.LottieDrawable.PerformCallback | lottie/src/main/java/com/airbnb/lottie/LottieDrawable.java:1034-1077 | the callback is delivered to every target, then the drawable invalidates when any was reached, and a TIME_REMAP callback re-applies the progress |
| Drawables.LottieDrawable.Submit | lottie/src/main/java/com/airbnb/lottie/LottieDrawable.java:429-1077 | without a composition a request is queued and nothing else happens; with one it runs at once and the queue is untouched |
| Drawables.LottieDrawable.PerformQueued | lottie/src/main/java/com/airbnb/lottie/LottieDrawable.java:206-216 | a replayed request makes its calls or fails with none made, and the drawable stays dirty |
| Drawables.LottieDrawable.RunQueued | lottie/src/main/java/com/airbnb/lottie/LottieDrawable.java:206-216 | after the i-th queued task the calls and the failure flag are those of replaying the first i + 1 tasks |
| Drawables.LottieDrawable.RunTasks | lottie/src/main/java/com/airbnb/lottie/LottieDrawable.java:206-216 | the queue runs in order until a task throws, making exactly the calls of its replay |
| Drawables.LottieDrawable.SetComposition | lottie/src/main/java/com/airbnb/lottie/LottieDrawable.java:193-229 | the same composition again returns false and changes nothing; a new one clears the old, is adopted, replays the queue and returns true with the queue emptied, or ends with the throwing task's error and the queue kept |
| Drawables.LottieDrawable.EndAnimation | lottie/src/main/java/com/airbnb/lottie/LottieDrawable.java:450-453 | the queue is dropped and the animator ends |
| Drawables.LottieDrawable.PauseAnimation | lottie/src/main/java/com/airbnb/lottie/LottieDrawable.java:986-989 | the queue is dropped and the animator pauses |
| Drawables.LottieDrawable.CancelAnimation | lottie/src/main/java/com/airbnb/lottie/LottieDrawable.java:981-984 | the queue is dropped and the animator cancels |
| Drawables.LottieDrawable.SetSpeed | lottie/src/main/java/com/airbnb/lottie/LottieDrawable.java:727-729 | the speed is passed to the animator |
| Drawables.LottieDrawable.ReverseAnimationSpeed | lottie/src/main/java/com/airbnb/lottie/LottieDrawable.java:719-721 | the animator's speed is reversed |
| Drawables.LottieDrawable.SetRepeatCount | lottie/src/main/java/com/airbnb/lottie/LottieDrawable.java:867-869 | the repeat count is passed to the animator |
| Drawables.QueuedRunsLikeDirect | lottie/src/main/java/com/airbnb/lottie/LottieDrawable.java:193-216 | a request queued before the composition arrives fails, or makes its calls, exactly as it would if made afterwards |
| ShapeParsers.OpenCurves | lottie/src/main/java/com/airbnb/lottie/parser/ShapeDataParser.java:75-83 | the curves joining the first n vertices number one fewer than the vertices (none for no vertices) |
| ShapeParsers.ShapeOf | lottie/src/main/java/com/airbnb/lottie/parser/ShapeDataParser.java:62-96 | missing vertex or tangent lists are an IllegalArgumentException; no vertices give an open empty shape at the origin whatever the closed flag says; otherwise the shape starts at the first vertex, keeps the closed flag, and has a curve per vertex after the first plus one more when closed |
| ShapeParsers.OpenCurveAt | lottie/src/main/java/com/airbnb/lottie/parser/ShapeDataParser.java:75-83 | curve j runs from vertex j, leaving by its out tangent, to vertex j + 1, arriving by that vertex's in tangent |
| ShapeParsers.ShapeCurves | lottie/src/main/java/com/airbnb/lottie/parser/ShapeDataParser.java:75-95 | each curve of a parsed shape joins consecutive vertices by their tangents, and the extra curve of a closed shape joins the last vertex back to the first |
| ShapeParsers.ClosedShapeReturns | lottie/src/main/java/com/airbnb/lottie/parser/ShapeDataParser.java:85-96 | the last curve of a closed shape ends at the shape's initial point |
| ShapeParsers.Parse | lottie/src/main/java/com/airbnb/lottie/parser/ShapeDataParser.java:23-97 | the parser's loop builds exactly the shape the fields describe, failing with the same error when a list is missing or a tangent list is too short |
| KeyframeParsers.CurvePoints | lottie/src/main/java/com/airbnb/lottie/parser/KeyframeParser.java:151-258 | the list always has three entries; a per-axis object fills exactly the two axis-curve points, any other value exactly the third |
| KeyframeParsers.AxisEntriesSpread | lottie/src/main/java/com/airbnb/lottie/parser/KeyframeParser.java:166-195 | a number entry gives both axis curves the same coordinate, a pair gives each curve its own, and a missing entry leaves 0 for both |
| KeyframeParsers.OFieldFailsAsWritten | lottie/src/main/java/com/airbnb/lottie/parser/KeyframeParser.java:297-300 | reading element 3 of the three-element list fails with IndexOutOfBoundsException for every `o` value |
| KeyframeParsers.ControlPointsOf | lottie/src/main/java/com/airbnb/lottie/parser/KeyframeParser.java:297-307 | an absent field gives no control points; a plain value gives only the scaled point; a per-axis object gives only the two axis points |
| KeyframeParsers.ClampControl | lottie/src/main/java/com/airbnb/lottie/parser/KeyframeParser.java:348-353 | x is clamped into [-1, 1] and y into [-100, 100], and points already inside are unchanged |
| KeyframeParsers.ClampedPointsShareKey | lottie/src/main/java/com/airbnb/lottie/parser/KeyframeParser.java:348-354 | control points that agree once clamped share a cache key |
| KeyframeParsers.Lookup | lottie/src/main/java/com/airbnb/lottie/parser/KeyframeParser.java:355-369 | after a lookup the key holds a live curve, which is the one returned; no other key changes; at most one curve is made |
| KeyframeParsers.LookupReuses | lottie/src/main/java/com/airbnb/lottie/parser/KeyframeParser.java:355-358 | a live cached curve is returned and the cache is left as it was |
| KeyframeParsers.LookupAgain | lottie/src/main/java/com/airbnb/lottie/parser/KeyframeParser.java:355-369 | a second lookup of the same key, with nothing collected in between, returns the same curve and changes nothing |
| KeyframeParsers.LookupKeepsValid | lottie/src/main/java/com/airbnb/lottie/parser/KeyframeParser.java:355-369 | every cached curve stays one made before and never the linear one, and a newly made curve differs from every curve cached before |
| KeyframeParsers.KeyframeParser.constructor | lottie/src/main/java/com/airbnb/lottie/parser/KeyframeParser.java:26-42 | the cache starts empty, with only the linear curve made |
| KeyframeParsers.KeyframeParser.NewCurve | lottie/src/main/java/com/airbnb/lottie/parser/KeyframeParser.java:137 | a held keyframe's curve is new: not the linear one and not any cached one |
| KeyframeParsers.KeyframeParser.Collect | lottie/src/main/java/com/airbnb/lottie/parser/KeyframeParser.java:28 | clearing a weak reference leaves that key without a live curve and the cache valid |
| KeyframeParsers.KeyframeParser.InterpolatorFor | lottie/src/main/java/com/airbnb/lottie/parser/KeyframeParser.java:348-370 | the curve and the cache after are those of a lookup by the hash of the clamped control points |
| KeyframeParsers.KeyframeParser.ParseKeyframe | lottie/src/main/java/com/airbnb/lottie/parser/KeyframeParser.java:87-149 | a held keyframe ends on its start value with a new curve; otherwise it ends on `e`, with the cached curve of both control points when both are present and the linear curve otherwise; the path tangents are scaled |
| KeyframeParsers.KeyframeParser.ParseMultiDimensionalKeyframe | lottie/src/main/java/com/airbnb/lottie/parser/KeyframeParser.java:260-346 | a held keyframe ends on its start value and is linear; two plain control points give one cached curve; two per-axis objects give separate x and y curves, x looked up first; anything else is linear (corrected `o` read, see Findings; the code as written throws IndexOutOfBoundsException on an `o` field) |
| KeyframeParsers.KeyframeParser.ParseStaticValue | lottie/src/main/java/com/airbnb/lottie/parser/KeyframeParser.java:372-376 | a static keyframe holds the value at both ends with no curve and covers progress 0 to 1 |
| KeyframeParsers.KeyframeParser.Parse | lottie/src/main/java/com/airbnb/lottie/parser/KeyframeParser.java:66-75 | an animated multi-dimensional value has axis curves exactly when it is not held and both control points are per-axis; an animated plain value never has axis curves; a non-animated value is static and leaves the cache untouched (the multi-dimensional branch uses the corrected `o` read, see Findings) |
| Utils.IsAtLeastVersionIsLex | lottie/src/main/java/com/airbnb/lottie/utils/Utils.java:215-229 | the version check is the lexicographic order on (major, minor, patch) |
| Utils.VersionsComparable | lottie/src/main/java/com/airbnb/lottie/utils/Utils.java:215-229 | of two versions one is always at least the other, and each is at least the other only when they are equal |
| Utils.Alpha | lottie/src/main/java/com/airbnb/lottie/utils/Utils.java:337-339 | the unsigned top byte of the colour, in 0..255 |
| Utils.Red | lottie/src/main/java/com/airbnb/lottie/utils/Utils.java:348-350 | the colour's second byte, in 0..255 |
| Utils.Green | lottie/src/main/java/com/airbnb/lottie/utils/Utils.java:359-361 | the colour's third byte, in 0..255 |
| Utils.Blue | lottie/src/main/java/com/airbnb/lottie/utils/Utils.java:370-372 | the colour's low byte, in 0..255 |
| Utils.ChannelsRebuildColor | lottie/src/main/java/com/airbnb/lottie/utils/Utils.java:337-372 | packing the four channels of any 32-bit colour again gives the colour back |
| Utils.ArgbChannels | lottie/src/main/java/com/airbnb/lottie/utils/Utils.java:337-372 | the channels of a colour packed from four bytes are those bytes |
| Utils.Mix | lottie/src/main/java/com/airbnb/lottie/utils/Utils.java:231-245 | each step of the hash gives a 32-bit int |
| Utils.HashOf | lottie/src/main/java/com/airbnb/lottie/utils/Utils.java:231-245 | the hash of any four floats is a 32-bit int |
| Utils.NonZero | lottie/src/main/java/com/airbnb/lottie/utils/Utils.java:231-245 | the values the hash mixes in are the non-zero ones, in order |
| Utils.HashSkipsZeros | lottie/src/main/java/com/airbnb/lottie/utils/Utils.java:231-245 | zero arguments leave the hash alone: it is the hash of the non-zero arguments only |
| Utils.ZeroHash | lottie/src/main/java/com/airbnb/lottie/utils/Utils.java:231-245 | all-zero arguments hash to the seed 17 |
| Utils.HashFor | lottie/src/main/java/com/airbnb/lottie/utils/Utils.java:231-245 | the step-by-step hash equals the hash of the four values from the seed 17 |
| Utils.NormalisedOnPath | lottie/src/main/java/com/airbnb/lottie/utils/Utils.java:157-177 | after normalising, the start lies on the path and the end is not negative, each moved from the ordered, offset end by whole path lengths |
| Utils.TrimUntouchedIff | lottie/src/main/java/com/airbnb/lottie/utils/Utils.java:149-156 | the path is left alone exactly for the window [1, 0], a path shorter than 1, or a window within 0.01 of the whole path |
| Utils.TrimEqualEndsEmpties | lottie/src/main/java/com/airbnb/lottie/utils/Utils.java:179-184 | a window of zero width on a path of length at least 1 empties the path |
| Utils.TrimWindowOnPath | lottie/src/main/java/com/airbnb/lottie/utils/Utils.java:186-202 | a kept window starts before the path's end and ends after it starts; when it runs past the end the rest is taken from 0, when it starts below 0 the rest runs up to the length, never both; otherwise there is no rest |
| Utils.TrimWindowWidth | lottie/src/main/java/com/airbnb/lottie/utils/Utils.java:157-188 | the kept window's width differs from the requested width by whole path lengths |
| Utils.TrimWindow | lottie/src/main/java/com/airbnb/lottie/utils/Utils.java:135-203 | the step-by-step window arithmetic gives the trim of the path by the requested window |
| Utils.ApplyTrimPathIfNeeded | lottie/src/main/java/com/airbnb/lottie/utils/Utils.java:125-133 | a missing or hidden trim leaves the path alone; otherwise the window is start and end as fractions of 100 and the offset as a fraction of 360 |
| Utils.TrimPercentages | lottie/src/main/java/com/airbnb/lottie/utils/Utils.java:125-156 | a visible trim from 0 to 100 leaves the path whole, and equal start and end empty a path of length at least 1 |
| CompositionFactory.CacheStep | lottie/src/main/java/com/airbnb/lottie/LottieCompositionFactory.java:623-659 | a key in the memory cache gets a new task that hands back the cached composition; a key with a running task gets that same task and nothing changes; otherwise a new task runs the loader and, under a key, is registered under it |
| CompositionFactory.Finish | lottie/src/main/java/com/airbnb/lottie/LottieCompositionFactory.java:642-655 | a finishing task's listeners only remove a key from the task map |
| CompositionFactory.CacheCoalesces | lottie/src/main/java/com/airbnb/lottie/LottieCompositionFactory.java:636-637 | two requests for the same uncached key, the first still running, get one task and register once |
| CompositionFactory.CacheMakesFreshTasks | lottie/src/main/java/com/airbnb/lottie/LottieCompositionFactory.java:628-640 | every task that is not a running one handed back has an identity no registered task has |
| CompositionFactory.CacheKeepsConsistent | lottie/src/main/java/com/airbnb/lottie/LottieCompositionFactory.java:623-659 | after a request every registered task is listened to for exactly its own key |
| CompositionFactory.FinishRemovesOwnKey | lottie/src/main/java/com/airbnb/lottie/LottieCompositionFactory.java:642-655 | a registered task that finishes removes exactly its own key |
| CompositionFactory.FinishedKeyLoadsAnew | lottie/src/main/java/com/airbnb/lottie/LottieCompositionFactory.java:636-656 | once the task under a key has finished, the next uncached request for the key starts a new load |
| CompositionFactory.DecimalNat | lottie/src/main/java/com/airbnb/lottie/LottieCompositionFactory.java:332-334 | a number is written as one or more decimal digits, a single digit exactly below 10 |
| CompositionFactory.DecimalNatInjective | lottie/src/main/java/com/airbnb/lottie/LottieCompositionFactory.java:332-334 | different non-negative numbers are written differently |
| CompositionFactory.DecimalInjective | lottie/src/main/java/com/airbnb/lottie/LottieCompositionFactory.java:332-334 | different resource ids are written differently |
| CompositionFactory.SignFirst | lottie/src/main/java/com/airbnb/lottie/LottieCompositionFactory.java:332-334 | a resource id is written with a leading minus exactly when it is negative |
| CompositionFactory.DefaultKeysDistinct | lottie/src/main/java/com/airbnb/lottie/LottieCompositionFactory.java:84-334 | the default keys of URL, asset and resource loads never coincide across kinds, and within a kind they coincide only for the same source |
| CompositionFactory.UrlKeysDiffer | lottie/src/main/java/com/airbnb/lottie/LottieCompositionFactory.java:84-126 | the task-based URL load and the blocking one key the same URL differently |
| CompositionFactory.AssetRouteAgreesWithCache | lottie/src/main/java/com/airbnb/lottie/LottieCompositionFactory.java:230-234 | every name the network cache reads as a zip archive is read as one from assets too |
| CompositionFactory.LottieNameZipFromAssetsOnly | lottie/src/main/java/com/airbnb/lottie/LottieCompositionFactory.java:230-234 | a ".lottie" name is read as a zip archive from assets, while the network cache takes it for JSON |
| CompositionFactory.ZipMagicIsHeader | lottie/src/main/java/com/airbnb/lottie/LottieCompositionFactory.java:52 | only the first four bytes decide the zip signature, and a stream shorter than four bytes never has it |
| CompositionFactory.IsZipCompressed | lottie/src/main/java/com/airbnb/lottie/LottieCompositionFactory.java:588-603 | the byte-by-byte check says zip exactly when the stream starts with the four signature bytes, running out of bytes reading as not zip |
| CompositionFactory.LastTrue | lottie/src/main/java/com/airbnb/lottie/LottieCompositionFactory.java:539-558 | the last position holding true: it holds true and every later position is false |
| CompositionFactory.AnimationFlags | lottie/src/main/java/com/airbnb/lottie/LottieCompositionFactory.java:545-547 | one animation flag per entry |
| CompositionFactory.AnimationFlagAt | lottie/src/main/java/com/airbnb/lottie/LottieCompositionFactory.java:541-547 | an entry is flagged exactly when it is read as an animation |
| CompositionFactory.LastAnimationWins | lottie/src/main/java/com/airbnb/lottie/LottieCompositionFactory.java:539-558 | the composition found is the last animation entry's parse, a failed one included, or none when there is no animation entry |
| CompositionFactory.ImageFlags | lottie/src/main/java/com/airbnb/lottie/LottieCompositionFactory.java:548-552 | one image flag per entry |
| CompositionFactory.ImageFlagAt | lottie/src/main/java/com/airbnb/lottie/LottieCompositionFactory.java:548-552 | an entry is flagged exactly when it is an image whose last path segment is the name |
| CompositionFactory.ImagesByLastSegment | lottie/src/main/java/com/airbnb/lottie/LottieCompositionFactory.java:548-552 | a file name has an image exactly when some image entry ends in it, and the last such entry's decoding is kept |
| CompositionFactory.SkippedEntryIgnored | lottie/src/main/java/com/airbnb/lottie/LottieCompositionFactory.java:541-555 | `__MACOSX` entries, the manifest and unknown entries change nothing |
| CompositionFactory.FirstWithName | lottie/src/main/java/com/airbnb/lottie/LottieCompositionFactory.java:605-612 | the first asset with the file name: it has the name and no earlier asset does |
| CompositionFactory.LottieCompositionFactory.constructor | lottie/src/main/java/com/airbnb/lottie/LottieCompositionFactory.java:46 | the factory starts with no tasks and nothing cached |
| CompositionFactory.LottieCompositionFactory.Cache | lottie/src/main/java/com/airbnb/lottie/LottieCompositionFactory.java:623-659 | one request changes the task map and hands back the task exactly as the cache step does |
| CompositionFactory.LottieCompositionFactory.TaskFinished | lottie/src/main/java/com/airbnb/lottie/LottieCompositionFactory.java:642-655 | a finished task's listeners take its key out of the task map and change nothing else |
| CompositionFactory.LottieCompositionFactory.Put | lottie/src/main/java/com/airbnb/lottie/LottieCompositionFactory.java:472-474 | a load under a key stores its composition under the key; a load without one stores nothing |
| CompositionFactory.LottieCompositionFactory.ClearCache | lottie/src/main/java/com/airbnb/lottie/LottieCompositionFactory.java:67-71 | the task map and the memory cache are emptied, and the network cache loses its directory and every file in it |
| CompositionFactory.LottieCompositionFactory.FromZipStream | lottie/src/main/java/com/airbnb/lottie/LottieCompositionFactory.java:532-581 | a broken stream is an IOException and no composition an IllegalArgumentException; each asset named by an image gets it; the result is the composition exactly when every asset has a pixel map, an IllegalStateException otherwise; only a success is cached under the key |
| CompositionFactory.LottieCompositionFactory.Attach | lottie/src/main/java/com/airbnb/lottie/LottieCompositionFactory.java:563-580 | each image goes to the first asset named after it, any asset without a pixel map makes an IllegalStateException with nothing cached, and otherwise the composition is cached under the key |
| CompositionFactory.ScanEntries | lottie/src/main/java/com/airbnb/lottie/LottieCompositionFactory.java:537-558 | the entry loop gathers exactly the last composition and the images by last path segment |
| CompositionFactory.FindAsset | lottie/src/main/java/com/airbnb/lottie/LottieCompositionFactory.java:605-612 | the search returns the first asset with the file name, or none |
| CompositionFactory.FirstFound | lottie/src/main/java/com/airbnb/lottie/LottieCompositionFactory.java:605-612 | an asset with the name and none before it is the first |
| CompositionFactory.FirstMissing | lottie/src/main/java/com/airbnb/lottie/LottieCompositionFactory.java:605-612 | with no asset of that name there is none |
| CompositionFactory.AttachImages | lottie/src/main/java/com/airbnb/lottie/LottieCompositionFactory.java:522-530 | every asset named by an image, when it is the first of that name, gets that image; every other asset keeps its pixel map |
| CompositionFactory.AllHavePixelMaps | lottie/src/main/java/com/airbnb/lottie/LottieCompositionFactory.java:570-575 | true exactly when every asset has a pixel map |
| NetworkCaches.Extension | lottielib/src/main/java/com/airbnb/lottie/network/FileExtension.java:10-26 | each extension starts with a dot and holds no slash |
| NetworkCaches.TempExtension | lottielib/src/main/java/com/airbnb/lottie/network/FileExtension.java:19-21 | the temporary extension is ".temp" followed by the extension |
| NetworkCaches.FirstMatch | lottielib/src/main/java/com/airbnb/lottie/network/FileExtension.java:28-34 | the extension found ends the name; when none is found no extension ends the name |
| NetworkCaches.ForFileCases | lottielib/src/main/java/com/airbnb/lottie/network/FileExtension.java:28-37 | a name is read as ZIP exactly when it ends in ".zip", and as JSON otherwise, unknown endings included |
| NetworkCaches.ForFileRoundTrip | lottielib/src/main/java/com/airbnb/lottie/network/FileExtension.java:28-37 | a name ending in an extension, or in its temporary form, is read back as that extension |
| NetworkCaches.FilenameForUrl | lottie/src/main/java/com/airbnb/lottie/network/NetworkCache.java:176-180 | a cache file name is the URL's part followed by the extension, or by its temporary form |
| NetworkCaches.UrlHead | lottie/src/main/java/com/airbnb/lottie/network/NetworkCache.java:177 | the URL's part of a cache file name holds no dot and no slash |
| NetworkCaches.FilenameShape | lottie/src/main/java/com/airbnb/lottie/network/NetworkCache.java:176-180 | a cache file name holds no slash and ends with its extension |
| NetworkCaches.FilenameRoundTrip | lottie/src/main/java/com/airbnb/lottie/network/NetworkCache.java:176-180 | a cache file name is read back as its own type |
| NetworkCaches.FilenameIgnoresNonWord | lottie/src/main/java/com/airbnb/lottie/network/NetworkCache.java:177 | URLs that differ only in non-word characters share a cache file |
| NetworkCaches.RemoveAllSkip | lottie/src/main/java/com/airbnb/lottie/network/NetworkCache.java:134 | removing ".temp" passes over a head without a dot |
| NetworkCaches.RemoveAllLeading | lottie/src/main/java/com/airbnb/lottie/network/NetworkCache.java:134 | removing ".temp" drops a leading ".temp" |
| NetworkCaches.ExtensionKeeps | lottie/src/main/java/com/airbnb/lottie/network/NetworkCache.java:134 | removing ".temp" leaves an extension as it is |
| NetworkCaches.TempNameStripped | lottie/src/main/java/com/airbnb/lottie/network/NetworkCache.java:131-134 | removing ".temp" from a temporary file name gives the final file name |
| NetworkCaches.CachedFile | lottie/src/main/java/com/airbnb/lottie/network/NetworkCache.java:153-163 | the cached file found exists, and none is found exactly when neither the JSON nor the ZIP file exists |
| NetworkCaches.FetchPairPrefersJson | lottie/src/main/java/com/airbnb/lottie/network/NetworkCache.java:54-79 | the JSON file is returned as JSON whenever it exists, and the ZIP file as ZIP only when the JSON one is missing |
| NetworkCaches.PathEndsZip | lottie/src/main/java/com/airbnb/lottie/network/NetworkCache.java:69-73 | a cache path ends in ".zip" exactly when it is the ZIP file's |
| NetworkCaches.RenameLeavesDirAsWritten | lottie/src/main/java/com/airbnb/lottie/network/NetworkCache.java:134 | with a cache directory ending in ".temp", the file is renamed into the directory without that ending, out of the cache |
| NetworkCaches.StrippedDirTarget | lottie/src/main/java/com/airbnb/lottie/network/NetworkCache.java:134 | the as-written target for a directory ending in ".temp" is the final name in the directory with ".temp" removed |
| NetworkCaches.NotInTempDir | lottie/src/main/java/com/airbnb/lottie/network/NetworkCache.java:134 | that target is not a file of the cache directory |
| NetworkCaches.RenameTarget | lottie/src/main/java/com/airbnb/lottie/network/NetworkCache.java:131-136 | the intended target is the final file name in the cache directory |
| NetworkCaches.RenameTargetsAgree | lottie/src/main/java/com/airbnb/lottie/network/NetworkCache.java:134 | for every directory path that does not contain ".temp" the as-written and the intended targets are the same |
| NetworkCaches.RemoveAllPast | lottie/src/main/java/com/airbnb/lottie/network/NetworkCache.java:134 | removing ".temp" passes over a head in which no occurrence of it starts |
| NetworkCaches.NoOccurrence | lottie/src/main/java/com/airbnb/lottie/network/NetworkCache.java:134 | a string for which `contains` is false has no occurrence at any position |
| NetworkCaches.NetworkCache.constructor | lottie/src/main/java/com/airbnb/lottie/network/NetworkCache.java:26-28 | the cache starts on the given directory and disk |
| NetworkCaches.NetworkCache.ParentDir | lottie/src/main/java/com/airbnb/lottie/network/NetworkCache.java:165-174 | a plain file in the directory's place is deleted and the directory then exists |
| NetworkCaches.NetworkCache.Clear | lottie/src/main/java/com/airbnb/lottie/network/NetworkCache.java:30-41 | every file directly in the cache directory is deleted, then the directory; all other files stay |
| NetworkCaches.NetworkCache.GetCachedFile | lottie/src/main/java/com/airbnb/lottie/network/NetworkCache.java:153-163 | the JSON file when it exists, else the ZIP file when it exists, else nothing, after making the directory |
| NetworkCaches.NetworkCache.FetchPair | lottie/src/main/java/com/airbnb/lottie/network/NetworkCache.java:54-79 | nothing when no file is cached, else the cached file with ZIP exactly when its path ends in ".zip" |
| NetworkCaches.NetworkCache.WriteTempCacheFile | lottie/src/main/java/com/airbnb/lottie/network/NetworkCache.java:102-122 | the bytes go to the temporary name in the cache directory, which is returned |
| NetworkCaches.NetworkCache.RenameTempFile | lottie/src/main/java/com/airbnb/lottie/network/NetworkCache.java:131-143 | a successful rename moves the temporary file to the corrected target, the final name in the cache directory (`RenameTarget`); this differs from the code as written only when the directory path contains ".temp" (see Findings); a failed one leaves the files as they were |
| NetworkCaches.WrittenThenRenamedIsFetched | lottie/src/main/java/com/airbnb/lottie/network/NetworkCache.java:54-143 | a file written under its temporary name and renamed is what the next fetch finds, with the type it was written as |
| ImageAssets.LottieImageAsset.constructor | lottie/src/main/java/com/airbnb/lottie/LottieImageAsset.java:24-30 | a new asset keeps its size, id, file name and folder, and has no pixel map |
| ImageAssets.LottieImageAsset.SetPixelMap | lottie/src/main/java/com/airbnb/lottie/LottieImageAsset.java:60-62 | the pixel map is replaced |
| ImageAssets.HasBitmapCases | lottie/src/main/java/com/airbnb/lottie/LottieImageAsset.java:68-70 | an asset has a bitmap exactly when its pixel map is set or its file name starts with "data:" and contains "base64," somewhere |
| ImageAssets.NormalizeFolder | lottielib/src/main/java/com/airbnb/lottie/manager/ImageAssetManager.java:33-37 | a non-empty folder ends in '/' after at most one added character; a folder already ending in '/', an empty one or none is kept as it is |
| ImageAssets.LoadAsWritten | lottielib/src/main/java/com/airbnb/lottie/manager/ImageAssetManager.java:84-128 | as written, a load without a delegate never yields an image: it fails without an images folder and yields nothing otherwise |
| ImageAssets.Load | lottielib/src/main/java/com/airbnb/lottie/manager/ImageAssetManager.java:84-128 | a base64 data URI yields its decoded image, or nothing when the text is not valid base64; otherwise a missing images folder is an IllegalStateException, and a file that opens yields its decoded image and one that does not yields nothing; it fails exactly when the as-written load fails |
| ImageAssets.LoadAsWrittenLosesDecodedImage | lottielib/src/main/java/com/airbnb/lottie/manager/ImageAssetManager.java:105-107 | a data URI whose image decodes is reported missing by the code as written, and found by the corrected load |
| ImageAssets.ImageAssetManager.constructor | lottielib/src/main/java/com/airbnb/lottie/manager/ImageAssetManager.java:31-42 | the folder is normalised, and the delegate and the assets are kept |
| ImageAssets.ImageAssetManager.SetDelegate | lottielib/src/main/java/com/airbnb/lottie/manager/ImageAssetManager.java:44-46 | the delegate is replaced |
| ImageAssets.ImageAssetManager.UpdateBitmap | lottielib/src/main/java/com/airbnb/lottie/manager/ImageAssetManager.java:54-64 | the asset's pixel map is replaced, or cleared, and the previous one returned; an unknown id is a NullPointerException; no other asset changes |
| ImageAssets.ImageAssetManager.BitmapForId | lottielib/src/main/java/com/airbnb/lottie/manager/ImageAssetManager.java:66-129 | an unknown id gives nothing; a set pixel map is returned unchanged; else the delegate's answer is returned and stored; else the loaded image is returned and stored, or the load's error; no other asset changes (the load is the corrected one, see Findings; the code as written stores and returns null there) |
| TextDelegates.RedrawsFor | lottie/src/main/java/com/airbnb/lottie/TextDelegate.java:99-106 | a redraw is sent exactly when the delegate belongs to a view or a drawable |
| TextDelegates.TextFor | lottie/src/main/java/com/airbnb/lottie/TextDelegate.java:88-97 | with caching off, or with no stored mapping, the text drawn is the input itself |
| TextDelegates.StoredAfter | lottie/src/main/java/com/airbnb/lottie/TextDelegate.java:88-97 | with caching on, the returned text is stored for the input and every other mapping is kept; with caching off nothing changes |
| TextDelegates.LookupIsStable | lottie/src/main/java/com/airbnb/lottie/TextDelegate.java:88-97 | a second lookup gives the same text and stores nothing new |
| TextDelegates.SetTextThenLookup | lottie/src/main/java/com/airbnb/lottie/TextDelegate.java:57-60 | after a mapping is set, the lookup of its input gives its output while caching is on |
| TextDelegates.InvalidateThenLookup | lottie/src/main/java/com/airbnb/lottie/TextDelegate.java:75-78 | after an input's mapping is forgotten, its lookup gives the input back, and stores it while caching |
| TextDelegates.TextDelegate.constructor | lottie/src/main/java/com/airbnb/lottie/TextDelegate.java:16-40 | a new delegate has no mappings, caches, and belongs to the given view, drawable or neither |
| TextDelegates.TextDelegate.Invalidate | lottie/src/main/java/com/airbnb/lottie/TextDelegate.java:99-106 | the view is asked to redraw, or the drawable to invalidate itself, whichever the delegate belongs to |
| TextDelegates.TextDelegate.SetText | lottie/src/main/java/com/airbnb/lottie/TextDelegate.java:57-60 | the mapping is stored, replacing any earlier one, and a redraw is requested |
| TextDelegates.TextDelegate.SetCacheText | lottie/src/main/java/com/airbnb/lottie/TextDelegate.java:67-69 | the caching flag is stored |
| TextDelegates.TextDelegate.InvalidateText | lottie/src/main/java/com/airbnb/lottie/TextDelegate.java:75-78 | only that input's mapping is forgotten, and a redraw is requested |
| TextDelegates.TextDelegate.InvalidateAllText | lottie/src/main/java/com/airbnb/lottie/TextDelegate.java:83-86 | every mapping is forgotten, and a redraw is requested |
| TextDelegates.TextDelegate.GetTextInternal | lottie/src/main/java/com/airbnb/lottie/TextDelegate.java:88-97 | the text drawn is the stored mapping while caching, else the input; with caching on the result is stored; no redraw is requested |
| Config.GetCacheDir | lottie/src/main/java/com/airbnb/lottie/LottieConfig.java:61-90 | an installed provider's directory is returned when it is a directory, an IllegalArgumentException otherwise |
| Config.Builder.constructor | lottie/src/main/java/com/airbnb/lottie/LottieConfig.java:31-35 | a new builder has no fetcher, no cache provider, and trace markers off |
| Config.Builder.SetNetworkFetcher | lottie/src/main/java/com/airbnb/lottie/LottieConfig.java:44-47 | the fetcher is replaced and the builder returned |
| Config.Builder.SetNetworkCacheDir | lottie/src/main/java/com/airbnb/lottie/LottieConfig.java:57-70 | with a provider already set it is an IllegalStateException and the first provider stays; otherwise a provider around the file is installed |
| Config.Builder.SetNetworkCacheProvider | lottie/src/main/java/com/airbnb/lottie/LottieConfig.java:78-92 | with a provider already set it is an IllegalStateException and the first provider stays; otherwise a provider around the app's one is installed |
| Config.Builder.SetEnableSystraceMarkers | lottie/src/main/java/com/airbnb/lottie/LottieConfig.java:103-106 | the flag is stored and the builder returned |
| Config.Builder.Build | lottie/src/main/java/com/airbnb/lottie/LottieConfig.java:109-111 | the configuration holds exactly the builder's fetcher, provider and flag |
| Config.SecondProviderRefused | lottie/src/main/java/com/airbnb/lottie/LottieConfig.java:57-92 | whichever setter comes second, a second cache provider is refused and the first one stays |
| Config.DefaultsAndSetters | lottie/src/main/java/com/airbnb/lottie/LottieConfig.java:22-111 | a fresh builder builds the defaults, and the setters show through in what is built |
| Strings.IndexOf | lottie/src/main/java/com/airbnb/lottie/LottieImageAsset.java:69 | the first position where the pattern occurs, or -1 when it occurs nowhere |
| Strings.IndexFrom | lottie/src/main/java/com/airbnb/lottie/LottieImageAsset.java:69 | the first position from the start point where the pattern occurs, or -1 when it occurs nowhere from there |
| Strings.RemoveNonWord | lottie/src/main/java/com/airbnb/lottie/network/NetworkCache.java:177 | only word characters remain, and a string of word characters only is kept whole |
| Strings.RemoveAll | lottie/src/main/java/com/airbnb/lottie/network/NetworkCache.java:134 | removing a pattern never lengthens the string |
| Strings.Lower | lottie/src/main/java/com/airbnb/lottie/LottieCompositionFactory.java:543 | each ASCII capital is lowered and every other character kept, position by position |
| Strings.LastIndexOfChar | lottie/src/main/java/com/airbnb/lottie/LottieCompositionFactory.java:549-550 | the last position holding the character, or -1 when none does |
| Strings.TrimTrailing | lottie/src/main/java/com/airbnb/lottie/LottieCompositionFactory.java:549 | the string up to its trailing run of the character, which is all that is removed |
| Strings.LastSegment | lottie/src/main/java/com/airbnb/lottie/LottieCompositionFactory.java:549-550 | the last element of the split on '/' holds no slash |

## Left out

- `JsonUtils`, `MiscUtils` beyond the helpers in `JavaNum`, and `Marker.java` are not part of this model; a marker's name match is plain string equality.
- Platform graphics: `Path`, `PathMeasure`, `Shader`, `Paint` and `Canvas` are logs of the operations issued on them, and the trim-path segment drawing is left out; only the window arithmetic of `applyTrimPathIfNeeded` is modelled.
- Floating point: keyframe progresses and animated float values are `JavaNum.Float` (finite, the two infinities, NaN), but a finite float is an exact real, so rounding, overflow to infinity and signed zero are not modelled; frames, bounds and geometry are reals.
- Trigonometry, powers and `hypot` arrive as functions passed in (`Matrices.Trig`), so angles are not computed.
- The LRU eviction of the composition cache: the memory cache is a plain map.
- Task threads, executors, the main-thread handler and the render ticks: frames arrive as explicit `doFrame` calls, and a task's work is not run; its finishing is an explicit call (`TaskFinished`).
- The JSON reader and `LottieCompositionParser`: each parser takes the fields it would read.
- File contents and byte copying in the network cache and the zip import, and log lines: the file system is the set of file paths plus whether the cache directory exists.
- Decoding an image: it is an opaque function of a file path or of the base64 text.
- Case folding is ASCII only (`Strings.Lower`); Java's full Unicode case mapping is not modelled.
- A `HashMap`'s iteration order is the order of a sequence; it is used in the zip import's asset matching and in `findImageAssetForFileName`.
- The failure of `mkdirs` when the cache directory is made: the directory is then taken to exist.
- The `FileNotFoundException` that `fetch` swallows when a cached file disappears between the existence check and the open.
- The catch around the interpolator cache's `put`: the weak-reference cache is a map, and its put cannot fail.
- SplitDimension.SplitDimensionPathKeyframeAnimation.GetValue: an axis with no keyframes counts as having no current keyframe, so its callback is not asked (the null check at SplitDimensionPathKeyframeAnimation.java:88). The IllegalStateException that the empty keyframe wrapper throws first is not modelled.
- The outline drawing of masks and mattes (`BaseLayer.java` 308-318) and `setOutlineMasksAndMattes`.
- `resolveKeyPath` of the layer, the content group, the fill and the stroke: the drawable takes how a key path resolves as a parameter.
- The `L.beginSection`/`endSection` trace sections.
- ContentGroup's `setContents` passes one growing list to every child; the model records the list each child sees at its call, so a later change made to that list by the child is not seen.
- The easing curve is never applied to the progress in the keyframe animation, as in the code as written, so curves are known by identity only.
- The GRADIENT_COLOR callback of the gradient stroke does not clear its shader caches, as in the code as written.
- Drawable: `drawWithNewAspectRatio` and the rest of the drawing math, `safeMode`, the image and font asset delegates, and the methods that only forward listeners to the animator.
- ValueAnimator.LottieValueAnimator: what the contracts promise about the frame under a composition holds when its frame range is ordered and strictly inside the sentinels (`RangeOk`), and they say less otherwise.
- ValueAnimator.LottieValueAnimator.SetMinAndMaxFrames: keeps the early return of `setFrame` as written, so its frame can end outside the new bounds (see Findings), because `setMinFrame`, `setMaxFrame` and `setComposition` are stated through it; the corrected `RebindFrame` is tied to it by `RebindAgrees`, which says exactly when the two differ.
- ValueAnimator.LottieValueAnimator: the `Integer.MIN_VALUE`/`MAX_VALUE` bound sentinels are exact reals; the rounding of `Integer.MAX_VALUE` to a float is not modelled.
- Keyframes.Keyframe: `startValue`, `endValue` and `endFrame` are public mutable fields in Java but are never written after construction by the modelled code, so the model keeps them constant.
- ValueCallbacks.LottieRelativePointValueCallback: the relative point is computed by the wrapper's own `GetValue`; the inner `LottieValueCallback` is a plain static-value callback, so an animation it is bound to gets the offset (its static value) and not the relative point. The overriding `getValue` cannot be installed as its behaviour, because it throws an exception where a callback's answer is a value or null.
- KeyframeParsers: in `parseKeyframe` the `o` and `i` points are the ones the generic point reader makes of the field, as a parameter of the field (`asPoint`).

## Findings

| source | as written | input that shows it | evidently intended | confidence | as-written member | corrected member |
|---|---|---|---|---|---|---|
| lottielib/src/main/java/com/airbnb/lottie/utils/LottieValueAnimator.java:162-164 | `setComposition` sets the frame to 0 and then calls `setFrame((int) frame)`, which returns early when the frame is unchanged | frame 0 under bounds [0.5, 10]: the frame stays 0, below the minimum | the frame is clamped into the bounds in every case; the early return keeps the clock and skips one notification, as written | not executed | ValueAnimator.RecomposedFrameAsWrittenLeavesBounds | ValueAnimator.RecomposedFrame |
| lottielib/src/main/java/com/airbnb/lottie/utils/LottieValueAnimator.java:186-196 | `setMinAndMaxFrames` calls `setFrame((int) clamp(frame, min, max))`, and `setFrame` returns early when that request equals the current frame, before clamping it into the new bounds | frame 200 in a [0, 1000] composition, `setMinAndMaxFrames(200.5, 800)`: (int) 200.5 is 200, so the frame stays at 200, below the minimum 200.5 | the frame is clamped into the new bounds in every case | not executed | ValueAnimator.RebindAsWrittenLeavesBounds | ValueAnimator.RebindFrame |
| lottie/src/main/java/com/airbnb/lottie/model/layer/BaseLayer.java:355-362 | a non-inverted ADD or INTERSECT mask does `continue`, so the union of the mask bounds is never computed and the bounds are intersected with an empty rectangle | one ADD mask whose bounds equal the layer's bounds, Rect(10, 10, 20, 20): the bounds become empty | the bounds are trimmed to the union of the mask bounds, which leaves them whole | not executed | Layers.MaskUnionSkipped | Layers.TrimToMasksKeeps |
| lottie/src/main/java/com/airbnb/lottie/animation/content/FillContent.java:92-93 | the alpha share is cast to `int` before it is clamped to [0, 1] | parent alpha 255 and opacity 50: the alpha is 0 | the alpha is the share itself, 0.5 | not executed | Fills.FillAlphaHalfOpacity | Fills.FillAlphaAgreesAtEnds |
| lottie/src/main/java/com/airbnb/lottie/animation/content/GradientFillContent.java:216-232 | without a colour callback the colour array is returned with no colours set; with one longer than the gradient, the array is too short | no callback and colours [0xff0000, 0x0000ff]: both entries are null | the gradient's own colours without a callback, and all the callback's colours with one | not executed | Gradients.DynamicColorsLost | Gradients.DynamicColorsAgree |
| lottielib/src/main/java/com/airbnb/lottie/manager/ImageAssetManager.java:105-127 | in both decode branches (data URI and images folder) the decoded `pixelMap` is dropped and the local variable `pixelmap`, still null because the asset had no image, is stored and returned | the name "data:image/png;base64,AAAA" with a decoder that succeeds: no image | the decoded pixel map is stored and returned | not executed | ImageAssets.LoadAsWrittenLosesDecodedImage | ImageAssets.Load |
| lottie/src/main/java/com/airbnb/lottie/parser/KeyframeParser.java:297-300 | the `o` control points are read as elements 0, 1 and 3 of a three-element list | any multi-dimensional keyframe with an `o` field: the read is out of bounds | elements 0, 1 and 2, as for the `i` field | not executed | KeyframeParsers.OFieldFailsAsWritten | KeyframeParsers.ControlPointsOf |
| lottie/src/main/java/com/airbnb/lottie/network/NetworkCache.java:134 | ".temp" is removed from the whole absolute path, not only from the file name | a cache directory named "cache.temp": the file is renamed into "cache", out of the cache | only the file name loses ".temp" | not executed | NetworkCaches.RenameLeavesDirAsWritten | NetworkCaches.RenameTargetsAgree |
