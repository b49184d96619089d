/**
 * The frame clock's documented scenarios: an animator over a composition
 * of frames [0, 1000] at 1000 frames per second, driven through bounds,
 * direction and playback changes, with the frame and fractions each
 * scenario expects.
 */
module AnimatorScenarios {
  import opened Wrappers
  import opened JavaNum
  import opened Composition
  import opened ValueAnimator

  /** An empty composition spanning [start, end] at 1000 frames per second. */
  method NewComposition(start: real, end: real) returns (c: LottieComposition)
    ensures c.startFrame == start && c.endFrame == end && c.frameRate == 1000.0
  {
    c := new LottieComposition((0, 0, 0, 0), start, end, 1000.0, [], map[], map[], []);
  }

  /** A fresh animator with the [0, 1000] composition set. */
  method Setup() returns (a: LottieValueAnimator, c: LottieComposition)
    ensures fresh(a) && fresh(a.base) && a.Valid() && a.composition == c
    ensures c.startFrame == 0.0 && c.endFrame == 1000.0
    ensures a.minFrame == 0.0 && a.maxFrame == 1000.0 && a.frame == 0.0 && a.speed == 1.0
  {
    a := new LottieValueAnimator();
    c := NewComposition(0.0, 1000.0);
    ToIntWhole(0);
    ToIntWhole(1000);
    var r := a.SetComposition(c);
  }

  /** Resuming keeps the frame that was set. */
  method ResumingMaintainsValue() returns (frame: real)
    ensures frame == 500.0
  {
    var a, c := Setup();
    a.SetFrame(500.0);
    a.ResumeAnimation();
    frame := a.frame;
  }

  /** Frame 500 of 1000 is half way, both inside the bounds and absolutely. */
  method FrameConvertsToAnimatedFraction() returns (fraction: Float, absolute: Float)
    ensures fraction == Num(0.5) && absolute == Num(0.5)
  {
    var a, c := Setup();
    a.SetFrame(500.0);
    a.ResumeAnimation();
    fraction, absolute := a.AnimatedFraction(), a.AnimatedValueAbsolute();
  }

  /** Playing forward restarts from the minimum. */
  method PlayingResetsValue() returns (frame: real, fraction: Float)
    ensures frame == 0.0 && fraction == Num(0.0)
  {
    var a, c := Setup();
    a.SetFrame(500.0);
    a.PlayAnimation();
    frame, fraction := a.frame, a.AnimatedFraction();
  }

  /** Reversing keeps the frame and measures the fraction from the maximum. */
  method ReversingMaintainsValue() returns (frame: real, fraction: Float, absolute: Float)
    ensures frame == 250.0 && fraction == Num(0.75) && absolute == Num(0.25)
  {
    var a, c := Setup();
    a.SetFrame(250.0);
    a.ReverseAnimationSpeed();
    frame, fraction, absolute := a.frame, a.AnimatedFraction(), a.AnimatedValueAbsolute();
  }

  /** With a maximum of 900, resuming in reverse from the minimum jumps to 900. */
  method ResumeReversingWithMaxValue() returns (frame: real, fraction: Float, absolute: Float)
    ensures frame == 900.0 && fraction == Num(0.0) && absolute == Num(0.9)
  {
    ToIntWhole(0);
    var a, c := Setup();
    var r := a.SetMaxFrame(900.0);
    a.ReverseAnimationSpeed();
    a.ResumeAnimation();
    frame, fraction, absolute := a.frame, a.AnimatedFraction(), a.AnimatedValueAbsolute();
  }

  /** With a maximum of 900, playing in reverse starts at 900. */
  method PlayReversingWithMaxValue() returns (frame: real, fraction: Float, absolute: Float)
    ensures frame == 900.0 && fraction == Num(0.0) && absolute == Num(0.9)
  {
    ToIntWhole(0);
    ToIntWhole(900);
    var a, c := Setup();
    var r := a.SetMaxFrame(900.0);
    assert a.minFrame == 0.0 && a.maxFrame == 900.0 && a.composition == c;
    a.ReverseAnimationSpeed();
    assert a.minFrame == 0.0 && a.maxFrame == 900.0 && a.speed == -1.0;
    a.PlayAnimation();
    assert a.frame == 900.0 && a.minFrame == 0.0 && a.maxFrame == 900.0 && a.speed == -1.0;
    frame, fraction, absolute := a.frame, a.AnimatedFraction(), a.AnimatedValueAbsolute();
  }

  /** The animator with bounds [200, 800] requested one at a time and frame 400 set. */
  method BoundedAt400() returns (a: LottieValueAnimator)
    ensures fresh(a) && fresh(a.base) && a.Valid() && a.composition != null
    ensures a.composition.startFrame == 0.0 && a.composition.endFrame == 1000.0
    ensures a.minFrame == 200.0 && a.maxFrame == 800.0 && a.frame == 400.0 && a.speed == 1.0
  {
    ToIntWhole(200);
    ToIntWhole(800);
    ToIntWhole(1000);
    var c;
    a, c := Setup();
    var r := a.SetMinFrame(200);
    r := a.SetMaxFrame(800.0);
    a.SetFrame(400.0);
  }

  /** Inside bounds [200, 800], frame 400 is a third of the way, and two thirds in reverse. */
  method MinAndMaxBothSet() returns (forward: Float, reversed: Float, absolute: Float)
    ensures forward == Num(1.0 / 3.0) && reversed == Num(2.0 / 3.0) && absolute == Num(0.4)
  {
    var a := BoundedAt400();
    forward := a.AnimatedFraction();
    a.ReverseAnimationSpeed();
    assert a.minFrame == 200.0 && a.maxFrame == 800.0 && a.frame == 400.0 && a.speed == -1.0;
    a.ResumeAnimation();
    assert a.minFrame == 200.0 && a.maxFrame == 800.0 && a.frame == 400.0 && a.speed == -1.0;
    reversed, absolute := a.AnimatedFraction(), a.AnimatedValueAbsolute();
  }

  /** Playing in reverse inside bounds [200, 800] starts at 800. */
  method MinAndMaxBothSetThenPlayReversed() returns (frame: real, fraction: Float)
    ensures frame == 800.0 && fraction == Num(0.0)
  {
    ToIntWhole(800);
    var a := BoundedAt400();
    a.ReverseAnimationSpeed();
    a.PlayAnimation();
    frame, fraction := a.frame, a.AnimatedFraction();
  }

  /** Frames set outside [200, 800] are clamped onto its ends. */
  method SetFrameIntegrity() returns (below: real, above: real)
    ensures below == 200.0 && above == 800.0
  {
    var a, c := Setup();
    var r := a.SetMinAndMaxFrames(200.0, 800.0);
    a.SetFrame(100.0);
    below := a.frame;
    a.SetFrame(900.0);
    above := a.frame;
  }

  /** Crossed bounds are refused. */
  method MinAndMaxFrameIntegrity() returns (r: Outcome)
    ensures r == Failure(IllegalArgument)
  {
    var a, c := Setup();
    r := a.SetMinAndMaxFrames(800.0, 200.0);
  }

  /** Bounds requested outside the composition are clamped into it. */
  method BoundsOutsideComposition() returns (lo: real, hi: real)
    ensures lo == 0.0 && hi == 1000.0
  {
    ToIntWhole(0);
    ToIntWhole(1000);
    var a, c := Setup();
    var r := a.SetMinFrame(-9000);
    r := a.SetMaxFrame(9000.0);
    lo, hi := a.GetMinFrame(), a.GetMaxFrame();
  }

  /** Bounds requested before the first composition survive its arrival. */
  method BoundsBeforeComposition() returns (lo: real, hi: real)
    ensures lo == 100.0 && hi == 900.0
  {
    ToIntWhole(0);
    ToIntWhole(100);
    ToIntWhole(900);
    var a := new LottieValueAnimator();
    var r := a.SetMinAndMaxFrames(100.0, 900.0);
    var c := NewComposition(0.0, 1000.0);
    r := a.SetComposition(c);
    lo, hi := a.GetMinFrame(), a.GetMaxFrame();
  }

  /** A minimum requested before the first composition is kept; the maximum becomes its end. */
  method MinFrameBeforeComposition() returns (lo: real, hi: real)
    ensures lo == 100.0 && hi == 1000.0
  {
    ToIntWhole(0);
    ToIntWhole(100);
    ToIntWhole(1000);
    ToIntWhole(INT_MAX);
    var a := new LottieValueAnimator();
    var r := a.SetMinFrame(100);
    var c := NewComposition(0.0, 1000.0);
    r := a.SetComposition(c);
    lo, hi := a.GetMinFrame(), a.GetMaxFrame();
  }

  /** A later composition replaces the bounds by its own range, shorter or longer. */
  method LaterCompositionBounds() returns (shorter: real, longer: real)
    ensures shorter == 500.0 && longer == 1500.0
  {
    ToIntWhole(0);
    ToIntWhole(500);
    ToIntWhole(1500);
    var a, c := Setup();
    var c2 := NewComposition(0.0, 500.0);
    var r := a.SetComposition(c2);
    shorter := a.GetMaxFrame();
    var c3 := NewComposition(0.0, 1500.0);
    r := a.SetComposition(c3);
    longer := a.GetMaxFrame();
  }

  /** Clearing the composition zeroes the bounds in force; setting it again restores its range. */
  method ResetComposition() returns (cleared: (real, real), reset: (real, real))
    ensures cleared == (0.0, 0.0) && reset == (0.0, 1000.0)
  {
    ToIntWhole(0);
    ToIntWhole(1000);
    var a, c := Setup();
    a.ClearComposition();
    cleared := (a.GetMinFrame(), a.GetMaxFrame());
    var r := a.SetComposition(c);
    reset := (a.GetMinFrame(), a.GetMaxFrame());
  }
}
