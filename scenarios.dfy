/** Traces of the demonstration character through the wired canvas,
    overlay and manager, and what the manager's listener is told. */
module Scenarios {
  import opened Wrappers
  import opened Characters
  import opened Overlay
  import opened Guidance
  import Tracing

  /** The wired engine, with the overlay initially visible, set to the
      sample character. */
  method NewSampleTracing() returns (t: GuidedTracing)
    ensures t.Valid()
    ensures fresh(t) && fresh(t.canvas) && fresh(t.overlay) && fresh(t.manager)
    ensures t.manager.currentCharacter == Some(SampleCharacter())
    ensures t.canvas.referenceStrokePaths == SampleCharacter().strokePaths
    ensures |t.canvas.referenceStrokePaths| == 1 && |t.canvas.referenceStrokePaths[0].guidancePoints| == 9
    ensures t.canvas.currentStrokeIndex == 0 && t.canvas.userStrokePoints == [] && !t.canvas.isTracing
    ensures t.canvas.pathsSetAt == |t.canvas.events|
    ensures t.manager.failedAttempts == 0 && t.manager.events == []
    ensures t.overlay.currentStrokePath == None && t.overlay.ProgressInRange()
  {
    t := new GuidedTracing(true);
    t.SetCharacter(SampleCharacter());
  }

  /** The first draw pass of a newly set-up engine: no stroke is guided
      yet, so no arrow is drawn, and the progress stays in [0, 1). */
  method FirstDraw(now: int) returns (arrow: Arrow, inRange: bool)
    ensures arrow == NoArrow
    ensures inRange
  {
    var t := NewSampleTracing();
    arrow := t.Draw(now);
    inRange := t.overlay.ProgressInRange();
  }

  /** One attempt at the only stroke of a one-stroke character: a touch
      released at once, too short to be accepted. The touch hides any
      guidance, and the release counts one more failure, showing guidance
      for the stroke from the third on. */
  method FailedAttempt(t: GuidedTracing, now: int) returns (hiddenWhileTouching: bool)
    requires t.Valid()
    requires |t.canvas.referenceStrokePaths| == 1 && t.canvas.currentStrokeIndex == 0
    modifies t.canvas, t.overlay, t.manager
    ensures t.Valid()
    ensures hiddenWhileTouching
    ensures t.canvas.referenceStrokePaths == old(t.canvas.referenceStrokePaths) && t.canvas.currentStrokeIndex == 0
    ensures t.manager.failedAttempts == old(t.manager.failedAttempts) + 1
    ensures t.manager.events == old(t.manager.events) + [StrokeFailed(t.manager.failedAttempts)] +
                                (if t.manager.failedAttempts >= MaxFailedAttempts then [GuidanceActivated] else [])
    ensures t.manager.failedAttempts >= MaxFailedAttempts ==>
              && t.overlay.visible && t.overlay.isAnimating
              && t.overlay.currentStrokePath == Some(t.canvas.referenceStrokePaths[0])
              && t.overlay.animationProgress == 0.0 && t.overlay.lastAnimationTime == now
  {
    t.TouchStart(0.0, 0.0);
    hiddenWhileTouching := !t.overlay.visible && !t.overlay.isAnimating;
    t.TouchUp(now);
  }

  /** Four failed attempts. The third failure shows guidance; the next
      touch hides it and the fourth failure shows it again. The stroke
      index never moves. */
  method RepeatedFailures(now: int) returns (log: seq<GuidanceEvent>, strokeIndex: int, guided: bool)
    ensures log == [StrokeFailed(1), StrokeFailed(2), StrokeFailed(3), GuidanceActivated,
                    StrokeFailed(4), GuidanceActivated]
    ensures strokeIndex == 0
    ensures guided
  {
    var t := NewSampleTracing();
    var _ := FailedAttempt(t, now);
    assert t.manager.events == [StrokeFailed(1)];
    var _ := FailedAttempt(t, now);
    assert t.manager.events == [StrokeFailed(1), StrokeFailed(2)];
    var _ := FailedAttempt(t, now);
    assert t.manager.events == [StrokeFailed(1), StrokeFailed(2), StrokeFailed(3), GuidanceActivated];
    var _ := FailedAttempt(t, now);
    log := t.manager.events;
    strokeIndex := t.canvas.currentStrokeIndex;
    guided := t.overlay.visible && t.overlay.isAnimating;
  }

  /** Guidance shown after three failures, then three draw passes half a
      second apart: the arrow starts between the first two guidance points
      and after one second of animation it stands a quarter of the way
      along the nine points, between the third and the fourth. */
  method GuidedDraws(now: int) returns (first: Arrow, second: Arrow, third: Arrow)
    ensures first == Arrow(0, 1) && second == Arrow(0, 1) && third == Arrow(2, 3)
  {
    var t := NewSampleTracing();
    var _ := FailedAttempt(t, now);
    var _ := FailedAttempt(t, now);
    var _ := FailedAttempt(t, now);
    first, second, third := DrawsFromStart(t, now);
  }

  /** Three draw passes half a second apart over a guided stroke of nine
      points, starting with the animation at 0. */
  method DrawsFromStart(t: GuidedTracing, now: int) returns (first: Arrow, second: Arrow, third: Arrow)
    requires t.Valid()
    requires t.overlay.currentStrokePath.Some? && |t.overlay.currentStrokePath.value.guidancePoints| == 9
    requires t.overlay.isAnimating
    requires t.overlay.animationProgress == 0.0 && t.overlay.lastAnimationTime == now
    modifies t.overlay
    ensures first == Arrow(0, 1) && second == Arrow(0, 1) && third == Arrow(2, 3)
  {
    first := t.Draw(now);
    second := t.Draw(now + 500);
    assert t.overlay.animationProgress == 0.25;
    third := t.Draw(now + 1000);
  }

  /** A touch followed by nine moves, each five units right of the one
      before: ten samples are captured on the first stroke and nothing is
      reported to the manager's listener. */
  method TraceTenSamples(t: GuidedTracing)
    requires t.Valid()
    requires t.canvas.currentStrokeIndex == 0 && |t.canvas.referenceStrokePaths| == 1
    modifies t.canvas, t.overlay, t.manager
    ensures t.Valid()
    ensures |t.canvas.userStrokePoints| == 10
    ensures t.canvas.currentStrokeIndex == 0 && t.canvas.referenceStrokePaths == old(t.canvas.referenceStrokePaths)
    ensures t.canvas.pathsSetAt == old(t.canvas.pathsSetAt)
    ensures t.manager.currentCharacter == old(t.manager.currentCharacter)
    ensures t.manager.events == old(t.manager.events)
  {
    t.TouchStart(0.0, 0.0);
    for i := 1 to 10
      invariant t.Valid()
      invariant |t.canvas.userStrokePoints| == i
      invariant t.canvas.lastX == 5.0 * (i - 1) as real && t.canvas.lastY == 0.0
      invariant t.canvas.currentStrokeIndex == 0 && t.canvas.referenceStrokePaths == old(t.canvas.referenceStrokePaths)
      invariant t.canvas.pathsSetAt == old(t.canvas.pathsSetAt)
      invariant t.manager.currentCharacter == old(t.manager.currentCharacter)
      invariant t.manager.events == old(t.manager.events)
    {
      t.TouchMove(5.0 * i as real, 0.0);
    }
  }

  /** A stroke of ten samples: the only stroke is accepted and the
      character is complete. A reset afterwards keeps the character
      complete. */
  method SuccessfulTrace(now: int) returns (log: seq<GuidanceEvent>, strokeIndex: int, failures: int)
    ensures log == [StrokeSuccess, CharacterCompleted]
    ensures strokeIndex == 1
    ensures failures == 0
  {
    var t := NewSampleTracing();
    TraceTenSamples(t);
    t.TouchUp(now);
    t.Reset();
    log := t.manager.events;
    strokeIndex := t.canvas.currentStrokeIndex;
    failures := t.manager.failedAttempts;
  }

  /** After the character is complete, a further attempt is judged
      invalid (no stroke remains) and counted as a failure, without
      guidance and without a second completion: since the character was
      set, the canvas has reported it complete exactly once. */
  method CompletedOnce(now: int) returns (log: seq<GuidanceEvent>, completions: nat)
    ensures log == [StrokeSuccess, CharacterCompleted, StrokeFailed(1)]
    ensures completions == 1
  {
    var t := NewSampleTracing();
    var setAt := |t.canvas.events|;
    TraceTenSamples(t);
    t.TouchUp(now);
    t.TouchStart(0.0, 0.0);
    t.TouchUp(now);
    log := t.manager.events;
    completions := Tracing.CompletionCount(t.canvas.events[setAt..]);
  }
}
