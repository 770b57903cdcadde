/** The guidance manager: it listens to the tracing canvas, counts
    consecutive failed strokes and, from the third one on, shows animated
    guidance for the stroke to be traced. `GuidedTracing` is the manager
    installed as the canvas's listener, which is how the application wires
    the two together. */
module Guidance {
  import opened Wrappers
  import opened Characters
  import Tracing
  import opened Overlay

  /** The failure count from which guidance is shown. */
  const MaxFailedAttempts: int := 3

  /** The callbacks of the manager's own listener, one constructor each. */
  datatype GuidanceEvent =
    | GuidanceActivated
    | StrokeSuccess
    | StrokeFailed(attempts: int)
    | CharacterCompleted

  /** What the manager has been told, oldest first: a new character, a
      reset, or a callback from the canvas. */
  datatype ManagerInput =
    | CharacterSet
    | ResetRequested
    | Traced(event: Tracing.TracingEvent)

  /** Inputs after which the failure count starts again from zero. */
  predicate IsRestart(i: ManagerInput)
  {
    i.CharacterSet? || i.ResetRequested? || i == Traced(Tracing.StrokeCompleted(true))
  }

  predicate IsFailure(i: ManagerInput)
  {
    i == Traced(Tracing.StrokeCompleted(false))
  }

  /** The failure count the manager keeps, read off its input history from
      the newest end: failures add one, a restart sets it to zero, anything
      else leaves it alone. */
  function TrailingFailures(h: seq<ManagerInput>): nat
  {
    if h == [] then 0
    else if IsRestart(h[|h| - 1]) then 0
    else TrailingFailures(h[..|h| - 1]) + (if IsFailure(h[|h| - 1]) then 1 else 0)
  }

  /** The position just after the newest restart in `h`, or 0 if there is none. */
  function LastRestart(h: seq<ManagerInput>): (k: nat)
    ensures k <= |h|
    ensures forall j :: k <= j < |h| ==> !IsRestart(h[j])
    ensures k > 0 ==> IsRestart(h[k - 1])
  {
    if h == [] then 0
    else if IsRestart(h[|h| - 1]) then |h|
    else LastRestart(h[..|h| - 1])
  }

  /** The number of invalid completions in `s`, counted from the front. */
  function FailureCount(s: seq<ManagerInput>): nat
  {
    if s == [] then 0 else (if IsFailure(s[0]) then 1 else 0) + FailureCount(s[1..])
  }

  lemma {:induction false} FailureCountAppend(s: seq<ManagerInput>, x: ManagerInput)
    ensures FailureCount(s + [x]) == FailureCount(s) + (if IsFailure(x) then 1 else 0)
    decreases |s|
  {
    if s == [] {
      assert [] + [x] == [x];
      assert [x][1..] == [];
    } else {
      assert (s + [x])[1..] == s[1..] + [x];
      FailureCountAppend(s[1..], x);
    }
  }

  /** One more input changes the kept count as the manager's callbacks do. */
  lemma TrailingFailuresStep(h: seq<ManagerInput>, x: ManagerInput)
    ensures TrailingFailures(h + [x]) ==
              if IsRestart(x) then 0 else TrailingFailures(h) + (if IsFailure(x) then 1 else 0)
  {
  }

  /** The kept count is the number of invalid completions since the last
      valid completion, new character or reset. */
  lemma {:induction false} TrailingFailuresSinceRestart(h: seq<ManagerInput>)
    ensures TrailingFailures(h) == FailureCount(h[LastRestart(h)..])
    decreases |h|
  {
    if h == [] {
    } else if IsRestart(h[|h| - 1]) {
      assert h[|h|..] == [];
    } else {
      var init, x := h[..|h| - 1], h[|h| - 1];
      assert h == init + [x];
      TrailingFailuresSinceRestart(init);
      var k := LastRestart(init);
      assert h[k..] == init[k..] + [x];
      FailureCountAppend(init[k..], x);
    }
  }

  class GuidanceManager {
    const canvas: Tracing.TracingCanvas
    const overlay: GuidanceOverlay
    var currentCharacter: Option<BengaliCharacter>
    var currentStrokeIndex: int
    var failedAttempts: int
    /** Every event the manager has reported to its listener, oldest first. */
    var events: seq<GuidanceEvent>
    /** Every input the manager has received, oldest first. */
    ghost var inputs: seq<ManagerInput>

    ghost predicate Valid()
      reads this, canvas, overlay
    {
      && canvas.Valid()
      && overlay.Valid()
      && 0 <= currentStrokeIndex
      && failedAttempts == TrailingFailures(inputs)
    }

    /** The strokes of the current character, none before one is set. */
    function Strokes(): seq<StrokePath>
      reads this
    {
      if currentCharacter.None? then [] else currentCharacter.value.strokePaths
    }

    /** Whether a guidance request has a stroke to guide. */
    predicate HasStrokeToGuide()
      reads this
    {
      currentCharacter.Some? && currentStrokeIndex < |currentCharacter.value.strokePaths|
    }

    constructor (canvas: Tracing.TracingCanvas, overlay: GuidanceOverlay)
      requires canvas.Valid() && overlay.Valid()
      ensures Valid()
      ensures this.canvas == canvas && this.overlay == overlay
      ensures currentCharacter == None && currentStrokeIndex == 0 && failedAttempts == 0
      ensures events == [] && inputs == []
    {
      this.canvas := canvas;
      this.overlay := overlay;
      currentCharacter := None;
      currentStrokeIndex := 0;
      failedAttempts := 0;
      events := [];
      inputs := [];
    }

    /** Starts tracing `character` at its first stroke, with no failures
        counted and guidance hidden. */
    method SetCharacter(character: BengaliCharacter)
      requires Valid()
      modifies this, canvas, overlay
      ensures Valid()
      ensures currentCharacter == Some(character) && currentStrokeIndex == 0 && failedAttempts == 0
      ensures canvas.referenceStrokePaths == character.strokePaths && canvas.currentStrokeIndex == 0
      ensures canvas.userStrokePoints == [] && !canvas.isTracing
      ensures canvas.events == old(canvas.events) && canvas.pathsSetAt == |canvas.events|
      ensures canvas.lastX == old(canvas.lastX) && canvas.lastY == old(canvas.lastY)
      ensures !overlay.visible && !overlay.isAnimating
      ensures overlay.currentStrokePath == old(overlay.currentStrokePath)
      ensures overlay.animationProgress == old(overlay.animationProgress)
      ensures overlay.lastAnimationTime == old(overlay.lastAnimationTime)
      ensures events == old(events) && inputs == old(inputs) + [CharacterSet]
    {
      currentCharacter := Some(character);
      currentStrokeIndex := 0;
      failedAttempts := 0;
      canvas.SetReferenceStrokePaths(character.strokePaths);
      overlay.HideGuidance();
      TrailingFailuresStep(inputs, CharacterSet);
      inputs := inputs + [CharacterSet];
    }

    /** A fresh attempt at the same stroke: no failures counted, guidance
        hidden, the captured stroke discarded. */
    method Reset()
      requires Valid()
      modifies this, canvas, overlay
      ensures Valid()
      ensures failedAttempts == 0
      ensures currentCharacter == old(currentCharacter) && currentStrokeIndex == old(currentStrokeIndex)
      ensures canvas.userStrokePoints == [] && !canvas.isTracing
      ensures canvas.referenceStrokePaths == old(canvas.referenceStrokePaths)
      ensures canvas.currentStrokeIndex == old(canvas.currentStrokeIndex)
      ensures canvas.events == old(canvas.events) && canvas.pathsSetAt == old(canvas.pathsSetAt)
      ensures canvas.lastX == old(canvas.lastX) && canvas.lastY == old(canvas.lastY)
      ensures !overlay.visible && !overlay.isAnimating
      ensures overlay.currentStrokePath == old(overlay.currentStrokePath)
      ensures overlay.animationProgress == old(overlay.animationProgress)
      ensures overlay.lastAnimationTime == old(overlay.lastAnimationTime)
      ensures events == old(events) && inputs == old(inputs) + [ResetRequested]
    {
      failedAttempts := 0;
      overlay.HideGuidance();
      canvas.ResetCanvas();
      TrailingFailuresStep(inputs, ResetRequested);
      inputs := inputs + [ResetRequested];
    }

    /** Shows guidance for the current stroke, if there is one. */
    method ShowGuidance(now: int)
      requires Valid()
      modifies this`events, overlay
      ensures Valid()
      ensures HasStrokeToGuide() ==>
                && overlay.currentStrokePath == Some(Strokes()[currentStrokeIndex])
                && IsPolylineThrough(overlay.guidancePath, Strokes()[currentStrokeIndex].guidancePoints)
                && overlay.visible && overlay.isAnimating
                && overlay.animationProgress == 0.0 && overlay.lastAnimationTime == now
                && events == old(events) + [GuidanceActivated]
      ensures !HasStrokeToGuide() ==> unchanged(overlay) && events == old(events)
    {
      if currentCharacter.Some? {
        var character := currentCharacter.value;
        if currentStrokeIndex < |character.strokePaths| {
          var currentStroke := character.strokePaths[currentStrokeIndex];
          overlay.SetGuidanceForStroke(currentStroke, now);
          overlay.ShowGuidance(now);
          events := events + [GuidanceActivated];
        }
      }
    }

    method HideGuidance()
      requires Valid()
      modifies overlay
      ensures Valid()
      ensures !overlay.visible && !overlay.isAnimating
      ensures overlay.currentStrokePath == old(overlay.currentStrokePath)
      ensures overlay.guidancePath == old(overlay.guidancePath)
      ensures overlay.animationProgress == old(overlay.animationProgress)
      ensures overlay.lastAnimationTime == old(overlay.lastAnimationTime)
    {
      overlay.HideGuidance();
    }

    /** Listener callback: the learner started a stroke; guidance is hidden. */
    method OnStrokeStarted()
      requires Valid()
      modifies this, overlay
      ensures Valid()
      ensures !overlay.visible && !overlay.isAnimating
      ensures overlay.currentStrokePath == old(overlay.currentStrokePath)
      ensures overlay.animationProgress == old(overlay.animationProgress)
      ensures overlay.lastAnimationTime == old(overlay.lastAnimationTime)
      ensures currentCharacter == old(currentCharacter) && currentStrokeIndex == old(currentStrokeIndex)
      ensures failedAttempts == old(failedAttempts) && events == old(events)
      ensures inputs == old(inputs) + [Traced(Tracing.StrokeStarted)]
    {
      HideGuidance();
      TrailingFailuresStep(inputs, Traced(Tracing.StrokeStarted));
      inputs := inputs + [Traced(Tracing.StrokeStarted)];
    }

    /** Listener callback: progress on the stroke; nothing is done with it. */
    method OnStrokeProgress(progress: real)
      requires Valid()
      modifies this
      ensures Valid()
      ensures currentCharacter == old(currentCharacter) && currentStrokeIndex == old(currentStrokeIndex)
      ensures failedAttempts == old(failedAttempts) && events == old(events)
      ensures inputs == old(inputs) + [Traced(Tracing.StrokeProgress(progress))]
    {
      TrailingFailuresStep(inputs, Traced(Tracing.StrokeProgress(progress)));
      inputs := inputs + [Traced(Tracing.StrokeProgress(progress))];
    }

    /** Listener callback: the verdict on a stroke. A valid stroke clears
        the failure count and moves on; an invalid one counts one more
        failure, reports it, and from the third failure on shows guidance. */
    method OnStrokeCompleted(isValid: bool, now: int)
      requires Valid()
      modifies this, overlay
      ensures Valid()
      ensures currentCharacter == old(currentCharacter)
      ensures inputs == old(inputs) + [Traced(Tracing.StrokeCompleted(isValid))]
      ensures isValid ==>
                && failedAttempts == 0
                && currentStrokeIndex == old(currentStrokeIndex) + 1
                && events == old(events) + [StrokeSuccess]
                && unchanged(overlay)
      ensures !isValid ==>
                && failedAttempts == old(failedAttempts) + 1
                && currentStrokeIndex == old(currentStrokeIndex)
                && events == old(events) + [StrokeFailed(failedAttempts)] +
                             (if failedAttempts >= MaxFailedAttempts && HasStrokeToGuide()
                              then [GuidanceActivated] else [])
      ensures !isValid && failedAttempts >= MaxFailedAttempts && HasStrokeToGuide() ==>
                && overlay.currentStrokePath == Some(Strokes()[currentStrokeIndex])
                && overlay.visible && overlay.isAnimating
                && overlay.animationProgress == 0.0 && overlay.lastAnimationTime == now
      ensures !isValid && !(failedAttempts >= MaxFailedAttempts && HasStrokeToGuide()) ==> unchanged(overlay)
    {
      TrailingFailuresStep(inputs, Traced(Tracing.StrokeCompleted(isValid)));
      inputs := inputs + [Traced(Tracing.StrokeCompleted(isValid))];
      if isValid {
        failedAttempts := 0;
        currentStrokeIndex := currentStrokeIndex + 1;
        events := events + [StrokeSuccess];
      } else {
        failedAttempts := failedAttempts + 1;
        events := events + [StrokeFailed(failedAttempts)];
        if failedAttempts >= MaxFailedAttempts {
          ShowGuidance(now);
        }
      }
    }

    /** Listener callback: the character is complete; guidance is hidden
        and the completion passed on. */
    method OnCharacterCompleted()
      requires Valid()
      modifies this, overlay
      ensures Valid()
      ensures !overlay.visible && !overlay.isAnimating
      ensures overlay.currentStrokePath == old(overlay.currentStrokePath)
      ensures overlay.animationProgress == old(overlay.animationProgress)
      ensures overlay.lastAnimationTime == old(overlay.lastAnimationTime)
      ensures currentCharacter == old(currentCharacter) && currentStrokeIndex == old(currentStrokeIndex)
      ensures failedAttempts == old(failedAttempts)
      ensures events == old(events) + [CharacterCompleted]
      ensures inputs == old(inputs) + [Traced(Tracing.CharacterCompleted)]
    {
      HideGuidance();
      events := events + [CharacterCompleted];
      TrailingFailuresStep(inputs, Traced(Tracing.CharacterCompleted));
      inputs := inputs + [Traced(Tracing.CharacterCompleted)];
    }
  }

  /** The manager's inputs for a run of canvas events passed on in order. */
  function Forwarded(es: seq<Tracing.TracingEvent>): (h: seq<ManagerInput>)
    ensures |h| == |es|
    ensures forall i :: 0 <= i < |es| ==> h[i] == Traced(es[i])
  {
    seq(|es|, i requires 0 <= i < |es| => Traced(es[i]))
  }

  /** A canvas, an overlay and a manager installed as the canvas's
      listener: every event the canvas reports is passed to the manager's
      callback of the same name, in the order reported. */
  class GuidedTracing {
    const canvas: Tracing.TracingCanvas
    const overlay: GuidanceOverlay
    const manager: GuidanceManager

    /** Besides the three objects' own invariants: the manager and the
        canvas agree on the strokes and on the stroke index. */
    ghost predicate Valid()
      reads this, canvas, overlay, manager
    {
      && manager.canvas == canvas
      && manager.overlay == overlay
      && manager.Valid()
      && manager.currentStrokeIndex == canvas.currentStrokeIndex
      && canvas.referenceStrokePaths == manager.Strokes()
    }

    constructor (overlayVisible: bool)
      ensures Valid()
      ensures fresh(canvas) && fresh(overlay) && fresh(manager)
      ensures manager.currentCharacter == None && manager.currentStrokeIndex == 0 && manager.failedAttempts == 0
      ensures canvas.referenceStrokePaths == [] && canvas.currentStrokeIndex == 0
      ensures canvas.userStrokePoints == [] && !canvas.isTracing
      ensures canvas.lastX == 0.0 && canvas.lastY == 0.0
      ensures canvas.events == [] && canvas.pathsSetAt == 0
      ensures overlay.currentStrokePath == None && overlay.guidancePath == []
      ensures overlay.animationProgress == 0.0 && overlay.lastAnimationTime == 0
      ensures overlay.ProgressInRange()
      ensures overlay.visible == overlayVisible && !overlay.isAnimating
      ensures manager.events == [] && manager.inputs == []
    {
      var c := new Tracing.TracingCanvas();
      var o := new GuidanceOverlay(overlayVisible);
      canvas := c;
      overlay := o;
      manager := new GuidanceManager(c, o);
    }

    method SetCharacter(character: BengaliCharacter)
      requires Valid()
      modifies canvas, overlay, manager
      ensures Valid()
      ensures manager.currentCharacter == Some(character) && manager.failedAttempts == 0
      ensures canvas.referenceStrokePaths == character.strokePaths && canvas.currentStrokeIndex == 0
      ensures canvas.userStrokePoints == [] && !canvas.isTracing
      ensures CompletionsSinceStrokesSet() == 0
      ensures canvas.events == old(canvas.events) && canvas.pathsSetAt == |canvas.events|
      ensures canvas.lastX == old(canvas.lastX) && canvas.lastY == old(canvas.lastY)
      ensures !overlay.visible && !overlay.isAnimating
      ensures overlay.currentStrokePath == old(overlay.currentStrokePath)
      ensures overlay.animationProgress == old(overlay.animationProgress)
      ensures overlay.lastAnimationTime == old(overlay.lastAnimationTime)
      ensures manager.events == old(manager.events)
      ensures manager.inputs == old(manager.inputs) + [CharacterSet]
    {
      manager.SetCharacter(character);
    }

    method Reset()
      requires Valid()
      modifies canvas, overlay, manager
      ensures Valid()
      ensures canvas.referenceStrokePaths == old(canvas.referenceStrokePaths)
      ensures manager.currentCharacter == old(manager.currentCharacter)
      ensures manager.failedAttempts == 0
      ensures canvas.currentStrokeIndex == old(canvas.currentStrokeIndex)
      ensures canvas.userStrokePoints == [] && !canvas.isTracing
      ensures canvas.events == old(canvas.events) && canvas.pathsSetAt == old(canvas.pathsSetAt)
      ensures canvas.lastX == old(canvas.lastX) && canvas.lastY == old(canvas.lastY)
      ensures !overlay.visible && !overlay.isAnimating
      ensures overlay.currentStrokePath == old(overlay.currentStrokePath)
      ensures overlay.animationProgress == old(overlay.animationProgress)
      ensures overlay.lastAnimationTime == old(overlay.lastAnimationTime)
      ensures manager.events == old(manager.events)
      ensures manager.inputs == old(manager.inputs) + [ResetRequested]
    {
      manager.Reset();
    }

    /** The completions the canvas has reported since the current strokes were set. */
    ghost function CompletionsSinceStrokesSet(): nat
      reads canvas
      requires canvas.pathsSetAt <= |canvas.events|
    {
      Tracing.CompletionCount(canvas.events[canvas.pathsSetAt..])
    }

    method TouchStart(x: real, y: real)
      requires Valid()
      modifies canvas, overlay, manager
      ensures Valid()
      ensures canvas.referenceStrokePaths == old(canvas.referenceStrokePaths)
      ensures manager.currentCharacter == old(manager.currentCharacter)
      ensures canvas.userStrokePoints == [Point(x, y)] && canvas.isTracing
      ensures canvas.lastX == x && canvas.lastY == y
      ensures canvas.events == old(canvas.events) + [Tracing.StrokeStarted]
      ensures canvas.pathsSetAt == old(canvas.pathsSetAt)
      ensures canvas.currentStrokeIndex == old(canvas.currentStrokeIndex)
      ensures manager.failedAttempts == old(manager.failedAttempts)
      ensures !overlay.visible && !overlay.isAnimating
      ensures overlay.currentStrokePath == old(overlay.currentStrokePath)
      ensures overlay.animationProgress == old(overlay.animationProgress)
      ensures overlay.lastAnimationTime == old(overlay.lastAnimationTime)
      ensures manager.events == old(manager.events)
      ensures manager.inputs == old(manager.inputs) + [Traced(Tracing.StrokeStarted)]
    {
      canvas.TouchStart(x, y);
      manager.OnStrokeStarted();
    }

    method TouchMove(x: real, y: real)
      requires Valid()
      modifies canvas, manager
      ensures Valid()
      ensures canvas.referenceStrokePaths == old(canvas.referenceStrokePaths)
      ensures manager.currentCharacter == old(manager.currentCharacter)
      ensures Tracing.SignificantMotion(x, y, old(canvas.lastX), old(canvas.lastY)) ==>
                && canvas.userStrokePoints == old(canvas.userStrokePoints) + [Point(x, y)]
                && canvas.lastX == x && canvas.lastY == y
                && canvas.events == old(canvas.events) +
                                    Tracing.ProgressReport(canvas.currentStrokeIndex, canvas.referenceStrokePaths)
                && manager.inputs == old(manager.inputs) +
                                     Forwarded(Tracing.ProgressReport(canvas.currentStrokeIndex, canvas.referenceStrokePaths))
      ensures !Tracing.SignificantMotion(x, y, old(canvas.lastX), old(canvas.lastY)) ==>
                && canvas.userStrokePoints == old(canvas.userStrokePoints)
                && canvas.lastX == old(canvas.lastX) && canvas.lastY == old(canvas.lastY)
                && canvas.events == old(canvas.events)
                && manager.inputs == old(manager.inputs)
      ensures canvas.currentStrokeIndex == old(canvas.currentStrokeIndex)
      ensures canvas.isTracing == old(canvas.isTracing) && canvas.pathsSetAt == old(canvas.pathsSetAt)
      ensures manager.failedAttempts == old(manager.failedAttempts)
      ensures manager.events == old(manager.events)
    {
      var reported := |canvas.events|;
      canvas.TouchMove(x, y);
      if |canvas.events| > reported {
        manager.OnStrokeProgress(canvas.events[reported].progress);
      }
    }

    /** Pointer up: the canvas's verdict reaches the manager, which moves
        its own stroke index in step with the canvas's. */
    method TouchUp(now: int)
      requires Valid()
      modifies canvas, overlay, manager
      ensures Valid()
      ensures canvas.referenceStrokePaths == old(canvas.referenceStrokePaths)
      ensures manager.currentCharacter == old(manager.currentCharacter)
      ensures old(canvas.ValidateStrokeCompletion()) ==>
                && canvas.currentStrokeIndex == old(canvas.currentStrokeIndex) + 1
                && manager.failedAttempts == 0
                && manager.events == old(manager.events) + [StrokeSuccess] +
                                     (if canvas.Finished() then [CharacterCompleted] else [])
                && (canvas.Finished() ==> !overlay.visible && !overlay.isAnimating)
      ensures !old(canvas.ValidateStrokeCompletion()) ==>
                && canvas.currentStrokeIndex == old(canvas.currentStrokeIndex)
                && manager.failedAttempts == old(manager.failedAttempts) + 1
                && manager.events == old(manager.events) + [StrokeFailed(manager.failedAttempts)] +
                                     (if manager.failedAttempts >= MaxFailedAttempts && !canvas.Finished()
                                      then [GuidanceActivated] else [])
      ensures !old(canvas.ValidateStrokeCompletion()) &&
              manager.failedAttempts >= MaxFailedAttempts && !canvas.Finished() ==>
                && overlay.currentStrokePath == Some(canvas.referenceStrokePaths[canvas.currentStrokeIndex])
                && overlay.visible && overlay.isAnimating
                && overlay.animationProgress == 0.0 && overlay.lastAnimationTime == now
      ensures old(canvas.ValidateStrokeCompletion()) ==>
                && overlay.currentStrokePath == old(overlay.currentStrokePath)
                && overlay.animationProgress == old(overlay.animationProgress)
                && overlay.lastAnimationTime == old(overlay.lastAnimationTime)
                && (!canvas.Finished() ==> unchanged(overlay))
      ensures !old(canvas.ValidateStrokeCompletion()) ==>
                !(manager.failedAttempts >= MaxFailedAttempts && !canvas.Finished()) ==> unchanged(overlay)
      ensures canvas.events == old(canvas.events) + [Tracing.StrokeCompleted(old(canvas.ValidateStrokeCompletion()))] +
                               (if old(canvas.ValidateStrokeCompletion()) && canvas.Finished()
                                then [Tracing.CharacterCompleted] else [])
      ensures manager.inputs == old(manager.inputs) + Forwarded(canvas.events[|old(canvas.events)|..])
      ensures canvas.pathsSetAt == old(canvas.pathsSetAt)
      ensures CompletionsSinceStrokesSet() <= 1
      ensures canvas.userStrokePoints == old(canvas.userStrokePoints) && !canvas.isTracing
      ensures canvas.lastX == old(canvas.lastX) && canvas.lastY == old(canvas.lastY)
    {
      var reported := |canvas.events|;
      canvas.TouchUp();
      var verdict := canvas.events[reported..];
      if verdict[0].isValid {
        manager.OnStrokeCompleted(true, now);
        if |verdict| > 1 {
          manager.OnCharacterCompleted();
          assert Forwarded(verdict) == [Traced(Tracing.StrokeCompleted(true)), Traced(Tracing.CharacterCompleted)];
        } else {
          assert Forwarded(verdict) == [Traced(Tracing.StrokeCompleted(true))];
        }
      } else {
        manager.OnStrokeCompleted(false, now);
        assert Forwarded(verdict) == [Traced(Tracing.StrokeCompleted(false))];
      }
    }

    /** One draw pass of the overlay. */
    method Draw(now: int) returns (arrow: Arrow)
      requires Valid()
      modifies overlay
      ensures Valid()
      ensures arrow == (if overlay.currentStrokePath.None? then NoArrow
                        else DirectionalArrow(|overlay.currentStrokePath.value.guidancePoints|,
                                              old(overlay.animationProgress)))
      ensures overlay.currentStrokePath == old(overlay.currentStrokePath)
      ensures overlay.guidancePath == old(overlay.guidancePath)
      ensures overlay.isAnimating == old(overlay.isAnimating) && overlay.visible == old(overlay.visible)
      ensures overlay.currentStrokePath.Some? && overlay.isAnimating && !arrow.IndexOutOfBounds? ==>
                && overlay.animationProgress ==
                     AdvancedProgress(old(overlay.animationProgress), now - old(overlay.lastAnimationTime))
                && overlay.lastAnimationTime == now
      ensures !(overlay.currentStrokePath.Some? && overlay.isAnimating && !arrow.IndexOutOfBounds?) ==>
                && overlay.animationProgress == old(overlay.animationProgress)
                && overlay.lastAnimationTime == old(overlay.lastAnimationTime)
      ensures old(overlay.ProgressInRange()) ==> !arrow.IndexOutOfBounds?
      ensures old(overlay.ProgressInRange()) && now >= old(overlay.lastAnimationTime) ==> overlay.ProgressInRange()
    {
      arrow := overlay.Draw(now);
    }
  }
}
