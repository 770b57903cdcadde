/** The tracing canvas: it captures one freehand stroke at a time, judges it
    against the current reference stroke and advances through the
    character's strokes. What the canvas would tell its listener is kept
    as an event log. */
module Tracing {
  import opened Characters

  /** The least motion, on either axis, that records a new sample. */
  const TouchTolerance: real := 4.0

  /** The fewest samples a stroke needs to be accepted. */
  const MinStrokeSamples: nat := 10

  /** The progress value reported after every recorded sample. */
  const PlaceholderProgress: real := 0.5

  /** The callbacks of the canvas's listener, one constructor each. */
  datatype TracingEvent =
    | StrokeStarted
    | StrokeProgress(progress: real)
    | StrokeCompleted(isValid: bool)
    | CharacterCompleted

  function Abs(r: real): (a: real)
    ensures a >= 0.0
    ensures a == r || a == -r
  {
    if r < 0.0 then -r else r
  }

  /** Whether a move to (x, y) from the last recorded sample is large enough
      to be recorded: at least the tolerance on one axis or the other. */
  predicate SignificantMotion(x: real, y: real, lastX: real, lastY: real)
  {
    Abs(x - lastX) >= TouchTolerance || Abs(y - lastY) >= TouchTolerance
  }

  /** A motion under the tolerance on both axes stays within a square of
      side twice the tolerance around the last sample, and a motion at
      least the tolerance away on one axis is recorded. */
  lemma SignificantMotionIsPerAxis(x: real, y: real, lastX: real, lastY: real)
    ensures !SignificantMotion(x, y, lastX, lastY) <==>
              (lastX - TouchTolerance < x < lastX + TouchTolerance &&
               lastY - TouchTolerance < y < lastY + TouchTolerance)
  {
  }

  /** The number of CharacterCompleted events in a log. */
  function CompletionCount(es: seq<TracingEvent>): nat
  {
    if es == [] then 0
    else CompletionCount(es[..|es| - 1]) + (if es[|es| - 1] == CharacterCompleted then 1 else 0)
  }

  /** Counting completions distributes over concatenation of logs. */
  lemma {:induction false} CompletionCountAppend(a: seq<TracingEvent>, b: seq<TracingEvent>)
    ensures CompletionCount(a + b) == CompletionCount(a) + CompletionCount(b)
    decreases |b|
  {
    if b == [] {
      assert a + b == a;
    } else {
      var b' := b[..|b| - 1];
      assert (a + b)[..|a + b| - 1] == a + b';
      CompletionCountAppend(a, b');
    }
  }

  /** Appending events to a log changes the count of its suffix from any
      position by the count of the new events. */
  lemma SuffixCountAppend(es: seq<TracingEvent>, k: nat, more: seq<TracingEvent>)
    requires k <= |es|
    ensures CompletionCount((es + more)[k..]) == CompletionCount(es[k..]) + CompletionCount(more)
  {
    assert (es + more)[k..] == es[k..] + more;
    CompletionCountAppend(es[k..], more);
  }

  class TracingCanvas {
    var referenceStrokePaths: seq<StrokePath>
    var currentStrokeIndex: int
    var userStrokePoints: seq<Point>
    var isTracing: bool
    var lastX: real
    var lastY: real
    /** Every event the canvas has reported to its listener, oldest first. */
    var events: seq<TracingEvent>
    /** The length of `events` when the current reference strokes were set. */
    ghost var pathsSetAt: nat

    /** The canvas invariant: the stroke index lies in 0..|strokes|, a
        non-empty buffer ends at the last recorded position, and the
        character has been reported complete at most once since its
        strokes were set, exactly when the index reached the end of a
        non-empty stroke list. */
    ghost predicate Valid()
      reads this
    {
      && 0 <= currentStrokeIndex <= |referenceStrokePaths|
      && (|userStrokePoints| > 0 ==> userStrokePoints[|userStrokePoints| - 1] == Point(lastX, lastY))
      && pathsSetAt <= |events|
      && CompletionCount(events[pathsSetAt..]) ==
           (if 0 < |referenceStrokePaths| && currentStrokeIndex == |referenceStrokePaths| then 1 else 0)
    }

    /** Whether every stroke of the current character has been traced. */
    predicate Finished()
      reads this
    {
      currentStrokeIndex >= |referenceStrokePaths|
    }

    constructor ()
      ensures Valid()
      ensures referenceStrokePaths == [] && currentStrokeIndex == 0 && userStrokePoints == []
      ensures !isTracing && lastX == 0.0 && lastY == 0.0 && events == [] && pathsSetAt == 0
    {
      referenceStrokePaths := [];
      currentStrokeIndex := 0;
      userStrokePoints := [];
      isTracing := false;
      lastX, lastY := 0.0, 0.0;
      events := [];
      pathsSetAt := 0;
    }

    /** Replaces the reference strokes and starts over at the first one. */
    method SetReferenceStrokePaths(paths: seq<StrokePath>)
      requires Valid()
      modifies this
      ensures Valid()
      ensures referenceStrokePaths == paths && currentStrokeIndex == 0
      ensures userStrokePoints == [] && !isTracing
      ensures lastX == old(lastX) && lastY == old(lastY) && events == old(events)
      ensures pathsSetAt == |events|
    {
      referenceStrokePaths := paths;
      currentStrokeIndex := 0;
      pathsSetAt := |events|;
      ResetCanvas();
    }

    /** Discards the captured stroke; the stroke index is kept. */
    method ResetCanvas()
      requires Valid()
      modifies this
      ensures Valid()
      ensures userStrokePoints == [] && !isTracing
      ensures referenceStrokePaths == old(referenceStrokePaths)
      ensures currentStrokeIndex == old(currentStrokeIndex)
      ensures lastX == old(lastX) && lastY == old(lastY)
      ensures events == old(events) && pathsSetAt == old(pathsSetAt)
    {
      userStrokePoints := [];
      isTracing := false;
    }

    /** Pointer down: a new capture holding only (x, y). */
    method TouchStart(x: real, y: real)
      requires Valid()
      modifies this
      ensures Valid()
      ensures userStrokePoints == [Point(x, y)] && lastX == x && lastY == y && isTracing
      ensures events == old(events) + [StrokeStarted]
      ensures referenceStrokePaths == old(referenceStrokePaths)
      ensures currentStrokeIndex == old(currentStrokeIndex) && pathsSetAt == old(pathsSetAt)
    {
      lastX := x;
      lastY := y;
      userStrokePoints := [Point(x, y)];
      isTracing := true;
      SuffixCountAppend(events, pathsSetAt, [StrokeStarted]);
      events := events + [StrokeStarted];
    }

    /** Pointer move: records (x, y) only when it is far enough from the
        last recorded sample, and then reports progress. */
    method TouchMove(x: real, y: real)
      requires Valid()
      modifies this
      ensures Valid()
      ensures SignificantMotion(x, y, old(lastX), old(lastY)) ==>
                && userStrokePoints == old(userStrokePoints) + [Point(x, y)]
                && lastX == x && lastY == y
                && events == old(events) + ProgressReport(currentStrokeIndex, referenceStrokePaths)
      ensures !SignificantMotion(x, y, old(lastX), old(lastY)) ==>
                && userStrokePoints == old(userStrokePoints)
                && lastX == old(lastX) && lastY == old(lastY)
                && events == old(events)
      ensures userStrokePoints != [] ==> userStrokePoints[|userStrokePoints| - 1] == Point(lastX, lastY)
      ensures referenceStrokePaths == old(referenceStrokePaths)
      ensures currentStrokeIndex == old(currentStrokeIndex) && isTracing == old(isTracing)
      ensures pathsSetAt == old(pathsSetAt)
    {
      if SignificantMotion(x, y, lastX, lastY) {
        lastX := x;
        lastY := y;
        userStrokePoints := userStrokePoints + [Point(x, y)];
        ValidateCurrentStroke();
      }
    }

    /** Real-time feedback: a progress report, but only while a stroke
        remains to be traced. */
    method ValidateCurrentStroke()
      requires Valid()
      modifies this`events
      ensures Valid()
      ensures events == old(events) + ProgressReport(currentStrokeIndex, referenceStrokePaths)
    {
      if referenceStrokePaths == [] || currentStrokeIndex >= |referenceStrokePaths| {
        return;
      }
      SuffixCountAppend(events, pathsSetAt, [StrokeProgress(PlaceholderProgress)]);
      events := events + [StrokeProgress(PlaceholderProgress)];
    }

    /** The verdict on the captured stroke: it is accepted exactly when a
        stroke remains to be traced and enough samples were captured. */
    predicate ValidateStrokeCompletion()
      reads this
      ensures ValidateStrokeCompletion() ==>
                0 < |referenceStrokePaths| && currentStrokeIndex < |referenceStrokePaths|
      ensures |userStrokePoints| < MinStrokeSamples ==> !ValidateStrokeCompletion()
      ensures 0 <= currentStrokeIndex < |referenceStrokePaths| && |userStrokePoints| >= MinStrokeSamples ==>
                ValidateStrokeCompletion()
    {
      if referenceStrokePaths == [] || currentStrokeIndex >= |referenceStrokePaths| then false
      else |userStrokePoints| >= MinStrokeSamples
    }

    /** Pointer up: reports the verdict; an accepted stroke advances the
        index, and reaching the end reports the character complete. */
    method TouchUp()
      requires Valid()
      modifies this
      ensures Valid()
      ensures old(ValidateStrokeCompletion()) ==>
                && currentStrokeIndex == old(currentStrokeIndex) + 1
                && events == old(events) + [StrokeCompleted(true)] +
                             (if Finished() then [CharacterCompleted] else [])
      ensures !old(ValidateStrokeCompletion()) ==>
                && currentStrokeIndex == old(currentStrokeIndex)
                && events == old(events) + [StrokeCompleted(false)]
      ensures !isTracing
      ensures userStrokePoints == old(userStrokePoints) && referenceStrokePaths == old(referenceStrokePaths)
      ensures lastX == old(lastX) && lastY == old(lastY) && pathsSetAt == old(pathsSetAt)
      ensures CompletionCount(events[pathsSetAt..]) <= 1
    {
      var isStrokeValid := ValidateStrokeCompletion();
      if isStrokeValid {
        SuffixCountAppend(events, pathsSetAt, [StrokeCompleted(true)]);
        events := events + [StrokeCompleted(true)];
        currentStrokeIndex := currentStrokeIndex + 1;
        if currentStrokeIndex >= |referenceStrokePaths| {
          SuffixCountAppend(events, pathsSetAt, [CharacterCompleted]);
          events := events + [CharacterCompleted];
        }
      } else {
        SuffixCountAppend(events, pathsSetAt, [StrokeCompleted(false)]);
        events := events + [StrokeCompleted(false)];
      }
      isTracing := false;
    }
  }

  /** The events a recorded sample reports: one progress report while a
      stroke remains, none once the character is finished or has no strokes. */
  function ProgressReport(index: int, paths: seq<StrokePath>): (es: seq<TracingEvent>)
    ensures |es| <= 1
    ensures es != [] <==> (paths != [] && index < |paths|)
    ensures es != [] ==> es[0] == StrokeProgress(PlaceholderProgress)
  {
    if paths == [] || index >= |paths| then [] else [StrokeProgress(PlaceholderProgress)]
  }
}
