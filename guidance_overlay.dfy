/** The guidance overlay: the reference stroke drawn as a polyline, with a
    directional arrow that an animation clock moves along it. Only the
    state behind the drawing is modelled; `now` is the clock reading, in
    milliseconds, of the event being handled. */
module Overlay {
  import opened Wrappers
  import opened Characters

  /** Milliseconds for the arrow to travel the whole stroke. */
  const AnimationDuration: int := 2000

  /** One drawing command of a path. */
  datatype PathOp = MoveTo(to: Point) | LineTo(to: Point)

  /** What one draw pass does with the arrow: nothing (fewer than two
      guidance points), the arrow from one guidance point towards the next,
      or an index outside the point list (the list access throws). */
  datatype Arrow =
    | NoArrow
    | Arrow(pointIndex: nat, nextIndex: nat)
    | IndexOutOfBounds

  function GuidancePoints(stroke: Option<StrokePath>): seq<Point>
  {
    if stroke.None? then [] else stroke.value.guidancePoints
  }

  /** `path` is the polyline through `points`: one command per point, in
      order, a MoveTo for the first and a LineTo for each later one. */
  predicate IsPolylineThrough(path: seq<PathOp>, points: seq<Point>)
  {
    && |path| == |points|
    && (forall i :: 0 <= i < |path| ==> path[i].to == points[i])
    && (forall i :: 0 <= i < |path| ==> (path[i].MoveTo? <==> i == 0))
  }

  /** The polyline through a list of points is determined by it; in
      particular the empty list gives the empty path. */
  lemma PolylineIsUnique(p: seq<PathOp>, q: seq<PathOp>, points: seq<Point>)
    requires IsPolylineThrough(p, points) && IsPolylineThrough(q, points)
    ensures p == q
    ensures points == [] ==> p == []
  {
  }

  /** Kotlin's conversion of a number to an integer: it truncates towards zero. */
  function TruncateToInt(r: real): (k: int)
    ensures r >= 0.0 ==> 0 <= k && k as real <= r < k as real + 1.0
    ensures r < 0.0 ==> k <= 0 && k as real - 1.0 < r <= k as real
  {
    if r >= 0.0 then r.Floor else -((-r).Floor)
  }

  /** For a progress in [0, 1) and at least two points, truncating
      progress * (n - 1) gives an index from 0 to n - 2. */
  lemma TruncatedPositionInRange(progress: real, n: nat)
    requires n >= 2 && 0.0 <= progress < 1.0
    ensures var k := TruncateToInt(progress * (n - 1) as real);
            0 <= k <= n - 2 && k as real <= progress * (n - 1) as real < k as real + 1.0
  {
  }

  /** Where the arrow stands among `n` guidance points at `progress`: the
      point obtained by truncating progress * (n - 1), and the one after
      it, clamped to the last. */
  function DirectionalArrow(n: nat, progress: real): (a: Arrow)
    ensures n < 2 <==> a == NoArrow
    ensures a.Arrow? ==> a.pointIndex < n && a.nextIndex < n
    ensures n >= 2 && 0.0 <= progress < 1.0 ==>
              && a.Arrow?
              && a.pointIndex <= n - 2
              && a.nextIndex == a.pointIndex + 1
              && a.pointIndex as real <= progress * (n - 1) as real < a.pointIndex as real + 1.0
  {
    if n < 2 then NoArrow
    else
      var pointIndex := TruncateToInt(progress * (n - 1) as real);
      if 0.0 <= progress < 1.0 then
        TruncatedPositionInRange(progress, n);
        Arrow(pointIndex, if pointIndex + 1 <= n - 1 then pointIndex + 1 else n - 1)
      else if pointIndex < 0 || pointIndex >= n then IndexOutOfBounds
      else Arrow(pointIndex, if pointIndex + 1 <= n - 1 then pointIndex + 1 else n - 1)
  }

  /** The animation progress after `elapsed` milliseconds more: the share
      of the duration is added, and reaching 1 starts over at 0 (the
      excess is dropped, not carried over). */
  function AdvancedProgress(progress: real, elapsed: int): (r: real)
    ensures r < 1.0
    ensures progress + elapsed as real / AnimationDuration as real >= 1.0 ==> r == 0.0
    ensures progress + elapsed as real / AnimationDuration as real < 1.0 ==>
              r == progress + elapsed as real / AnimationDuration as real
    ensures 0.0 <= progress && 0 <= elapsed ==> 0.0 <= r
  {
    var advanced := progress + elapsed as real / AnimationDuration as real;
    if advanced >= 1.0 then 0.0 else advanced
  }

  /** From the start of an animation, half a second brings the arrow a
      quarter of the way; two more seconds bring it back to the start,
      not a quarter of the way again. */
  lemma AnimationRestartsInsteadOfWrapping()
    ensures AdvancedProgress(0.0, 500) == 0.25
    ensures AdvancedProgress(0.25, 2000) == 0.0
  {
  }

  class GuidanceOverlay {
    var currentStrokePath: Option<StrokePath>
    var guidancePath: seq<PathOp>
    var animationProgress: real
    var lastAnimationTime: int
    var isAnimating: bool
    /** The view's visibility: true for VISIBLE, false for INVISIBLE. */
    var visible: bool

    /** The drawn path is always the polyline through the guided stroke. */
    ghost predicate Valid()
      reads this
    {
      IsPolylineThrough(guidancePath, GuidancePoints(currentStrokePath))
    }

    /** The animation clock's range, which holds as long as the clock
        readings it is given never go backwards. */
    predicate ProgressInRange()
      reads this
    {
      0.0 <= animationProgress < 1.0
    }

    constructor (initiallyVisible: bool)
      ensures Valid() && ProgressInRange()
      ensures currentStrokePath == None && guidancePath == []
      ensures animationProgress == 0.0 && lastAnimationTime == 0 && !isAnimating
      ensures visible == initiallyVisible
    {
      currentStrokePath := None;
      guidancePath := [];
      animationProgress := 0.0;
      lastAnimationTime := 0;
      isAnimating := false;
      visible := initiallyVisible;
    }

    /** Guides `stroke` from now on, restarting the animation. */
    method SetGuidanceForStroke(stroke: StrokePath, now: int)
      modifies this
      ensures Valid() && ProgressInRange()
      ensures currentStrokePath == Some(stroke)
      ensures IsPolylineThrough(guidancePath, stroke.guidancePoints)
      ensures animationProgress == 0.0 && isAnimating && lastAnimationTime == now
      ensures visible == old(visible)
    {
      currentStrokePath := Some(stroke);
      PrepareGuidancePath();
      StartAnimation(now);
    }

    /** Rebuilds the drawn path from the guided stroke's points. */
    method PrepareGuidancePath()
      modifies this`guidancePath
      ensures Valid()
    {
      guidancePath := [];
      if currentStrokePath.Some? {
        var points := currentStrokePath.value.guidancePoints;
        if |points| > 0 {
          guidancePath := [MoveTo(points[0])];
          for i := 1 to |points|
            invariant IsPolylineThrough(guidancePath, points[..i])
          {
            guidancePath := guidancePath + [LineTo(points[i])];
          }
          assert points[..|points|] == points;
        }
      }
    }

    method StartAnimation(now: int)
      modifies this`isAnimating, this`animationProgress, this`lastAnimationTime
      ensures isAnimating && animationProgress == 0.0 && lastAnimationTime == now
      ensures ProgressInRange()
    {
      isAnimating := true;
      animationProgress := 0.0;
      lastAnimationTime := now;
    }

    /** Stops the animation; the progress stays where it is. */
    method StopAnimation()
      modifies this`isAnimating
      ensures !isAnimating
    {
      isAnimating := false;
    }

    /** Advances the clock to `now`. */
    method UpdateAnimation(now: int)
      modifies this`animationProgress, this`lastAnimationTime
      ensures animationProgress == AdvancedProgress(old(animationProgress), now - old(lastAnimationTime))
      ensures lastAnimationTime == now
      ensures old(ProgressInRange()) && now >= old(lastAnimationTime) ==> ProgressInRange()
    {
      var elapsedTime := now - lastAnimationTime;
      animationProgress := animationProgress + elapsedTime as real / AnimationDuration as real;
      if animationProgress >= 1.0 {
        animationProgress := 0.0;
      }
      lastAnimationTime := now;
    }

    /** One draw pass at time `now`: the arrow is placed by the progress
        reached so far, and then a running animation advances. A pass whose
        arrow index is out of bounds throws before the animation advances. */
    method Draw(now: int) returns (arrow: Arrow)
      requires Valid()
      modifies this`animationProgress, this`lastAnimationTime
      ensures Valid()
      ensures arrow == (if currentStrokePath.None? then NoArrow
                        else DirectionalArrow(|currentStrokePath.value.guidancePoints|, old(animationProgress)))
      ensures currentStrokePath.Some? && isAnimating && !arrow.IndexOutOfBounds? ==>
                && animationProgress == AdvancedProgress(old(animationProgress), now - old(lastAnimationTime))
                && lastAnimationTime == now
      ensures !(currentStrokePath.Some? && isAnimating && !arrow.IndexOutOfBounds?) ==>
                animationProgress == old(animationProgress) && lastAnimationTime == old(lastAnimationTime)
      ensures old(ProgressInRange()) ==> !arrow.IndexOutOfBounds?
      ensures old(ProgressInRange()) && now >= old(lastAnimationTime) ==> ProgressInRange()
    {
      if currentStrokePath.None? {
        return NoArrow;
      }
      arrow := DirectionalArrow(|currentStrokePath.value.guidancePoints|, animationProgress);
      if arrow.IndexOutOfBounds? {
        return;
      }
      if isAnimating {
        UpdateAnimation(now);
      }
    }

    method ShowGuidance(now: int)
      modifies this`visible, this`isAnimating, this`animationProgress, this`lastAnimationTime
      ensures visible && isAnimating && animationProgress == 0.0 && lastAnimationTime == now
      ensures ProgressInRange()
    {
      visible := true;
      StartAnimation(now);
    }

    /** Stops the animation and hides the overlay; the progress is kept. */
    method HideGuidance()
      modifies this`visible, this`isAnimating
      ensures !visible && !isAnimating
    {
      StopAnimation();
      visible := false;
    }
  }
}
