# Stroke tracing and guidance engine of the Bengali alphabet trainer

This project models the engine of an Android app that teaches Bengali letters by tracing. It proves properties of that model. The engine has three cooperating parts and the immutable character data they work on:

- **Tracing canvas** (`Tracing.TracingCanvas`). It captures one freehand stroke at a time. A move is recorded only when it is at least 4 units away from the last recorded sample on one axis. On pointer up the canvas asks its validator for a verdict. The validator in the code is a placeholder: a stroke is valid when a reference stroke remains and at least 10 samples were captured. On a valid verdict the canvas moves to the next stroke. It reports everything to its listener: stroke started, progress, stroke completed (valid or not), character completed.
- **Guidance manager** (`Guidance.GuidanceManager`). It is the canvas's listener. It keeps its own stroke index and a count of consecutive failures. On the third failure and every later one it shows guidance for the current stroke, if there is one. It hides guidance when a stroke starts, when the character is completed, on a new character and on a reset.
- **Guidance overlay** (`Overlay.GuidanceOverlay`). It holds the guided stroke and the stroke's polyline. It also holds an animation clock that moves a directional arrow along the guidance points. The overlay is visible or invisible.
- **Data** (`Characters`). A character, its strokes and their points are immutable value records.

Each listener becomes an event log: a `seq` of events that the object appends to. Clock readings become a `now` parameter in milliseconds. `Guidance.GuidedTracing` wires the manager onto the canvas, as the manager's `init` block does. It forwards every event the canvas reports to the manager's callback of the same name. With the two wired together and driven only through `GuidedTracing`, the proofs show that the manager's stroke index and the canvas's stroke index stay equal.

Stroke validation in the code is marked as a placeholder (`views/TracingCanvasView.kt:181-183` and `194-196`): the verdict counts samples and does not compare the stroke with the reference path, and the progress report is the constant 0.5. The model states that behaviour as it is. Two more behaviours of the code are modelled as written:
- Guidance is shown on every failure from the third on: the check `failedAttempts >= maxFailedAttempts` in `manager/GuidanceManager.kt:101` holds again on the fourth, fifth and later failures. `Scenarios.RepeatedFailures` shows this.
- When the animation progress reaches 1 it is set back to 0 (`views/GuidanceOverlayView.kt:140-142`), dropping the excess instead of carrying it over. `Overlay.AnimationRestartsInsteadOfWrapping` shows this.

## Model

| member | source | states |
|---|---|---|
| Characters.DifficultyDefaultsToOne | BengaliAlphabetAppComplete/app/src/main/java/com/example/bengalialphabetapp/model/BengaliCharacter.kt:7-15 | A character built without a difficulty has difficulty 1 and keeps the strokes it was given |
| Characters.CharacterTypeHasFiveValues | BengaliAlphabetAppComplete/app/src/main/java/com/example/bengalialphabetapp/model/BengaliCharacter.kt:20-26 | There are exactly five character categories: VOWEL, CONSONANT, VOWEL_SIGN, CONJUNCT, NUMBER |
| Characters.PointEqualityIsStructural | BengaliAlphabetAppComplete/app/src/main/java/com/example/bengalialphabetapp/model/BengaliCharacter.kt:44 | Two points are equal iff both coordinates are equal |
| Characters.StrokeEqualityIsStructural | BengaliAlphabetAppComplete/app/src/main/java/com/example/bengalialphabetapp/model/BengaliCharacter.kt:32-39 | Two strokes are equal iff all six fields are equal |
| Characters.SampleCharacter | BengaliAlphabetAppComplete/app/src/main/java/com/example/bengalialphabetapp/MainActivity.kt:19-46 | The demonstration vowel has one stroke. The stroke has nine guidance points; the first and last are both (50, 50) |
| Tracing.Abs | BengaliAlphabetAppComplete/app/src/main/java/com/example/bengalialphabetapp/views/TracingCanvasView.kt:130-131 | The absolute value is non-negative and equals the argument or its negation |
| Tracing.SignificantMotionIsPerAxis | BengaliAlphabetAppComplete/app/src/main/java/com/example/bengalialphabetapp/views/TracingCanvasView.kt:129-134 | A move is ignored exactly when it stays less than 4 units from the last sample on both axes |
| Tracing.CompletionCountAppend | BengaliAlphabetAppComplete/app/src/main/java/com/example/bengalialphabetapp/views/TracingCanvasView.kt:159-162 | Counting completion events in a log distributes over concatenation of logs |
| Tracing.SuffixCountAppend | BengaliAlphabetAppComplete/app/src/main/java/com/example/bengalialphabetapp/views/TracingCanvasView.kt:159-162 | Appending events changes the completion count of any suffix of the log by the count of the new events |
| Tracing.ProgressReport | BengaliAlphabetAppComplete/app/src/main/java/com/example/bengalialphabetapp/views/TracingCanvasView.kt:176-184 | A recorded sample reports at most one progress event. It reports one, of value 0.5, iff a stroke remains to be traced |
| Tracing.TracingCanvas.constructor | BengaliAlphabetAppComplete/app/src/main/java/com/example/bengalialphabetapp/views/TracingCanvasView.kt:46-55 | Starts with no strokes, index 0, an empty buffer, not tracing, last position (0, 0) and an empty log, with the invariant holding |
| Tracing.TracingCanvas.SetReferenceStrokePaths | BengaliAlphabetAppComplete/app/src/main/java/com/example/bengalialphabetapp/views/TracingCanvasView.kt:69-74 | Replaces the strokes, sets the index to 0, empties the buffer and clears tracing. Reports nothing and starts a new count of completions |
| Tracing.TracingCanvas.ResetCanvas | BengaliAlphabetAppComplete/app/src/main/java/com/example/bengalialphabetapp/views/TracingCanvasView.kt:79-84 | Empties the buffer and clears tracing; the strokes, the index, the last position and the log are unchanged |
| Tracing.TracingCanvas.TouchStart | BengaliAlphabetAppComplete/app/src/main/java/com/example/bengalialphabetapp/views/TracingCanvasView.kt:117-127 | The buffer becomes exactly [(x, y)], the last position (x, y), tracing set, and StrokeStarted is reported once |
| Tracing.TracingCanvas.TouchMove | BengaliAlphabetAppComplete/app/src/main/java/com/example/bengalialphabetapp/views/TracingCanvasView.kt:129-146 | A move of at least 4 on an axis appends exactly (x, y), moves the last position there and reports the progress report. A smaller move changes nothing. A non-empty buffer always ends at the last position |
| Tracing.TracingCanvas.ValidateCurrentStroke | BengaliAlphabetAppComplete/app/src/main/java/com/example/bengalialphabetapp/views/TracingCanvasView.kt:176-184 | Reports progress 0.5 only while a stroke remains, and nothing otherwise |
| Tracing.TracingCanvas.ValidateStrokeCompletion | BengaliAlphabetAppComplete/app/src/main/java/com/example/bengalialphabetapp/views/TracingCanvasView.kt:189-197 | Valid only when the stroke list is non-empty and the index is in range. Invalid with fewer than 10 samples. Valid whenever the index is in range and there are 10 samples or more |
| Tracing.TracingCanvas.TouchUp | BengaliAlphabetAppComplete/app/src/main/java/com/example/bengalialphabetapp/views/TracingCanvasView.kt:148-171 | Valid: reports StrokeCompleted(true), advances the index, then reports CharacterCompleted iff the end is reached. Invalid: reports StrokeCompleted(false), index unchanged. Always clears tracing, keeps the buffer and the invariant; at most one completion since the strokes were set |
| Overlay.PolylineIsUnique | BengaliAlphabetAppComplete/app/src/main/java/com/example/bengalialphabetapp/views/GuidanceOverlayView.kt:76-90 | The polyline through a point list is unique, and the empty list gives the empty path |
| Overlay.TruncateToInt | BengaliAlphabetAppComplete/app/src/main/java/com/example/bengalialphabetapp/views/GuidanceOverlayView.kt:155 | Conversion to an integer truncates towards zero: the result is within 1 of the argument, on the same side of 0 and no farther from 0 |
| Overlay.TruncatedPositionInRange | BengaliAlphabetAppComplete/app/src/main/java/com/example/bengalialphabetapp/views/GuidanceOverlayView.kt:155 | For progress in [0, 1) and at least two points, the truncated position is an index from 0 to n - 2 |
| Overlay.DirectionalArrow | BengaliAlphabetAppComplete/app/src/main/java/com/example/bengalialphabetapp/views/GuidanceOverlayView.kt:150-159 | No arrow iff fewer than two points. Any arrow has both indices in bounds. For progress in [0, 1) there is always an arrow: its index is the floor of progress * (n - 1), at most n - 2, and the next index is one more |
| Overlay.AdvancedProgress | BengaliAlphabetAppComplete/app/src/main/java/com/example/bengalialphabetapp/views/GuidanceOverlayView.kt:135-145 | Adds elapsed / 2000 to the progress and resets to 0 once 1 is reached, so the result is below 1. It is non-negative for a non-negative progress and elapsed time |
| Overlay.AnimationRestartsInsteadOfWrapping | BengaliAlphabetAppComplete/app/src/main/java/com/example/bengalialphabetapp/views/GuidanceOverlayView.kt:139-142 | 500 ms from the start give 0.25; 2000 ms more give 0, not 0.25 |
| Overlay.GuidanceOverlay.constructor | BengaliAlphabetAppComplete/app/src/main/java/com/example/bengalialphabetapp/views/GuidanceOverlayView.kt:52-61 | Starts with no stroke, an empty path, progress 0, time 0 and no animation |
| Overlay.GuidanceOverlay.SetGuidanceForStroke | BengaliAlphabetAppComplete/app/src/main/java/com/example/bengalialphabetapp/views/GuidanceOverlayView.kt:66-71 | Stores the stroke, rebuilds its polyline and restarts the animation at 0, now; visibility unchanged |
| Overlay.GuidanceOverlay.PrepareGuidancePath | BengaliAlphabetAppComplete/app/src/main/java/com/example/bengalialphabetapp/views/GuidanceOverlayView.kt:76-90 | The path becomes the polyline whose vertices are the guided stroke's points in order (empty without a stroke or points) |
| Overlay.GuidanceOverlay.StartAnimation | BengaliAlphabetAppComplete/app/src/main/java/com/example/bengalialphabetapp/views/GuidanceOverlayView.kt:95-100 | Progress 0, animating, last animation time now |
| Overlay.GuidanceOverlay.StopAnimation | BengaliAlphabetAppComplete/app/src/main/java/com/example/bengalialphabetapp/views/GuidanceOverlayView.kt:105-107 | Clears only the animating flag; the progress is frozen |
| Overlay.GuidanceOverlay.UpdateAnimation | BengaliAlphabetAppComplete/app/src/main/java/com/example/bengalialphabetapp/views/GuidanceOverlayView.kt:135-145 | The progress advances by the elapsed time and the time becomes now. A progress in [0, 1) stays in [0, 1) when the clock does not go backwards |
| Overlay.GuidanceOverlay.Draw | BengaliAlphabetAppComplete/app/src/main/java/com/example/bengalialphabetapp/views/GuidanceOverlayView.kt:109-130 | A pass places the arrow by the progress so far. It advances the animation only when animating with a stroke set. With progress in [0, 1) the arrow never indexes out of bounds |
| Overlay.GuidanceOverlay.ShowGuidance | BengaliAlphabetAppComplete/app/src/main/java/com/example/bengalialphabetapp/views/GuidanceOverlayView.kt:184-187 | Visible, and the animation restarted at 0, now |
| Overlay.GuidanceOverlay.HideGuidance | BengaliAlphabetAppComplete/app/src/main/java/com/example/bengalialphabetapp/views/GuidanceOverlayView.kt:192-195 | Not animating and invisible |
| Guidance.LastRestart | BengaliAlphabetAppComplete/app/src/main/java/com/example/bengalialphabetapp/manager/GuidanceManager.kt:36-55 | The position just after the newest new-character, reset or valid completion in the history, 0 if there is none. Nothing after it is a restart |
| Guidance.FailureCountAppend | BengaliAlphabetAppComplete/app/src/main/java/com/example/bengalialphabetapp/manager/GuidanceManager.kt:96-97 | One more input adds one to the failure count iff it is an invalid completion |
| Guidance.TrailingFailuresStep | BengaliAlphabetAppComplete/app/src/main/java/com/example/bengalialphabetapp/manager/GuidanceManager.kt:89-105 | Helper for the manager's callbacks: one step of the kept count's definition (0 after a restart, one more after a failure, otherwise unchanged). The property itself is Guidance.TrailingFailuresSinceRestart |
| Guidance.TrailingFailuresSinceRestart | BengaliAlphabetAppComplete/app/src/main/java/com/example/bengalialphabetapp/manager/GuidanceManager.kt:36-55 | The kept failure count equals the number of invalid completions since the last valid completion, new character or reset |
| Guidance.GuidanceManager.constructor | BengaliAlphabetAppComplete/app/src/main/java/com/example/bengalialphabetapp/manager/GuidanceManager.kt:11-24 | No character, index 0, no failures, no events |
| Guidance.GuidanceManager.SetCharacter | BengaliAlphabetAppComplete/app/src/main/java/com/example/bengalialphabetapp/manager/GuidanceManager.kt:36-46 | Stores the character, index 0, no failures. Hands its strokes to the canvas, which restarts at stroke 0 with an empty buffer and keeps its log and last position. Hides guidance, keeping the guided stroke and the animation clock |
| Guidance.GuidanceManager.Reset | BengaliAlphabetAppComplete/app/src/main/java/com/example/bengalialphabetapp/manager/GuidanceManager.kt:51-55 | No failures, guidance hidden, the canvas buffer emptied. The character and both stroke indices are unchanged |
| Guidance.GuidanceManager.ShowGuidance | BengaliAlphabetAppComplete/app/src/main/java/com/example/bengalialphabetapp/manager/GuidanceManager.kt:60-69 | With a character and the index in range: guides the current stroke, shows, restarts the animation and reports GuidanceActivated. Otherwise the overlay and the log are unchanged |
| Guidance.GuidanceManager.HideGuidance | BengaliAlphabetAppComplete/app/src/main/java/com/example/bengalialphabetapp/manager/GuidanceManager.kt:74-76 | The overlay stops animating and is invisible; stroke, path and progress are kept |
| Guidance.GuidanceManager.OnStrokeStarted | BengaliAlphabetAppComplete/app/src/main/java/com/example/bengalialphabetapp/manager/GuidanceManager.kt:80-83 | Hides guidance and changes no counter |
| Guidance.GuidanceManager.OnStrokeProgress | BengaliAlphabetAppComplete/app/src/main/java/com/example/bengalialphabetapp/manager/GuidanceManager.kt:85-87 | Changes nothing but the input history |
| Guidance.GuidanceManager.OnStrokeCompleted | BengaliAlphabetAppComplete/app/src/main/java/com/example/bengalialphabetapp/manager/GuidanceManager.kt:89-105 | Valid: no failures, index + 1, StrokeSuccess, overlay untouched. Invalid: failures + 1, StrokeFailed(new count), then GuidanceActivated and guidance shown iff the count is at least 3 and a stroke can be guided |
| Guidance.GuidanceManager.OnCharacterCompleted | BengaliAlphabetAppComplete/app/src/main/java/com/example/bengalialphabetapp/manager/GuidanceManager.kt:107-110 | Hides guidance, then reports CharacterCompleted |
| Guidance.GuidedTracing.constructor | BengaliAlphabetAppComplete/app/src/main/java/com/example/bengalialphabetapp/manager/GuidanceManager.kt:29-31 | A fresh canvas and overlay with the manager installed as the listener. All three invariants and the index agreement hold. Canvas: no strokes, index 0, empty buffer, not tracing, last position (0, 0), empty log. Overlay: no stroke, empty path, progress 0 (so in [0, 1)), time 0, not animating. Manager: no character, no failures, empty log and history |
| Guidance.GuidedTracing.SetCharacter | BengaliAlphabetAppComplete/app/src/main/java/com/example/bengalialphabetapp/manager/GuidanceManager.kt:36-46 | Both indices become 0, the canvas holds the character's strokes with an empty buffer, and the count of completions starts afresh at the current end of the canvas log, at 0. The canvas keeps its log and last position. Guidance is hidden; the overlay keeps its stroke, progress and time. The manager records the new character |
| Guidance.GuidedTracing.Reset | BengaliAlphabetAppComplete/app/src/main/java/com/example/bengalialphabetapp/manager/GuidanceManager.kt:51-55 | No failures and guidance hidden; the overlay keeps its stroke, progress and time. The canvas buffer is emptied; the strokes, the indices, the canvas log and the last position are unchanged. The manager records the reset |
| Guidance.GuidedTracing.TouchStart | BengaliAlphabetAppComplete/app/src/main/java/com/example/bengalialphabetapp/views/TracingCanvasView.kt:117-127 | A new capture at (x, y), StrokeStarted reported and received by the manager. The manager hides guidance; the overlay keeps its stroke, progress and time. The failure count and the indices are unchanged |
| Guidance.GuidedTracing.TouchMove | BengaliAlphabetAppComplete/app/src/main/java/com/example/bengalialphabetapp/views/TracingCanvasView.kt:129-146 | The canvas's motion rule: a significant move appends the sample, moves the last position and reports the progress report, which the manager receives as its next inputs; a smaller move changes nothing. Failure count, indices, tracing flag and manager log are unchanged |
| Guidance.GuidedTracing.TouchUp | BengaliAlphabetAppComplete/app/src/main/java/com/example/bengalialphabetapp/views/TracingCanvasView.kt:148-171 | The canvas reports the verdict, then CharacterCompleted iff a valid stroke reached the end, and the manager receives exactly those events. Valid: the indices advance together and the overlay keeps its stroke, progress and time; it is untouched unless the character is finished, when guidance is hidden. Invalid: one more failure, and guidance activated for the current stroke iff the count is at least 3 and the character is unfinished; otherwise the overlay is untouched. Buffer and last position kept. The start of the current character's completion window is kept, and at most one completion lies in it |
| Guidance.GuidedTracing.Draw | BengaliAlphabetAppComplete/app/src/main/java/com/example/bengalialphabetapp/views/GuidanceOverlayView.kt:109-130 | One overlay draw pass: the arrow from the old progress; progress and time advanced iff animating with a stroke and in bounds, otherwise kept; stroke, path, flags kept. With progress in [0, 1) the arrow is in bounds, and the range is kept when the clock does not go backwards |
| Scenarios.NewSampleTracing | BengaliAlphabetAppComplete/app/src/main/java/com/example/bengalialphabetapp/MainActivity.kt:54-69 | The wired engine set to the sample character: one stroke of nine points, index 0, no failures, empty log, completion window starting at the end of the canvas log. No stroke guided yet and progress in [0, 1) |
| Scenarios.FirstDraw | BengaliAlphabetAppComplete/app/src/main/java/com/example/bengalialphabetapp/views/GuidanceOverlayView.kt:109-130 | The first draw pass of a newly set-up engine draws no arrow and leaves the progress in [0, 1) |
| Scenarios.FailedAttempt | BengaliAlphabetAppComplete/app/src/main/java/com/example/bengalialphabetapp/manager/GuidanceManager.kt:80-104 | On a one-stroke character, a touch hides guidance and its immediate release counts one more failure; from the third on guidance is activated for the stroke, restarted at 0 |
| Scenarios.RepeatedFailures | BengaliAlphabetAppComplete/app/src/main/java/com/example/bengalialphabetapp/manager/GuidanceManager.kt:96-104 | On the sample character, four failed attempts report failures 1 to 4. Guidance is activated after the third and, after the fourth touch hid it, again after the fourth; the index stays 0 |
| Scenarios.DrawsFromStart | BengaliAlphabetAppComplete/app/src/main/java/com/example/bengalialphabetapp/views/GuidanceOverlayView.kt:135-159 | Over nine guidance points with the animation at 0: draws at 0, 500 and 1000 ms place the arrow at points 0 to 1, 0 to 1, and 2 to 3 |
| Scenarios.GuidedDraws | BengaliAlphabetAppComplete/app/src/main/java/com/example/bengalialphabetapp/views/GuidanceOverlayView.kt:109-130 | After three failures on the sample character, successive draw passes of the wired engine place the arrow at points 0 to 1, 0 to 1, and 2 to 3 as the animation advances |
| Scenarios.TraceTenSamples | BengaliAlphabetAppComplete/app/src/main/java/com/example/bengalialphabetapp/views/TracingCanvasView.kt:117-146 | A touch and nine moves 5 units apart capture ten samples on the first stroke of a one-stroke character, reporting nothing to the manager's listener |
| Scenarios.CompletedOnce | BengaliAlphabetAppComplete/app/src/main/java/com/example/bengalialphabetapp/views/TracingCanvasView.kt:148-171 | On the sample character, after a completing stroke a further attempt is invalid and counted as failure 1, without guidance, and the canvas has reported the character complete exactly once since it was set |
| Scenarios.SuccessfulTrace | BengaliAlphabetAppComplete/app/src/main/java/com/example/bengalialphabetapp/views/TracingCanvasView.kt:148-171 | On the sample character, a stroke of ten samples 5 units apart is accepted and completes the character. A reset afterwards leaves it complete with no failures |

## Left out

- Rendering is not modelled: paints, canvas drawing calls, the dashed path effect, the guidance dots, and the arrow's body and heads. Only the state behind drawing is modelled: the point buffer, the polyline commands and the arrow's indices.
- The arrow's angle is not modelled. It is computed with `atan2` and a degree conversion, which is floating-point trigonometry.
- The quadratic-Bézier smoothing of the user's drawn path is not modelled.
- Coordinates and progress are exact reals. Single-precision rounding is not modelled, and neither is the NaN and overflow behaviour of the float-to-int conversion.
- Time: each clock reading is the `now` parameter. All readings within one event are taken to be the same instant. `invalidate` and `postInvalidateOnAnimation` only schedule frames and are left out.
- Visibility is a boolean. The overlay's visibility before the first show or hide comes from the layout, which is not part of this model, so it is a constructor parameter.
- Listeners: each object's listener is its event log. The case of no listener installed is not modelled separately, because it only drops the same callbacks.
- Guidance.GuidedTracing forwards the canvas's events after the canvas method returns, not while it runs. The order of the events is the same. This is observably equivalent because no callback of the manager reads or changes the canvas.
- Touch-event dispatch in `onTouchEvent` is left out. `TouchStart`, `TouchMove` and `TouchUp` are exposed directly.
- MainActivity is not part of this model: toasts, buttons, view binding, audio and the activity stub. Only its sample character is used, as a test fixture.
- Guidance.GuidanceManager.OnStrokeCompleted: does not model 32-bit wrap-around of the failure counter, because it would take more than two billion consecutive failures.
- Overlay.GuidanceOverlay.UpdateAnimation: the progress stays in [0, 1) only while clock readings do not go backwards. A clock that goes backwards can make the progress negative. When the truncated index is then negative (progress * (n - 1) <= -1; truncation towards zero maps the range (-1, 0) to index 0), Overlay.DirectionalArrow reports the out-of-bounds index at which the source's list access would throw.
- Calls made directly on the canvas or the overlay, bypassing the manager, are outside Guidance.GuidedTracing. For example, `setReferenceStrokePaths` is public, and calling it directly would break the agreement between the two stroke indices; the model does not cover that use.
