# YeyuEngine core, modelled in Dafny

YeyuEngine is a small JavaFX game engine. A game registers **views** (pages) and
**dialogs** by name with the engine. It switches between views with optional show and
hide animations. It shows one modal dialog at a time, which scales and fades in and out
along an eased Bezier curve. A frame **timer** turns the host's animation pulses into
rate-limited update calls, and the engine fans these out to the current view and dialog.
An **engine configuration** sets the frame rates, the window and the default
switching order.

This project models that core and proves what it promises.

| module (file) | source | what it models |
|---|---|---|
| `Exceptions` (exceptions.dfy) | — | the Java exceptions the core throws, `Outcome`, `Option` for nullable references |
| `Names` (names.dfy) | Size.java, Transition.java | the shared "first constant whose type name equals the string, else null" search |
| `Sizes` (size.dfy) | bean/Size.java | the dialog size classes and `fromTypeName` |
| `Transitions` (transition.dfy) | bean/Transition.java | the two opacity transitions, `fromTypeName`, `toKeyFrames` |
| `Animation` (animation.dfy) | — | the JavaFX objects the core touches: a node's opacity, key frames, timelines |
| `Views` (view.dfy) | core/View.java | a view's lazily created show and hide timelines |
| `BezierPoints` (bezier_point.dfy) | bean/BezierPoint.java | a mutable point and its in-place `boost` |
| `Bezier` (cubic_bezier.dfy) | utils/CubicBezier.java | the curve's control points, its precision and boost setters, de Casteljau sampling in `build` |
| `Dialogs` (dialog.dfy) | core/Dialog.java | the dialog's size classes, `open`/`close`, and the per-frame opening/closing animation with its close handler |
| `Config` (engine_config.dfy) | bean/EngineConfig.java | the configuration record, its defaults and its checked setters |
| `Timing` (engine_timer.dfy) | core/EngineTimer.java | the frame timer: pulse accumulation, dispatch, start/stop/reset, frame statistics |
| `Children` (children.dfy) | — | the root pane's child list as JavaFX manages it: add at an index or at the end, remove the first occurrence, `toFront` |
| `Scenes` (scenes.dfy) | core/YeyuEngine.java | what the view and dialog listeners, the hide-animation completion and the frame callback do to the root pane, as functions |
| `Engine` (yeyu_engine.dfy) | core/YeyuEngine.java, core/GameFX.java | the engine object: registries, current-view and current-dialog slots, switching, dialogs, frames, debug mode, configuration, launch, focus, shutdown |

Model assumptions:
- The current-view and current-dialog slots are JavaFX object properties. They notify their
  listener only when the stored reference changes.
- The root pane refuses a child it already holds, with an `IllegalArgumentException`.
  Thrown inside a listener, that exception goes to the uncaught-exception handler. The model
  records this as an `Uncaught(IllegalArgument)` event, and the listener stops there.
- The completion of a hide animation is an explicit step, `OutgoingFinished`. The handler
  installed on each hide animation is a map entry from that timeline to the pending switch.
- Calls into user code (engine hooks; views' and dialogs' launch, start, stop, show, hide
  and update hooks) and animation `play` calls are appended to an event log, in order.
  User code is assumed not to call back into the engine.
- Java `double` values are modelled as exact reals and timestamps as naturals.

The engine's invariant (`Engine.YeyuEngine.Valid`) has these parts:
- the timer is valid;
- both frame rates are at least 1;
- the root pane never holds a node twice;
- the only dialog the root pane may hold is the current one;
- the debug box is in the root pane exactly when the timer is in debug mode;
- when it is there, the debug box is the top-most child.

Every engine operation keeps this invariant. Each operation states its complete new state
in three parts: the registry and slot fields through `Fields()`; the root pane, pending
switches and event log through `Snapshot()`; and, when it touches the timer, the timer's
fields through `timer.State()`. Dialog objects are frame-checked: each operation names the
dialogs it may change (the current one, the one a handler targets) and states their new
phase and handler. The result is given by a `Scenes` function, and lemmas
in `Scenes` prove what those functions do.

## Model

| member | source | states |
|---|---|---|
| Names.FindByName | src/net/imyeyu/engine/bean/Size.java:25-32 | the result is the first constant, in declaration order, whose name equals the string; None exactly when no constant has that name |
| Names.FindOwnName | src/net/imyeyu/engine/bean/Transition.java:29-36 | when names are pairwise distinct, looking up a member's own name returns that member |
| Sizes.FromTypeName | src/net/imyeyu/engine/bean/Size.java:25-32 | a found size has the given type name; null exactly when no size has that name |
| Sizes.ValuesComplete | src/net/imyeyu/engine/bean/Size.java:12-17 | the six constants are all listed, and their type names are pairwise distinct |
| Sizes.FromTypeNameRoundTrip | src/net/imyeyu/engine/bean/Size.java:21-36 | `fromTypeName(getTypeName(s)) == s` for every size |
| Transitions.FromTypeName | src/net/imyeyu/engine/bean/Transition.java:29-36 | a found transition has the given type name; null for every string other than the two names |
| Transitions.FromTypeNameRoundTrip | src/net/imyeyu/engine/bean/Transition.java:20-36 | `fromTypeName(getTypeName(t)) == t` for both transitions |
| Transitions.ToKeyFrames | src/net/imyeyu/engine/bean/Transition.java:38-53 | the node's opacity is set to the start value (0 or 1); a negative duration then throws IllegalArgument and yields no frames; otherwise exactly two key frames, from that value at time 0 to the opposite value at `ms` |
| Animation.Node.constructor | src/net/imyeyu/engine/bean/Transition.java:42 | a fresh node is fully opaque |
| Animation.Timeline.constructor | src/net/imyeyu/engine/core/View.java:28 | a new timeline has the requested frame rate and no key frames |
| Animation.Timeline.SetAll | src/net/imyeyu/engine/core/View.java:30 | the key-frame list is replaced by the given one |
| Views.View.constructor | src/net/imyeyu/engine/core/View.java:19 | a view starts without show and hide timelines |
| Views.View.SetShowKeyFrames | src/net/imyeyu/engine/core/View.java:26-31 | the show timeline exists afterwards and holds exactly the given frames; it is created at 60 fps only if missing, otherwise the same object is reused; the hide timeline is untouched |
| Views.View.SetHideKeyFrames | src/net/imyeyu/engine/core/View.java:38-43 | the same for the hide timeline, with the show timeline untouched |
| BezierPoints.BoostByOne | src/net/imyeyu/engine/bean/BezierPoint.java:20-23 | boosting by 1 leaves a point unchanged |
| BezierPoints.BoostCompose | src/net/imyeyu/engine/bean/BezierPoint.java:20-23 | boosting by a and then by b equals boosting once by a·b |
| BezierPoints.BezierPoint.constructor | src/net/imyeyu/engine/bean/BezierPoint.java:15-18 | the point holds the given coordinates |
| BezierPoints.BezierPoint.Boost | src/net/imyeyu/engine/bean/BezierPoint.java:20-23 | both coordinates are multiplied by the factor, in place |
| Bezier.MixTwice | src/net/imyeyu/engine/utils/CubicBezier.java:97-102 | two rounds of de Casteljau interpolation over three numbers give the quadratic Bernstein polynomial |
| Bezier.MixQuadratics | src/net/imyeyu/engine/utils/CubicBezier.java:97-102 | interpolating two neighbouring quadratics gives the cubic Bernstein polynomial |
| Bezier.Expand | src/net/imyeyu/engine/utils/CubicBezier.java:99-100 | the polynomial identity behind the previous lemma |
| Bezier.MixThreeTimes | src/net/imyeyu/engine/utils/CubicBezier.java:97-102 | three interpolation rounds over four numbers give the cubic Bernstein polynomial |
| Bezier.DeCasteljauIsBernstein | src/net/imyeyu/engine/utils/CubicBezier.java:97-102 | the top of de Casteljau's pyramid over four control points is the Bernstein-form cubic Bezier point |
| Bezier.ParamIsMultiple | src/net/imyeyu/engine/utils/CubicBezier.java:92 | the parameter of sample i, accumulated step by step, is i·step |
| Bezier.ParamIncreasing | src/net/imyeyu/engine/utils/CubicBezier.java:92 | with a positive step, later samples have strictly larger parameters |
| Bezier.CountUnique | src/net/imyeyu/engine/utils/CubicBezier.java:92 | for a positive step, exactly one sample count keeps every parameter within [0, 1] and the next beyond it |
| Bezier.StepsFit | src/net/imyeyu/engine/utils/CubicBezier.java:92 | a sample whose parameter is at most 1 lies within the first ⌊1/step⌋ steps, so the model's loop terminates (the source's `float` loop need not; see "## Left out") |
| Bezier.SamplingUnique | src/net/imyeyu/engine/utils/CubicBezier.java:86-107 | two samplings of the same curve with the same step and boost are equal: `build` is deterministic |
| Bezier.CubicBezier.constructor | src/net/imyeyu/engine/utils/CubicBezier.java:42-51 | the control points are (0,0), (f0,f1), (f2,f3), (1,1); the step is 0.01 and the boost is 1 |
| Bezier.CubicBezier.Precision | src/net/imyeyu/engine/utils/CubicBezier.java:59-65 | a precision below 4 throws IllegalArgument and changes nothing; otherwise the step becomes 1/precision |
| Bezier.CubicBezier.Boost | src/net/imyeyu/engine/utils/CubicBezier.java:73-79 | a boost below 1 throws IllegalArgument and changes nothing; otherwise it is stored |
| Bezier.CubicBezier.EvaluateAt | src/net/imyeyu/engine/utils/CubicBezier.java:93-102 | the in-place interpolation passes over a copy of the control points leave de Casteljau's point at t in p[0] |
| Bezier.CubicBezier.Build | src/net/imyeyu/engine/utils/CubicBezier.java:86-107 | the list is the boosted curve sampled at 0, step, 2·step, … for every parameter up to 1, in order, and starts at the origin |
| Dialogs.MaxSizeIncreasing | src/net/imyeyu/engine/core/Dialog.java:100-109 | a size class declared later gives a strictly wider and taller maximum pane |
| Dialogs.Advance | src/net/imyeyu/engine/core/Dialog.java:116-145 | one update keeps the cursor within the curve; the close handler runs exactly when a closing animation ends; no update raises a flag |
| Dialogs.OpeningRun | src/net/imyeyu/engine/core/Dialog.java:111-145 | after open, k updates advance the cursor k frames up to the curve's length and then drop the opening flag; no close handler runs |
| Dialogs.ClosingRun | src/net/imyeyu/engine/core/Dialog.java:116-150 | after close, k updates advance the cursor up to the curve's length, and the close handler runs exactly once |
| Dialogs.IdleRun | src/net/imyeyu/engine/core/Dialog.java:116-145 | a dialog neither opening nor closing stays that way and never runs its close handler |
| Dialogs.BothFlagsAdvanceTwice | src/net/imyeyu/engine/core/Dialog.java:119-137 | when opening and closing overlap, one update moves the shared cursor two frames |
| Dialogs.Dialog.constructor | src/net/imyeyu/engine/core/Dialog.java:46-51 | a dialog over a given curve starts idle at frame 0, fully visible, with no close handler and no size |
| Dialogs.Dialog.Default | src/net/imyeyu/engine/core/Dialog.java:46 | the default curve is CubicBezier(.08, .82, .17, 1) sampled at precision 12, starting at the origin |
| Dialogs.Dialog.SetSize | src/net/imyeyu/engine/core/Dialog.java:100-109 | the maximum pane size becomes the size class's; the animation state is untouched |
| Dialogs.Dialog.Open | src/net/imyeyu/engine/core/Dialog.java:111-114 | the cursor restarts at 0 with the opening flag raised; a closing in progress keeps its flag; the handler and the whole look (y, scale, opacity, maximum size) are kept |
| Dialogs.Dialog.Close | src/net/imyeyu/engine/core/Dialog.java:147-150 | the cursor restarts at 0 with the closing flag raised; an opening in progress keeps its flag; the handler and the whole look are kept |
| Dialogs.Drawn | src/net/imyeyu/engine/core/Dialog.java:116-145 | the look after one update keeps the maximum size, leaves an idle dialog unchanged, and otherwise has scale .4 + .6 × opacity, with the opacity in [0, 1] for a curve inside [0, 1] |
| Dialogs.Dialog.OnUpdate | src/net/imyeyu/engine/core/Dialog.java:116-145 | the state moves as `Advance` says; the returned handler is the one held when a close completes; the look becomes `Drawn` of the old phase and look: scale and opacity follow the curve point read (.4+.6y and y opening, 1−.6y and 1−y closing), the maximum size is kept |
| Config.EngineConfig.constructor | src/net/imyeyu/engine/bean/EngineConfig.java:36-54 | defaults, as one `Settings` record: 60 and 12 fps, title 夜雨游戏引擎, no style sheets, 850×620, resizable, no debug, in-before-out |
| Config.EngineConfig.SetFPS | src/net/imyeyu/engine/bean/EngineConfig.java:61-66 | below 1 throws IllegalArgument and leaves every setting as it was; otherwise the whole settings record changes only in the rate; validity is kept |
| Config.EngineConfig.SetFPSMin | src/net/imyeyu/engine/bean/EngineConfig.java:77-82 | the same for the unfocused rate |
| Config.EngineConfig.SetCSS | src/net/imyeyu/engine/bean/EngineConfig.java:122-124 | the given sheets are appended after the existing ones, which are kept; no other setting changes; validity is unchanged |
| Config.EngineConfig.SetSize | src/net/imyeyu/engine/bean/EngineConfig.java:162-165 | the settings record changes only in width and height, which take the given values |
| Config.EngineConfig.SetWidth | src/net/imyeyu/engine/bean/EngineConfig.java:135-137 | the settings record changes only in the width |
| Config.EngineConfig.SetHeight | src/net/imyeyu/engine/bean/EngineConfig.java:148-150 | the settings record changes only in the height |
| Config.EngineConfig.SetTitle | src/net/imyeyu/engine/bean/EngineConfig.java:109-111 | the settings record changes only in the title |
| Config.EngineConfig.SetCanResize | src/net/imyeyu/engine/bean/EngineConfig.java:185-187 | the settings record changes only in the resizable flag |
| Config.EngineConfig.SetDebug | src/net/imyeyu/engine/bean/EngineConfig.java:198-200 | the settings record changes only in the debug flag |
| Config.EngineConfig.SetInBeforeOut | src/net/imyeyu/engine/bean/EngineConfig.java:211-213 | the settings record changes only in the switching-order flag |
| Timing.Pulse | src/net/imyeyu/engine/core/EngineTimer.java:103-121 | the gap is accumulated only when a previous timestamp is known; the pulse dispatches exactly when the accumulated delta reaches the frame time, carrying the whole accumulated delta; exactly one frame time is subtracted |
| Timing.FrameTotalIsProduct | src/net/imyeyu/engine/core/EngineTimer.java:118 | n frame times subtracted one at a time total n·frameTime |
| Timing.RunConserves | src/net/imyeyu/engine/core/EngineTimer.java:103-121 | over any run of pulses, the final delta is the initial delta plus all accumulated gaps minus one frame time per dispatch |
| Timing.RunDispatchesAtMostOncePerPulse | src/net/imyeyu/engine/core/EngineTimer.java:110-119 | a run of pulses dispatches at most once per pulse |
| Timing.RunKeepsDeltaNonNegative | src/net/imyeyu/engine/core/EngineTimer.java:103-121 | with timestamps that never go backwards, the accumulated delta never goes negative |
| Timing.UnsetFrameTimeAlwaysDispatches | src/net/imyeyu/engine/core/EngineTimer.java:103-121 | while the frame time is still zero (setFPS never called), every pulse dispatches |
| Timing.StallLeavesBacklog | src/net/imyeyu/engine/core/EngineTimer.java:110-119 | after a stall of two frame times or more, one pulse dispatches once and still leaves at least a frame time of backlog |
| Timing.NextMean | src/net/imyeyu/engine/core/EngineTimer.java:198-201 | the new mean times n+1 equals the old mean times n plus the new interval in milliseconds |
| Timing.MeanTracksSum | src/net/imyeyu/engine/core/EngineTimer.java:198-201 | the running mean is, after every frame, the mean of all recorded intervals |
| Timing.ToMillis | src/net/imyeyu/engine/core/EngineTimer.java:270-290 | nanoseconds convert to milliseconds (×10⁻⁶) |
| Timing.ToSeconds | src/net/imyeyu/engine/core/EngineTimer.java:297-317 | nanoseconds convert to seconds (×10⁻⁹), a thousandth of the milliseconds |
| Timing.FrameNanos | src/net/imyeyu/engine/core/EngineTimer.java:356 | the frame time times the rate is one second in nanoseconds, and is positive |
| Timing.EngineTimer.constructor | src/net/imyeyu/engine/core/EngineTimer.java:46-55 | the whole timer state: stopped, at the given rate, frame time 0, zeroed clock, no statistics, no hooks |
| Timing.EngineTimer.SetFPS | src/net/imyeyu/engine/core/EngineTimer.java:351-357 | a rate below 1 throws IllegalArgument and leaves the whole timer state as it was; otherwise only the rate and the frame time 10⁹/rate change |
| Timing.EngineTimer.SetDebug | src/net/imyeyu/engine/core/EngineTimer.java:226-228 | only the debug flag changes |
| Timing.EngineTimer.SetHooks | src/net/imyeyu/engine/core/YeyuEngine.java:145-176 | the start, update and stop hooks are installed as given; nothing else in the timer state changes |
| Timing.EngineTimer.Reset | src/net/imyeyu/engine/core/EngineTimer.java:234-236 | the new state is `Cleared` of the old: clock fields and frame count zeroed, the pulse handler's own previous timestamp and everything else kept |
| Timing.EngineTimer.Start | src/net/imyeyu/engine/core/EngineTimer.java:85-91 | the start hook fires if installed (on every call); the new state is the cleared old state, running |
| Timing.EngineTimer.Stop | src/net/imyeyu/engine/core/EngineTimer.java:94-100 | the stop hook fires if installed; the new state is the cleared old state, stopped |
| Timing.EngineTimer.AddFrame | src/net/imyeyu/engine/core/EngineTimer.java:198-201 | only the statistics change: the frame count grows by one, the interval is recorded and the mean follows `NextMean` |
| Timing.EngineTimer.Handle | src/net/imyeyu/engine/core/EngineTimer.java:103-121 | the new state is `Handled` of the old (the accumulator moves as `Pulse` says, and in debug mode a dispatched frame is recorded); an update is passed on only when the update hook is installed |
| Timing.Cleared | src/net/imyeyu/engine/core/EngineTimer.java:234-236 | a reset zeroes the frame count and the clock and keeps the handler timestamp, the mean, the rate and the flags |
| Timing.Handled | src/net/imyeyu/engine/core/EngineTimer.java:103-121 | one pulse moves the accumulator as `Pulse` says, sets the current time, adds a frame to the statistics exactly when it dispatches to an update hook in debug mode, and changes no other field |
| Children.Insert | src/net/imyeyu/engine/core/YeyuEngine.java:340-344 | adding at index 0 puts the node at the bottom with the rest after it; adding at the end puts it on top |
| Children.Remove | src/net/imyeyu/engine/core/YeyuEngine.java:368 | removing an absent node changes nothing; otherwise the list shrinks by one |
| Children.ToFront | src/net/imyeyu/engine/core/YeyuEngine.java:91-93 | toFront of an absent node changes nothing; otherwise the node ends on top with the length unchanged |
| Children.InsertMember | src/net/imyeyu/engine/core/YeyuEngine.java:340-344 | insertion adds exactly that node |
| Children.InsertDistinct | src/net/imyeyu/engine/core/YeyuEngine.java:340-344 | inserting an absent node into a list without repeats keeps it without repeats |
| Children.RemoveMember | src/net/imyeyu/engine/core/YeyuEngine.java:368 | removal takes out the node and keeps every other |
| Children.RemoveDistinct | src/net/imyeyu/engine/core/YeyuEngine.java:368 | in a list without repeats, removal leaves no copy of the node and no repeats |
| Children.ToFrontMember | src/net/imyeyu/engine/core/YeyuEngine.java:91-93 | toFront keeps the same set of nodes |
| Children.ToFrontDistinct | src/net/imyeyu/engine/core/YeyuEngine.java:91-93 | toFront keeps a list without repeats |
| Children.DistinctTail | src/net/imyeyu/engine/core/YeyuEngine.java:368 | the tail of a list without repeats has none and does not hold the head |
| Children.ConsDistinct | src/net/imyeyu/engine/core/YeyuEngine.java:341 | an absent node put in front of a list without repeats gives a list without repeats |
| Children.ToFrontIdempotent | src/net/imyeyu/engine/core/YeyuEngine.java:91-93 | moving the same node to the front twice equals doing it once |
| Children.RemoveLast | src/net/imyeyu/engine/core/YeyuEngine.java:368 | removing a node just appended gives the original list back |
| Children.RemoveAt | src/net/imyeyu/engine/core/YeyuEngine.java:368 | in a list without repeats, removal cuts out exactly the node's position |
| Children.RemoveBeforeTail | src/net/imyeyu/engine/core/YeyuEngine.java:368 | removing a node found before an appended tail leaves that tail in place |
| Children.RemoveKeepsTop | src/net/imyeyu/engine/core/YeyuEngine.java:368 | removing a node other than the top-most one leaves the top-most node on top |
| Children.ToFrontKeepsBottom | src/net/imyeyu/engine/core/YeyuEngine.java:341-346 | moving another node to the front keeps the bottom node at the bottom |
| Children.ToFrontAfterAppend | src/net/imyeyu/engine/core/YeyuEngine.java:343-346 | after an append and a toFront of another node, the appended node is on top or right under that node |
| Scenes.Entered | src/net/imyeyu/engine/core/YeyuEngine.java:338-353 | a view already on the pane is refused and nothing changes; otherwise the pane grows by one and the view's show hook and show animation follow |
| Scenes.Exited | src/net/imyeyu/engine/core/YeyuEngine.java:361-378 | with a hide animation, a successful exit leaves the switch pending on that animation; without one, nothing is left pending |
| Scenes.Settled | src/net/imyeyu/engine/core/YeyuEngine.java:78-95 | a listener that completed records nothing more; one that was refused leaves the pane as it was and records the uncaught exception |
| Scenes.Switched | src/net/imyeyu/engine/core/YeyuEngine.java:327 | setting the slot to the view it already holds changes nothing |
| Scenes.Finished | src/net/imyeyu/engine/core/YeyuEngine.java:366-372 | the completion handler removes its own pending entry |
| Scenes.Completed | src/net/imyeyu/engine/core/YeyuEngine.java:366-373 | a timeline with no pending switch changes nothing; afterwards none is pending on it |
| Scenes.Activated | src/net/imyeyu/engine/core/YeyuEngine.java:99-109 | a new dialog is added and its show hook runs; one already on the pane is refused, leaving the pane and recording the uncaught exception |
| Scenes.Target | src/net/imyeyu/engine/core/YeyuEngine.java:441-445 | the dialog a close handler makes current is the one registered under the name when the handler runs, or none if the name is unregistered or the handler clears the dialog |
| Scenes.Dismissed | src/net/imyeyu/engine/core/YeyuEngine.java:441-445 | a close handler first runs the closed dialog's hide hook, before anything else is recorded |
| Scenes.ViewFramed | src/net/imyeyu/engine/core/YeyuEngine.java:157-160 | a view update leaves the pane and the pending switches alone |
| Scenes.DialogFramed | src/net/imyeyu/engine/core/YeyuEngine.java:161-164 | without a current dialog the dialog half of the frame does nothing |
| Scenes.Framed | src/net/imyeyu/engine/core/YeyuEngine.java:156-165 | a frame never changes the pending switches |
| Scenes.WithDebugBox | src/net/imyeyu/engine/core/YeyuEngine.java:237-252 | in debug mode the debug box is on the pane |
| Scenes.RootInvariantKept | src/net/imyeyu/engine/core/YeyuEngine.java:78-95 | changes that only add or remove views keep the pane invariant, the debug box on top included |
| Scenes.ViewsOnlyTrans | src/net/imyeyu/engine/core/YeyuEngine.java:361-378 | "changes only views" composes |
| Scenes.ToFrontViewsOnly | src/net/imyeyu/engine/core/YeyuEngine.java:91-93 | moving the debug box forward changes only the order and leaves it on top |
| Scenes.RemoveViewsOnly | src/net/imyeyu/engine/core/YeyuEngine.java:368 | removing a view changes only views and keeps the debug box on top |
| Scenes.EnteredViewsOnly | src/net/imyeyu/engine/core/YeyuEngine.java:338-353 | putting up a view changes only views, leaves the debug box on top, and the view is on the pane afterwards |
| Scenes.ExitedViewsOnly | src/net/imyeyu/engine/core/YeyuEngine.java:361-378 | taking down a view changes only views |
| Scenes.ToggledViewsOnly | src/net/imyeyu/engine/core/YeyuEngine.java:78-95 | the view listener changes only views: dialogs and the debug box stay, the debug box stays on top, and no repeats appear |
| Scenes.FinishedViewsOnly | src/net/imyeyu/engine/core/YeyuEngine.java:366-372 | the hide-animation completion changes only views |
| Scenes.FirstViewEntersAtOnce | src/net/imyeyu/engine/core/YeyuEngine.java:78-95 | the first view goes in at once: at the bottom in in-before-out mode, otherwise on top or right under the debug box; the toggle hook, then the show hook and animation |
| Scenes.DuplicateEntryIsReported | src/net/imyeyu/engine/core/YeyuEngine.java:88-90 | a first view already on the pane leaves the pane untouched, with the uncaught exception after the toggle hook |
| Scenes.InBeforeOutKeepsOutgoing | src/net/imyeyu/engine/core/YeyuEngine.java:361-373 | in-before-out with a hide animation: the new view goes in at the bottom at once, the old one stays, and the hide animation plays with the switch pending |
| Scenes.InBeforeOutFinishes | src/net/imyeyu/engine/core/YeyuEngine.java:366-372 | when that animation ends, the old view's hide hook runs, the view leaves the pane, and the new view stays at the bottom |
| Scenes.RemoveKeepsHead | src/net/imyeyu/engine/core/YeyuEngine.java:368 | removing anything but the bottom node keeps the bottom node |
| Scenes.InAfterOutDefers | src/net/imyeyu/engine/core/YeyuEngine.java:361-373 | in-after-out with a hide animation: nothing goes in yet; the animation plays with the switch pending |
| Scenes.InAfterOutFinishes | src/net/imyeyu/engine/core/YeyuEngine.java:366-372 | when that animation ends, the old view leaves and the new one goes on top or right under the debug box |
| Scenes.InBeforeOutRoundTrip | src/net/imyeyu/engine/core/YeyuEngine.java:321-373 | a whole in-before-out switch ends with the old view gone and the new one at the bottom, with the hooks in the order toggle, show, play, hide |
| Scenes.InAfterOutRoundTrip | src/net/imyeyu/engine/core/YeyuEngine.java:321-373 | a whole in-after-out switch ends with the old view gone and the new one on top, with the hooks in the order toggle, play, hide, show |
| Scenes.NoHideAnimationSwapsAtOnce | src/net/imyeyu/engine/core/YeyuEngine.java:374-377 | without a hide animation the old view goes and the new one comes in the same step, at the bottom in in-before-out mode |
| Scenes.DetachedOutgoingInsertsNothing | src/net/imyeyu/engine/core/YeyuEngine.java:85-90 | when the old view is no longer on the pane, a switch inserts nothing; only the toggle hook runs |
| Scenes.DialogRemoved | src/net/imyeyu/engine/core/YeyuEngine.java:441-445 | removing the current dialog leaves a pane with no dialog, the debug box still on top |
| Scenes.ActivatedKeeps | src/net/imyeyu/engine/core/YeyuEngine.java:99-109 | on a pane without dialogs, the dialog listener adds the new dialog exactly once and keeps the pane invariant, the debug box moved back on top |
| Scenes.DismissedKeeps | src/net/imyeyu/engine/core/YeyuEngine.java:441-466 | a close handler keeps the invariant: the closed dialog leaves; the target, if another dialog, is shown and is the only dialog |
| Scenes.ViewUpdatedBeforeDialog | src/net/imyeyu/engine/core/YeyuEngine.java:156-165 | on a frame the current view is updated before the current dialog |
| Scenes.DebugBoxAtMostOnce | src/net/imyeyu/engine/core/YeyuEngine.java:237-252 | switching debug mode keeps the invariant with the new mode (an added debug box goes on top), and switching again to the same mode changes nothing |
| Engine.YeyuEngine.constructor | src/net/imyeyu/engine/core/YeyuEngine.java:58-125 | empty registries, slots, root pane and log; frame rates 60/12; a fresh timer whose whole state is stopped at 60 fps with no hooks |
| Engine.YeyuEngine.SetHooks | src/net/imyeyu/engine/core/GameFX.java:25-27 | only the engine hooks change |
| Engine.YeyuEngine.RegView | src/net/imyeyu/engine/core/YeyuEngine.java:260-262 | the view is stored under the name, replacing any other; nothing else changes |
| Engine.YeyuEngine.UnregView | src/net/imyeyu/engine/core/YeyuEngine.java:269-276 | an unknown name does nothing; the view on show throws Security and stays; otherwise the name is removed |
| Engine.YeyuEngine.RegDialog | src/net/imyeyu/engine/core/YeyuEngine.java:386-388 | the dialog is stored under the name; nothing else changes |
| Engine.YeyuEngine.UnregDialog | src/net/imyeyu/engine/core/YeyuEngine.java:395-402 | an unknown name does nothing; the current dialog throws Security and stays; otherwise the name is removed |
| Engine.YeyuEngine.ViewIn | src/net/imyeyu/engine/core/YeyuEngine.java:338-353 | the pane and log become as `Scenes.Entered` says; the registries and slots are untouched |
| Engine.YeyuEngine.ViewOut | src/net/imyeyu/engine/core/YeyuEngine.java:361-378 | the pane, pending switches and log become as `Scenes.Exited` says |
| Engine.YeyuEngine.ViewChanged | src/net/imyeyu/engine/core/YeyuEngine.java:78-95 | the view listener's effect is `Scenes.Toggled`, with the toggle hook as installed |
| Engine.YeyuEngine.GotoView | src/net/imyeyu/engine/core/YeyuEngine.java:311-313 | switches with the configured default ordering, as GotoViewWith |
| Engine.YeyuEngine.GotoViewWith | src/net/imyeyu/engine/core/YeyuEngine.java:321-331 | an unregistered name throws NullPointer and changes nothing; otherwise the target's show animation, the current view's hide animation (or none) and the ordering are recorded, the slot is set, and the pane follows `Scenes.Switched` |
| Engine.YeyuEngine.Prepare | src/net/imyeyu/engine/core/YeyuEngine.java:324-326 | the show and hide animations and the ordering of the switch are recorded; nothing else changes |
| Engine.YeyuEngine.SetCurrentView | src/net/imyeyu/engine/core/YeyuEngine.java:327 | the slot holds the view, the listener runs only on a change, and the invariant is kept |
| Engine.YeyuEngine.OutgoingFinished | src/net/imyeyu/engine/core/YeyuEngine.java:366-373 | the end of a hide animation runs its pending switch, if any (`Scenes.Completed`), and keeps the invariant |
| Engine.YeyuEngine.TakeDown | src/net/imyeyu/engine/core/YeyuEngine.java:366-372 | the body of the completion handler, as `Scenes.Finished` |
| Engine.YeyuEngine.SetCurrentDialog | src/net/imyeyu/engine/core/YeyuEngine.java:99-109 | on a change to a dialog it is added (`Scenes.Activated`) and opened, its handler and look kept; otherwise the pane is unchanged; the invariant is kept |
| Engine.YeyuEngine.DialogShow | src/net/imyeyu/engine/core/YeyuEngine.java:437-453 | an unregistered name throws NullPointer and changes nothing; with a dialog on show, only that one may change: it gets a "show the named dialog" handler and starts closing, its look kept; otherwise only the named dialog may change: it is shown and opened at once, its handler and look kept |
| Engine.YeyuEngine.DialogClose | src/net/imyeyu/engine/core/YeyuEngine.java:459-470 | the dialog on show, if any, gets a "no dialog" handler and starts closing, its look kept; nothing else changes |
| Engine.YeyuEngine.Dismiss | src/net/imyeyu/engine/core/YeyuEngine.java:441-445 | the handler removes the dialog (its phase, handler and look untouched), runs its hide hook and sets the slot to the handler's target, looked up when it runs; a target other than the closed dialog is opened with its handler and look kept; only that target may change; the invariant is kept |
| Engine.YeyuEngine.OnFrame | src/net/imyeyu/engine/core/YeyuEngine.java:156-165 | the current view is updated, then the current dialog advances as `Dialogs.Advance` says and is redrawn as `Dialogs.Drawn` says; a completed close runs the handler it held, the slot moves to that handler's target, and that target (if another dialog) is opened with its handler and look kept; only the current dialog and that target may change |
| Engine.YeyuEngine.DialogFrame | src/net/imyeyu/engine/core/YeyuEngine.java:161-164 | the dialog half of the frame: the dialog's phase and look after its update, the handler it fires, and the target it opens with handler and look kept |
| Engine.YeyuEngine.Pulse | src/net/imyeyu/engine/core/EngineTimer.java:103-121 | a stopped timer or a pulse without dispatch leaves the engine and the current dialog as they were; a running one moves to `Timing.Handled` of its state, and on a dispatch the frame callback runs with the accumulated time: the current dialog advances and is redrawn, and the target of a completed close is opened with its handler and look kept |
| Engine.YeyuEngine.SetDebug | src/net/imyeyu/engine/core/YeyuEngine.java:237-252 | only the timer's debug flag changes in its state, and the debug box is added on top (only if missing) or removed; the invariant holds with the new mode |
| Engine.YeyuEngine.SetConfig | src/net/imyeyu/engine/core/YeyuEngine.java:210-230 | the default ordering, both frame rates, the title, the size, the resizable flag and (only when non-empty) the style sheets are taken from the configuration; only the debug flag changes in the timer's state (its rate is left alone) |
| Engine.YeyuEngine.Adopt | src/net/imyeyu/engine/core/YeyuEngine.java:211-228 | the fields a configuration sets directly |
| Engine.YeyuEngine.Launch | src/net/imyeyu/engine/core/YeyuEngine.java:131-192 | the hooks run in the order init, views' and dialogs' launch, their start, launch; the timer's state is cleared with all three callbacks installed and running; the window is shown |
| Engine.YeyuEngine.StartTimer | src/net/imyeyu/engine/core/YeyuEngine.java:145-185 | the timer's state is cleared, with its start, update and stop callbacks installed, and running; the start callback runs every start hook |
| Engine.YeyuEngine.FocusChanged | src/net/imyeyu/engine/core/YeyuEngine.java:178-184 | once launched, only the timer's rate and frame time change, to the focused or unfocused rate; before launch the timer's state is unchanged |
| Engine.YeyuEngine.Shutdown | src/net/imyeyu/engine/core/YeyuEngine.java:198-203 | only an installed shutdown hook that answers yes stops the timer (its state cleared, stop hooks run) and closes the window; otherwise only the hook's call is recorded and the timer's state is unchanged |

## Left out

- The engine listener thread, which samples FPS and memory and builds the debug text, is left out. The `FrameStats` text formatting and the debug label's binding to it are left out too. They are display only.
- Bezier.CubicBezier.Build: the source's loop counter is a 32-bit `float`, and each step rounds `i + step` back to `float`. The model uses exact reals: its k-th parameter is exactly k·step, and it always takes ⌊1/step⌋ + 1 samples. The source's parameters are the float-rounded running sums instead. At precision 12, for example, the last one is 0.99999988 rather than 1, though both take 13 samples. For other precisions, rounding can change the sample count. For a precision above about 2^25, the step is below half a `float` unit in the last place at 0.5, so the counter stops advancing there and the source's loop never ends, while the model's does. None of this is captured.
- Timing.Pulse: Java `double` rounding of the accumulated nanoseconds is not modelled (exact reals).
- Dialogs.Dialog.constructor: the reflective creation of the inner pane and its styling (padding, background, border, shadow, offset) are left out. Only the state the animation drives is modelled: scale, opacity and maximum size.
- Stage and scene plumbing is left out: the background fill, cursor, icons, `requestFocus`, the debug label's layout, and the scene/stage wiring in the engine constructor. The window is reduced to title, size, resizable flag, style sheets and visibility.
- The window-close-request filter, which consumes the event when the shutdown hook answers no, is left out. Window events are not modelled; `Shutdown` models the engine's own shutdown path.
- Engine.YeyuEngine.RegView and Engine.YeyuEngine.RegDialog accept only non-null views and dialogs. Registering `null` under a name is left out.
- Transitions.ToKeyFrames and the two `FromTypeName` functions take non-null arguments. A `null` transition makes `toKeyFrames` throw NullPointerException at its `switch`. A `null` type name makes `fromTypeName` return null. Neither case is expressible, because the model's enumerations and strings have no null value.
- Engine.YeyuEngine.Launch: the views' and dialogs' hooks run in `HashMap` iteration order, which is unspecified. Each walk is one event recording the whole registry.
- The bodies of hooks in user code, and the animations' own timing, are left out. A `play` is an event, and the end of a hide animation is the explicit step `OutgoingFinished`.
- Dialogs.Dialog: the close handler is a value of a type parameter. The engine instantiates it with its two handlers, "show the named dialog" and "no dialog". Handlers that games install themselves are not modelled.
- Engine.YeyuEngine.Pulse: the timer's bookkeeping for a dispatch (`addFrame` in debug mode, and the subtraction of one frame time) runs in `Timing.EngineTimer.Handle` before the frame callback. In the source it runs after the callback returns. The callback touches only the engine, the pane and the dialogs, never the timer's fields, so the resulting state is the same.
- Engine.YeyuEngine.DialogFrame: the close handler runs after the dialog's update returns rather than inside its last statement. The handler touches only the engine and the pane, and the dialog only clears its closing flag afterwards, so the resulting state is the same.
- Engine.YeyuEngine.constructor: the window's width and height before any configuration are not read from the platform; 0.0 stands for "unset".
- Engine.YeyuEngine.Launch: a second launch would install a second focus listener. The model records only that the engine was launched.
- Engine.YeyuEngine.Shutdown: the hook's answer is an input; anything else the hook does is not modelled.
- Scenes.InBeforeOutRoundTrip and Scenes.InAfterOutRoundTrip state the events and the pane at the end of a switch, but not the pending switches. The pending switches are stated by the two halves each one composes (`InBeforeOutKeepsOutgoing`/`InBeforeOutFinishes` and `InAfterOutDefers`/`InAfterOutFinishes`).
- `getView`, `getCurrentView`, `getCurrentDialog`, `getDialog`, the read-only property accessors, `getStage` and the config getters are plain field reads, and they are used directly as fields. The timer's millisecond and second getters are the functions `NowMillis`…`DeltaSeconds`.
- Where the documentation and the code differ, the model follows the code. Two cases:
  - A dispatching pulse subtracts exactly one frame time, however large the backlog is (`Timing.StallLeavesBacklog`).
  - `regView` may replace the view on show under its name.
- The media players (`BGMServer`, `SoundServer`) and `Framework` are not part of this model.
