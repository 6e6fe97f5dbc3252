/** The engine object: the view and dialog registries, the current-view and current-dialog
    slots with their listeners, the root pane, the configuration it applies, its launch and
    shutdown, and the frame fan-out driven by the timer. What the listeners do to the root
    pane is stated by the functions of module Scenes.

    Model assumptions. The current-view and current-dialog slots notify their listener only
    when the stored reference actually changes. Hooks into user code (the engine's own and
    those of views and dialogs) are recorded as events; a hook's only input to the engine is
    the shutdown hook's answer. */
module Engine {
  import opened Exceptions
  import opened Children
  import opened Animation
  import opened Scenes
  import Dialogs
  import Timing
  import Config

  /** The dialog an option holds, as a set for frames. */
  function Held(o: Option<Dialog>): set<Dialog>
  {
    if o.Some? then {o.value} else {}
  }

  /** Which of the engine's hooks are installed: on initialisation, after launch, on each
      view switch, and on a shutdown request. */
  datatype Hooks = Hooks(init: bool, launch: bool, toggle: bool, shutdown: bool)

  /** The window settings the engine applies, and whether the window is showing. */
  datatype Window = Window(title: string, width: real, height: real, resizable: bool,
                           stylesheets: seq<string>, shown: bool)

  /** The engine's fields other than the scene, for stating what an operation leaves alone. */
  datatype Wiring = Wiring(
    views: map<string, View>, dialogs: map<string, Dialog>,
    currentView: Option<View>, currentDialog: Option<Dialog>,
    tlIn: Timeline?, tlOut: Timeline?, isInBeforeOut: bool, isInBeforeOutConfig: bool,
    fpsMax: int, fpsMin: int, hooks: Hooks, window: Window, launched: bool)

  class YeyuEngine {
    /** The registries, by name. */
    var views: map<string, View>
    var dialogs: map<string, Dialog>
    /** The current-view and current-dialog slots. */
    var currentView: Option<View>
    var currentDialog: Option<Dialog>
    /** The root pane's children, bottom first. */
    var root: seq<Child>
    /** The animations of the latest switch: the target's show animation and the previous
        view's hide animation. */
    var tlIn: Timeline?
    var tlOut: Timeline?
    /** The ordering of the latest switch, and the default ordering from the configuration. */
    var isInBeforeOut: bool
    var isInBeforeOutConfig: bool
    /** The completion handler installed on each hide animation. */
    var onFinished: map<Timeline, ViewSwitch>
    /** Frame rates while the window is focused and while it is not. */
    var fpsMax: int
    var fpsMin: int
    const timer: Timing.EngineTimer
    var hooks: Hooks
    var window: Window
    /** Whether the engine was launched (and so the focus listener is installed). */
    var launched: bool
    var events: seq<Event>

    function Snapshot(): Scene
      reads this
    {
      Scene(root, onFinished, events)
    }

    function Fields(): Wiring
      reads this
    {
      Wiring(views, dialogs, currentView, currentDialog, tlIn, tlOut, isInBeforeOut,
             isInBeforeOutConfig, fpsMax, fpsMin, hooks, window, launched)
    }

    /** The dialog in the current-dialog slot, as a set for frames. */
    function Slot(): set<Dialog>
      reads this
    {
      Held(currentDialog)
    }

    /** The dialog the close handler held by dialog `d` would show, as a set for frames. */
    function Pending(d: Dialog): set<Dialog>
      reads this, d
    {
      if d.onClose.Some? then Held(Target(d.onClose.value, dialogs)) else {}
    }

    /** The same for the current dialog, if any. */
    function PendingSlot(): set<Dialog>
      reads this, Slot()
    {
      if currentDialog.Some? then Pending(currentDialog.value) else {}
    }

    /** The root pane never holds a node twice, holds no dialog but the current one, and
        holds the debug box exactly when the timer is in debug mode, on top. */
    ghost predicate Valid()
      reads this, timer
    {
      && timer.Valid()
      && fpsMax >= 1 && fpsMin >= 1
      && RootInvariant(root, currentDialog, timer.debug)
    }

    /** An engine with empty registries and slots, an empty root pane, no hooks, frame rates
        60 and 12, and a stopped 60-frame timer. */
    constructor ()
      ensures Valid()
      ensures Snapshot() == Scene([], map[], [])
      ensures Fields() == Wiring(map[], map[], None, None, null, null, false, false, 60, 12,
                                 Hooks(false, false, false, false), Window("", 0.0, 0.0, true, [], false), false)
      ensures fresh(timer)
      ensures timer.State() == Timing.TimerState(0.0, 0.0, 0.0, 0.0, 0.0, 60, 0, 0.0, [], 0.0,
                                                 false, false, false, false, false)
    {
      views, dialogs := map[], map[];
      currentView, currentDialog := None, None;
      root := [];
      tlIn, tlOut := null, null;
      isInBeforeOut, isInBeforeOutConfig := false, false;
      onFinished := map[];
      fpsMax, fpsMin := 60, 12;
      timer := new Timing.EngineTimer(60);
      hooks := Hooks(false, false, false, false);
      window := Window("", 0.0, 0.0, true, [], false);
      launched := false;
      events := [];
    }

    /** Installs the engine hooks (the application entry point installs the initialisation,
        launch and shutdown hooks). */
    method SetHooks(h: Hooks)
      requires Valid()
      modifies this
      ensures Valid()
      ensures Fields() == old(Fields()).(hooks := h) && Snapshot() == old(Snapshot())
    {
      hooks := h;
    }

    /** Registers (or replaces) the view under `name`. */
    method RegView(name: string, view: View)
      requires Valid()
      modifies this
      ensures Valid()
      ensures Fields() == old(Fields()).(views := old(views)[name := view])
      ensures Snapshot() == old(Snapshot())
    {
      views := views[name := view];
    }

    /** Unregisters the view under `name`: nothing happens when there is none; the view on
        show cannot be unregistered. */
    method UnregView(name: string) returns (outcome: Outcome)
      requires Valid()
      modifies this
      ensures Valid()
      ensures name !in old(views) ==> outcome == Normal && views == old(views)
      ensures name in old(views) && old(currentView) == Some(old(views)[name]) ==>
                outcome == Thrown(Security) && views == old(views)
      ensures name in old(views) && old(currentView) != Some(old(views)[name]) ==>
                outcome == Normal && views == old(views) - {name}
      ensures Fields() == old(Fields()).(views := views) && Snapshot() == old(Snapshot())
    {
      outcome := Normal;
      if name in views {
        if Some(views[name]) == currentView {
          return Thrown(Security);
        }
        views := views - {name};
      }
    }

    /** Registers (or replaces) the dialog under `name`. */
    method RegDialog(name: string, dialog: Dialog)
      requires Valid()
      modifies this
      ensures Valid()
      ensures Fields() == old(Fields()).(dialogs := old(dialogs)[name := dialog])
      ensures Snapshot() == old(Snapshot())
    {
      dialogs := dialogs[name := dialog];
    }

    /** Unregisters the dialog under `name`: nothing happens when there is none; the current
        dialog cannot be unregistered. */
    method UnregDialog(name: string) returns (outcome: Outcome)
      requires Valid()
      modifies this
      ensures Valid()
      ensures name !in old(dialogs) ==> outcome == Normal && dialogs == old(dialogs)
      ensures name in old(dialogs) && old(currentDialog) == Some(old(dialogs)[name]) ==>
                outcome == Thrown(Security) && dialogs == old(dialogs)
      ensures name in old(dialogs) && old(currentDialog) != Some(old(dialogs)[name]) ==>
                outcome == Normal && dialogs == old(dialogs) - {name}
      ensures Fields() == old(Fields()).(dialogs := dialogs) && Snapshot() == old(Snapshot())
    {
      outcome := Normal;
      if name in dialogs {
        if Some(dialogs[name]) == currentDialog {
          return Thrown(Security);
        }
        dialogs := dialogs - {name};
      }
    }

    /** Puts up view `v` with the current ordering and show animation. */
    method ViewIn(v: View) returns (ok: bool)
      modifies this
      ensures (Snapshot(), ok) == Entered(old(Snapshot()), v, isInBeforeOut, tlIn)
      ensures Fields() == old(Fields())
    {
      if ViewChild(v) in root {
        return false;
      }
      root := Insert(root, ViewChild(v), isInBeforeOut);
      root := ToFront(root, DebugBox);
      events := events + Entering(v, tlIn);
      ok := true;
    }

    /** Takes down view `o` for `v` with the current ordering and animations. */
    method ViewOut(o: View, v: View) returns (ok: bool)
      modifies this
      ensures (Snapshot(), ok) == Exited(old(Snapshot()), o, v, isInBeforeOut, tlIn, tlOut)
      ensures Fields() == old(Fields())
    {
      if tlOut != null {
        ok := true;
        if isInBeforeOut {
          ok := ViewIn(v);
          if !ok {
            return;
          }
        }
        onFinished := onFinished[tlOut := ViewSwitch(o, v)];
        events := events + [Played(tlOut)];
      } else {
        root := Remove(root, ViewChild(o));
        ok := ViewIn(v);
      }
    }

    /** The current-view listener, for a change from `o` to `v`. */
    method ViewChanged(o: Option<View>, v: View)
      modifies this
      ensures Snapshot() == Toggled(old(Snapshot()), o, v, hooks.toggle, isInBeforeOut, tlIn, tlOut)
      ensures Fields() == old(Fields())
    {
      ghost var s0 := old(Snapshot()).(events := old(events) + ToggleEvents(hooks.toggle));
      if hooks.toggle {
        events := events + [ToggleHook];
      }
      assert Snapshot() == s0;
      var ok := true;
      if o.Some? && ViewChild(o.value) in root {
        ok := ViewOut(o.value, v);
      }
      ghost var out := (Snapshot(), ok);
      assert out == if o.Some? && ViewChild(o.value) in s0.root then Exited(s0, o.value, v, isInBeforeOut, tlIn, tlOut) else (s0, true);
      if ok && o.None? {
        ok := ViewIn(v);
      }
      assert (Snapshot(), ok) == if out.1 && o.None? then Entered(out.0, v, isInBeforeOut, tlIn) else out;
      if ok {
        root := ToFront(root, DebugBox);
      } else {
        events := events + [Uncaught(IllegalArgument)];
      }
    }

    /** Switches to the view registered under `name` with the configured ordering. */
    method GotoView(name: string) returns (outcome: Outcome)
      requires Valid()
      modifies this
      ensures Valid()
      ensures name !in old(views) ==> outcome == Thrown(NullPointer) && Fields() == old(Fields()) && Snapshot() == old(Snapshot())
      ensures name in old(views) ==> outcome == Normal
      ensures name in old(views) ==>
                var target := old(views)[name];
                var leaving := if old(currentView).None? then null else old(currentView).value.hideTimeline;
                && Fields() == old(Fields()).(currentView := Some(target), tlIn := target.showTimeline, tlOut := leaving, isInBeforeOut := old(isInBeforeOutConfig))
                && Snapshot() == Switched(old(Snapshot()), old(currentView), target, hooks.toggle, old(isInBeforeOutConfig), target.showTimeline, leaving)
    {
      outcome := GotoViewWith(name, isInBeforeOutConfig);
    }

    /** Sets the current-view slot to `v`; the listener runs only if the slot changes. */
    method SetCurrentView(v: View)
      requires Valid()
      modifies this
      ensures Valid()
      ensures Fields() == old(Fields()).(currentView := Some(v))
      ensures Snapshot() == Switched(old(Snapshot()), old(currentView), v, hooks.toggle, isInBeforeOut, tlIn, tlOut)
    {
      var previous := currentView;
      currentView := Some(v);
      if previous != currentView {
        ghost var s := Snapshot();
        ViewChanged(previous, v);
        ToggledViewsOnly(s, previous, v, hooks.toggle, isInBeforeOut, tlIn, tlOut);
        RootInvariantKept(s.root, root, currentDialog, timer.debug);
      }
    }

    /** Switches to the view registered under `name`, putting the new view in before the
        old one's hide animation (`inBeforeOut`) or after it. */
    method GotoViewWith(name: string, inBeforeOut: bool) returns (outcome: Outcome)
      requires Valid()
      modifies this
      ensures Valid()
      ensures name !in old(views) ==> outcome == Thrown(NullPointer) && Fields() == old(Fields()) && Snapshot() == old(Snapshot())
      ensures name in old(views) ==> outcome == Normal
      ensures name in old(views) ==>
                var target := old(views)[name];
                var leaving := if old(currentView).None? then null else old(currentView).value.hideTimeline;
                && Fields() == old(Fields()).(currentView := Some(target), tlIn := target.showTimeline, tlOut := leaving, isInBeforeOut := inBeforeOut)
                && Snapshot() == Switched(old(Snapshot()), old(currentView), target, hooks.toggle, inBeforeOut, target.showTimeline, leaving)
    {
      if name !in views {
        return Thrown(NullPointer);
      }
      var target := views[name];
      Prepare(target, inBeforeOut);
      SetCurrentView(target);
      outcome := Normal;
    }

    /** Records the animations and the ordering of a switch to `target`. */
    method Prepare(target: View, inBeforeOut: bool)
      requires Valid()
      modifies this
      ensures Valid()
      ensures Fields() == old(Fields()).(tlIn := target.showTimeline,
                                         tlOut := if currentView.None? then null else currentView.value.hideTimeline,
                                         isInBeforeOut := inBeforeOut)
      ensures Snapshot() == old(Snapshot())
    {
      tlIn := target.showTimeline;
      tlOut := if currentView.None? then null else currentView.value.hideTimeline;
      isInBeforeOut := inBeforeOut;
    }

    /** The completion of hide animation `tl`: runs its pending switch, if any. */
    method OutgoingFinished(tl: Timeline)
      requires Valid()
      modifies this
      ensures Valid()
      ensures Snapshot() == Completed(old(Snapshot()), tl, isInBeforeOut, tlIn)
      ensures Fields() == old(Fields())
    {
      if tl in onFinished {
        ghost var s := Snapshot();
        TakeDown(tl, onFinished[tl]);
        FinishedViewsOnly(s, tl, s.pending[tl], isInBeforeOut, tlIn);
        RootInvariantKept(s.root, root, currentDialog, timer.debug);
      }
    }

    /** The body of the completion handler installed for switch `sw`. */
    method TakeDown(tl: Timeline, sw: ViewSwitch)
      modifies this
      ensures Snapshot() == Finished(old(Snapshot()), tl, sw, isInBeforeOut, tlIn)
      ensures Fields() == old(Fields())
    {
      onFinished := onFinished - {tl};
      events := events + [ViewHidden(sw.outgoing)];
      root := Remove(root, ViewChild(sw.outgoing));
      if !isInBeforeOut {
        var ok := ViewIn(sw.incoming);
        if !ok {
          events := events + [Uncaught(IllegalArgument)];
        }
      }
    }

    /** Sets the current-dialog slot to `next` while no dialog is on the pane; on a change
        to a dialog the listener adds it on top, opens it and runs its show hook. */
    method SetCurrentDialog(next: Option<Dialog>)
      requires Valid() && RootInvariant(root, None, timer.debug)
      modifies this, if next.Some? && next != currentDialog then {next.value} else {}
      ensures Valid()
      ensures Fields() == old(Fields()).(currentDialog := next)
      ensures Snapshot() == if next.Some? && next != old(currentDialog) then Activated(old(Snapshot()), next.value) else old(Snapshot())
      ensures next.Some? && next != old(currentDialog) ==>
                && next.value.Phase() == Dialogs.Transit(0, true, old(next.value.isClosing))
                && next.value.onClose == old(next.value.onClose) && next.value.Look() == old(next.value.Look())
    {
      var previous := currentDialog;
      currentDialog := next;
      if next.Some? && next != previous {
        var d := next.value;
        ActivatedKeeps(Snapshot(), d, timer.debug);
        root := ToFront(root + [DialogChild(d)], DebugBox);
        d.Open();
        events := events + [DialogShown(d)];
      }
    }

    /** Shows the dialog registered under `name`. With a dialog on show, that one is given a
        close handler that shows the named dialog and starts closing; otherwise the named
        dialog becomes current at once. */
    method DialogShow(name: string) returns (outcome: Outcome)
      requires Valid()
      modifies this, if currentDialog.Some? then Slot() else if name in dialogs then {dialogs[name]} else {}
      ensures Valid()
      ensures name !in old(dialogs) ==> outcome == Thrown(NullPointer) && Fields() == old(Fields()) && Snapshot() == old(Snapshot())
      ensures name in old(dialogs) ==> outcome == Normal
      ensures name in old(dialogs) && old(currentDialog).Some? ==>
                var d := old(currentDialog).value;
                && d.onClose == Some(ShowNext(name)) && d.Phase() == Dialogs.Transit(0, old(d.isOpening), true)
                && d.Look() == old(d.Look())
                && Fields() == old(Fields()) && Snapshot() == old(Snapshot())
      ensures name in old(dialogs) && old(currentDialog).None? ==>
                var d := old(dialogs)[name];
                && Fields() == old(Fields()).(currentDialog := Some(d))
                && Snapshot() == Activated(old(Snapshot()), d)
                && d.Phase() == Dialogs.Transit(0, true, old(d.isClosing)) && d.onClose == old(d.onClose)
                && d.Look() == old(d.Look())
    {
      if name !in dialogs {
        return Thrown(NullPointer);
      }
      outcome := Normal;
      if currentDialog.Some? {
        var d := currentDialog.value;
        d.onClose := Some(ShowNext(name));
        d.Close();
      } else {
        SetCurrentDialog(Some(dialogs[name]));
      }
    }

    /** Closes the dialog on show, if any: it is given a close handler that leaves no dialog
        current and starts closing. */
    method DialogClose()
      requires Valid()
      modifies Slot()
      ensures Valid()
      ensures Fields() == old(Fields()) && Snapshot() == old(Snapshot())
      ensures old(currentDialog).Some? ==>
                var d := old(currentDialog).value;
                d.onClose == Some(ClearDialog) && d.Phase() == Dialogs.Transit(0, old(d.isOpening), true)
                && d.Look() == old(d.Look())
    {
      if currentDialog.Some? {
        var d := currentDialog.value;
        d.onClose := Some(ClearDialog);
        d.Close();
      }
    }

    /** The body of an engine close handler of the current dialog `d`: `d` leaves the pane,
        its hide hook runs, and the slot is set to the handler's target, looked up now. */
    method Dismiss(d: Dialog, action: CloseAction)
      requires Valid() && currentDialog == Some(d)
      modifies this, Held(Target(action, dialogs))
      ensures Valid()
      ensures Fields() == old(Fields()).(currentDialog := Target(action, old(dialogs)))
      ensures Snapshot() == Dismissed(old(Snapshot()), d, Target(action, old(dialogs)))
      ensures d.Phase() == old(d.Phase()) && d.onClose == old(d.onClose) && d.Look() == old(d.Look())
      ensures var t := Target(action, old(dialogs));
              t.Some? && t != Some(d) ==>
                t.value.Phase() == Dialogs.Transit(0, true, old(t.value.isClosing)) && t.value.onClose == old(t.value.onClose)
                        && t.value.Look() == old(t.value.Look())
    {
      DialogRemoved(root, d, timer.debug);
      root := Remove(root, DialogChild(d));
      events := events + [DialogHidden(d)];
      var target := Target(action, dialogs);
      SetCurrentDialog(target);
    }

    /** The timer's update callback: the current view's update hook, then the current
        dialog's update; a close the dialog completes runs the handler it holds, which is
        returned as `fired`. */
    method OnFrame(time: real) returns (fired: Option<CloseAction>)
      requires Valid()
      modifies this, Slot(), PendingSlot()
      ensures Valid()
      ensures Snapshot() == Framed(old(Snapshot()), old(currentView), old(currentDialog), time, fired, old(dialogs))
      ensures Fields() == old(Fields()).(currentDialog := if fired.Some? then Target(fired.value, old(dialogs)) else old(currentDialog))
      ensures old(currentDialog).None? ==> fired == None
      ensures old(currentDialog).Some? ==>
                var d := old(currentDialog).value;
                var step := Dialogs.Advance(old(d.Phase()), |d.bps|);
                && d.Phase() == step.0 && fired == (if step.1 then old(d.onClose) else None)
                && d.Look() == Dialogs.Drawn(old(d.Phase()), old(d.Look()), d.bps)
                && (fired.Some? ==> var t := Target(fired.value, old(dialogs));
                      t.Some? && t != Some(d) ==>
                        t.value.Phase() == Dialogs.Transit(0, true, old(t.value.isClosing)) && t.value.onClose == old(t.value.onClose)
                        && t.value.Look() == old(t.value.Look()))
    {
      if currentView.Some? {
        events := events + [ViewUpdated(currentView.value, time)];
      }
      fired := None;
      if currentDialog.Some? {
        fired := DialogFrame(currentDialog.value, time);
      }
    }

    /** The current dialog's update within a frame, and the close handler it fires. */
    method DialogFrame(d: Dialog, time: real) returns (fired: Option<CloseAction>)
      requires Valid() && currentDialog == Some(d)
      modifies this, d, Pending(d)
      ensures Valid()
      ensures Snapshot() == DialogFramed(old(Snapshot()), Some(d), time, fired, old(dialogs))
      ensures Fields() == old(Fields()).(currentDialog := if fired.Some? then Target(fired.value, old(dialogs)) else Some(d))
      ensures var step := Dialogs.Advance(old(d.Phase()), |d.bps|);
              d.Phase() == step.0 && fired == (if step.1 then old(d.onClose) else None)
      ensures d.Look() == Dialogs.Drawn(old(d.Phase()), old(d.Look()), d.bps)
      ensures fired.Some? ==> var t := Target(fired.value, old(dialogs));
              t.Some? && t != Some(d) ==>
                t.value.Phase() == Dialogs.Transit(0, true, old(t.value.isClosing)) && t.value.onClose == old(t.value.onClose)
                        && t.value.Look() == old(t.value.Look())
    {
      events := events + [DialogUpdated(d, time)];
      fired := d.OnUpdate(time);
      if fired.Some? {
        Dismiss(d, fired.value);
      }
    }

    /** One animation pulse at `now` nanoseconds: nothing while the timer is stopped;
        otherwise the timer accumulates the time and, when it dispatches an update, the
        frame callback runs with the accumulated time. */
    method Pulse(now: nat) returns (update: Option<real>, fired: Option<CloseAction>)
      requires Valid()
      modifies this, timer, Slot(), PendingSlot()
      ensures Valid()
      ensures !old(timer.running) ==> update == None && timer.State() == old(timer.State())
      ensures old(timer.running) ==>
                var p := Timing.Pulse(old(timer.Accum()), now, old(timer.npf));
                && timer.State() == Timing.Handled(old(timer.State()), now)
                && timer.Accum() == p.0 && update == (if old(timer.hasUpdate) then p.1 else None)
      ensures update.None? ==> fired == None && Fields() == old(Fields()) && Snapshot() == old(Snapshot())
      ensures update.None? && old(currentDialog).Some? ==>
                var d := old(currentDialog).value;
                d.Phase() == old(d.Phase()) && d.onClose == old(d.onClose) && d.Look() == old(d.Look())
      ensures update.Some? ==>
                && Snapshot() == Framed(old(Snapshot()), old(currentView), old(currentDialog), update.value, fired, old(dialogs))
                && Fields() == old(Fields()).(currentDialog := if fired.Some? then Target(fired.value, old(dialogs)) else old(currentDialog))
      ensures update.Some? && old(currentDialog).Some? ==>
                var d := old(currentDialog).value;
                var step := Dialogs.Advance(old(d.Phase()), |d.bps|);
                && d.Phase() == step.0 && fired == (if step.1 then old(d.onClose) else None)
                && d.Look() == Dialogs.Drawn(old(d.Phase()), old(d.Look()), d.bps)
                && (fired.Some? ==> var t := Target(fired.value, old(dialogs));
                      t.Some? && t != Some(d) ==>
                        t.value.Phase() == Dialogs.Transit(0, true, old(t.value.isClosing)) && t.value.onClose == old(t.value.onClose)
                        && t.value.Look() == old(t.value.Look()))
    {
      update, fired := None, None;
      if timer.running {
        update := timer.Handle(now);
        if update.Some? {
          fired := OnFrame(update.value);
        }
      }
    }

    /** Switches debug mode: the timer's statistics and the debug box on top of the pane,
        added only if missing, or removed. */
    method SetDebug(debug: bool)
      requires Valid()
      modifies this, timer
      ensures Valid() && timer.debug == debug
      ensures root == WithDebugBox(old(root), debug)
      ensures Fields() == old(Fields()) && onFinished == old(onFinished) && events == old(events)
      ensures timer.State() == old(timer.State()).(debug := debug)
    {
      DebugBoxAtMostOnce(root, currentDialog, timer.debug, debug);
      timer.SetDebug(debug);
      if debug {
        if DebugBox !in root {
          root := root + [DebugBox];
        }
      } else {
        if DebugBox in root {
          root := Remove(root, DebugBox);
        }
      }
    }

    /** Applies a configuration: the default ordering, the two frame rates, debug mode, the
        style sheets (kept when the configuration has none) and the window settings. */
    method SetConfig(config: Config.EngineConfig)
      requires Valid() && config.Valid()
      modifies this, timer
      ensures Valid()
      ensures Fields() == old(Fields()).(
                isInBeforeOutConfig := config.inBeforeOut, fpsMax := config.fps, fpsMin := config.fpsMin,
                window := Window(config.title, config.width, config.height, config.canResize,
                                 if config.css != [] then config.css else old(window.stylesheets), old(window.shown)))
      ensures timer.State() == old(timer.State()).(debug := config.debug)
      ensures root == WithDebugBox(old(root), config.debug)
      ensures onFinished == old(onFinished) && events == old(events)
    {
      Adopt(config);
      SetDebug(config.debug);
    }

    /** The fields a configuration sets directly. */
    method Adopt(config: Config.EngineConfig)
      requires Valid() && config.Valid()
      modifies this
      ensures Valid()
      ensures Fields() == old(Fields()).(
                isInBeforeOutConfig := config.inBeforeOut, fpsMax := config.fps, fpsMin := config.fpsMin,
                window := Window(config.title, config.width, config.height, config.canResize,
                                 if config.css != [] then config.css else old(window.stylesheets), old(window.shown)))
      ensures Snapshot() == old(Snapshot())
    {
      var css := if config.css != [] then config.css else window.stylesheets;
      isInBeforeOutConfig, fpsMax, fpsMin, window := config.inBeforeOut, config.fps, config.fpsMin,
        Window(config.title, config.width, config.height, config.canResize, css, window.shown);
    }

    /** Launches the engine: the initialisation hook, every view's and dialog's launch hook,
        the timer's start, update and stop callbacks installed and the timer started (which
        runs every start hook), the launch hook, and the window shown. */
    method Launch()
      requires Valid()
      modifies this, timer
      ensures Valid()
      ensures events == old(events) + (if hooks.init then [InitHook] else [])
                        + [LaunchHooks(views, dialogs), StartHooks(views, dialogs)]
                        + (if hooks.launch then [LaunchedHook] else [])
      ensures Fields() == old(Fields()).(launched := true, window := old(window).(shown := true))
      ensures root == old(root) && onFinished == old(onFinished)
      ensures timer.State() == Timing.Cleared(old(timer.State())).(
                hasStart := true, hasUpdate := true, hasStop := true, running := true)
    {
      var initHook := if hooks.init then [InitHook] else [];
      events := events + initHook + [LaunchHooks(views, dialogs)];
      StartTimer();
      var launchHook := if hooks.launch then [LaunchedHook] else [];
      events, launched, window := events + launchHook, true, window.(shown := true);
    }

    /** Installs the timer's start, update and stop callbacks and starts it; the start
        callback runs every view's and dialog's start hook. */
    method StartTimer()
      requires Valid()
      modifies this, timer
      ensures Valid()
      ensures events == old(events) + [StartHooks(views, dialogs)]
      ensures Fields() == old(Fields()) && root == old(root) && onFinished == old(onFinished)
      ensures timer.State() == Timing.Cleared(old(timer.State())).(
                hasStart := true, hasUpdate := true, hasStop := true, running := true)
    {
      timer.SetHooks(true, true, true);
      var startFired := timer.Start();
      if startFired {
        events := events + [StartHooks(views, dialogs)];
      }
    }

    /** The window's focus changed: once launched, the timer runs at the focused or the
        unfocused frame rate. */
    method FocusChanged(focused: bool)
      requires Valid()
      modifies timer
      ensures Valid()
      ensures launched ==>
                var fps := if focused then fpsMax else fpsMin;
                timer.State() == old(timer.State()).(fps := fps, npf := Timing.FrameNanos(fps))
      ensures !launched ==> timer.State() == old(timer.State())
    {
      if launched {
        var outcome := timer.SetFPS(if focused then fpsMax else fpsMin);
      }
    }

    /** A shutdown request: when the shutdown hook is installed and answers yes (`approve`),
        the timer stops (running every stop hook) and the window closes. */
    method Shutdown(approve: bool) returns (stopped: bool)
      requires Valid()
      modifies this, timer
      ensures Valid()
      ensures stopped == (hooks.shutdown && approve)
      ensures events == old(events) + (if hooks.shutdown then [ShutdownHook] else [])
                        + (if stopped && timer.hasStop then [StopHooks(views, dialogs)] else [])
      ensures stopped ==> Fields() == old(Fields()).(window := old(window).(shown := false))
      ensures stopped ==> timer.State() == Timing.Cleared(old(timer.State())).(running := false)
      ensures !stopped ==> Fields() == old(Fields()) && timer.State() == old(timer.State())
      ensures root == old(root) && onFinished == old(onFinished)
    {
      stopped := false;
      if hooks.shutdown {
        events := events + [ShutdownHook];
        if approve {
          var stopFired := timer.Stop();
          if stopFired {
            events := events + [StopHooks(views, dialogs)];
          }
          window := window.(shown := false);
          stopped := true;
        }
      }
    }
  }
}
