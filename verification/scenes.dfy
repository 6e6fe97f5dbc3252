/** What the engine's view and dialog switching does to the root pane, written as functions
    on a snapshot of it: the current-view listener with its in-before-out and in-after-out
    orderings, the completion of an outgoing view's hide animation, the current-dialog
    listener, the close handlers that chain dialogs, and the per-frame fan-out.

    Model assumptions. A listener that throws (the root pane refuses a node that is already
    its child) stops at that point; the toolkit reports the exception to the
    uncaught-exception handler, recorded here as an `Uncaught` event, and the caller carries
    on. An animation's completion is an explicit step. */
module Scenes {
  import opened Exceptions
  import opened Children
  import opened Animation
  import Views
  import Dialogs

  type View = Views.View

  /** The close handlers the engine installs on a dialog: show the dialog registered under a
      name (looked up when the handler runs), or leave no dialog current. */
  datatype CloseAction = ShowNext(name: string) | ClearDialog

  type Dialog = Dialogs.Dialog<CloseAction>

  /** A child of the root pane. */
  datatype Child = ViewChild(view: View) | DialogChild(dialog: Dialog) | DebugBox

  /** The pending work of an outgoing view's hide animation: when it finishes, `outgoing`
      is taken down and, in in-after-out mode, `incoming` is put up. */
  datatype ViewSwitch = ViewSwitch(outgoing: View, incoming: View)

  /** The calls the engine makes into user code and the animation system, in order. Where
      the engine walks a registry (in unspecified order) the event records the registry. */
  datatype Event =
    | InitHook
    | LaunchHooks(views: map<string, View>, dialogs: map<string, Dialog>)
    | StartHooks(views: map<string, View>, dialogs: map<string, Dialog>)
    | StopHooks(views: map<string, View>, dialogs: map<string, Dialog>)
    | LaunchedHook
    | ShutdownHook
    | ToggleHook
    | ViewShown(view: View)
    | ViewHidden(view: View)
    | ViewUpdated(view: View, time: real)
    | DialogShown(dialog: Dialog)
    | DialogHidden(dialog: Dialog)
    | DialogUpdated(dialog: Dialog, time: real)
    | Played(timeline: Timeline)
    | Uncaught(error: Exception)

  /** What the switching acts on: the root pane's children (bottom first), the completion
      handlers installed on hide animations, and the event log. */
  datatype Scene = Scene(root: seq<Child>, pending: map<Timeline, ViewSwitch>, events: seq<Event>)

  /** The toggle hook's call, when one is installed. */
  function ToggleEvents(toggle: bool): seq<Event>
  {
    if toggle then [ToggleHook] else []
  }

  /** The events of putting up view `v`: its show hook, then its show animation if any. */
  function Entering(v: View, tlIn: Timeline?): seq<Event>
  {
    [ViewShown(v)] + (if tlIn != null then [Played(tlIn)] else [])
  }

  /** Putting up view `v`: at the bottom (in-before-out) or on top, then the debug box back
      on top. A view that is already a child is refused (false) and nothing changes. */
  function Entered(s: Scene, v: View, atBottom: bool, tlIn: Timeline?): (r: (Scene, bool))
    ensures r.1 <==> ViewChild(v) !in s.root
    ensures !r.1 ==> r.0 == s
    ensures r.1 ==> r.0.events == s.events + Entering(v, tlIn) && |r.0.root| == |s.root| + 1
    ensures r.0.pending == s.pending
  {
    if ViewChild(v) in s.root then (s, false)
    else
      var root := ToFront(Insert(s.root, ViewChild(v), atBottom), DebugBox);
      (Scene(root, s.pending, s.events + Entering(v, tlIn)), true)
  }

  /** Taking down view `o` for `v`. With a hide animation, `v` is put up first in
      in-before-out mode, then the animation is given the pending switch and played; without
      one, `o` goes at once and `v` is put up. */
  function Exited(s: Scene, o: View, v: View, inBeforeOut: bool, tlIn: Timeline?, tlOut: Timeline?): (r: (Scene, bool))
    ensures tlOut != null && r.1 ==> r.0.pending == s.pending[tlOut := ViewSwitch(o, v)]
    ensures tlOut == null || !r.1 ==> r.0.pending == s.pending
  {
    if tlOut != null then
      var entered := if inBeforeOut then Entered(s, v, true, tlIn) else (s, true);
      if !entered.1 then entered
      else (Scene(entered.0.root, entered.0.pending[tlOut := ViewSwitch(o, v)], entered.0.events + [Played(tlOut)]), true)
    else
      Entered(s.(root := Remove(s.root, ViewChild(o))), v, inBeforeOut, tlIn)
  }

  /** The end of a listener: the debug box back on top, or the exception reported. */
  function Settled(p: (Scene, bool)): (r: Scene)
    ensures r.pending == p.0.pending
    ensures p.1 ==> r.events == p.0.events
    ensures !p.1 ==> r.root == p.0.root && r.events == p.0.events + [Uncaught(IllegalArgument)]
  {
    if p.1 then p.0.(root := ToFront(p.0.root, DebugBox))
    else p.0.(events := p.0.events + [Uncaught(IllegalArgument)])
  }

  /** The current-view listener, run when the slot changes from `o` to `v`: the toggle hook
      if one is installed; then, if `o` is still a child, the switch away from it, or, if
      there was no view yet, `v` put up; then the debug box on top. */
  function Toggled(s: Scene, o: Option<View>, v: View, toggle: bool, inBeforeOut: bool, tlIn: Timeline?, tlOut: Timeline?): (r: Scene)
  {
    var s0 := s.(events := s.events + ToggleEvents(toggle));
    var out := if o.Some? && ViewChild(o.value) in s0.root then Exited(s0, o.value, v, inBeforeOut, tlIn, tlOut) else (s0, true);
    var fin := if out.1 && o.None? then Entered(out.0, v, inBeforeOut, tlIn) else out;
    Settled(fin)
  }

  /** Setting the current-view slot from `o` to `v`: the listener runs only on a change. */
  function Switched(s: Scene, o: Option<View>, v: View, toggle: bool, inBeforeOut: bool, tlIn: Timeline?, tlOut: Timeline?): (r: Scene)
    ensures o == Some(v) ==> r == s
  {
    if o == Some(v) then s else Toggled(s, o, v, toggle, inBeforeOut, tlIn, tlOut)
  }

  /** The completion of hide animation `tl` carrying switch `sw`: the outgoing view's hide
      hook, its removal, and, in in-after-out mode (read now, not when the switch began),
      the incoming view put up on top. */
  function Finished(s: Scene, tl: Timeline, sw: ViewSwitch, inBeforeOut: bool, tlIn: Timeline?): (r: Scene)
    ensures r.pending == s.pending - {tl}
  {
    var s1 := Scene(Remove(s.root, ViewChild(sw.outgoing)), s.pending - {tl}, s.events + [ViewHidden(sw.outgoing)]);
    if inBeforeOut then s1
    else
      var entered := Entered(s1, sw.incoming, false, tlIn);
      if entered.1 then entered.0 else entered.0.(events := entered.0.events + [Uncaught(IllegalArgument)])
  }

  /** The completion of hide animation `tl`: its pending switch finished, if it has one. */
  function Completed(s: Scene, tl: Timeline, inBeforeOut: bool, tlIn: Timeline?): (r: Scene)
    ensures tl !in s.pending ==> r == s
    ensures tl !in r.pending
  {
    if tl in s.pending then Finished(s, tl, s.pending[tl], inBeforeOut, tlIn) else s
  }

  /** The current-dialog listener, run when the slot changes to dialog `d`: `d` is added on
      top (the toolkit refuses it if it is already a child), opened, its show hook runs,
      and the debug box goes back on top. */
  function Activated(s: Scene, d: Dialog): (r: Scene)
    ensures r.pending == s.pending
    ensures DialogChild(d) !in s.root ==> r.events == s.events + [DialogShown(d)]
    ensures DialogChild(d) in s.root ==> r.root == s.root && r.events == s.events + [Uncaught(IllegalArgument)]
  {
    if DialogChild(d) in s.root then s.(events := s.events + [Uncaught(IllegalArgument)])
    else Scene(ToFront(s.root + [DialogChild(d)], DebugBox), s.pending, s.events + [DialogShown(d)])
  }

  /** The dialog a close handler makes current: the one registered under the name at the
      moment the handler runs (none if the name is no longer registered), or none. */
  function Target(action: CloseAction, dialogs: map<string, Dialog>): (r: Option<Dialog>)
    ensures r.Some? ==> r.value in dialogs.Values
    ensures action.ShowNext? && action.name in dialogs ==> r == Some(dialogs[action.name])
    ensures action.ClearDialog? || action.name !in dialogs ==> r == None
  {
    match action
    case ShowNext(name) => if name in dialogs then Some(dialogs[name]) else None
    case ClearDialog => None
  }

  /** An engine close handler of dialog `d` running: `d` is removed, its hide hook runs,
      and the slot is set to `target`, whose listener runs when it is another dialog. */
  function Dismissed(s: Scene, d: Dialog, target: Option<Dialog>): (r: Scene)
    ensures r.pending == s.pending
    ensures |r.events| > |s.events| && r.events[..|s.events| + 1] == s.events + [DialogHidden(d)]
  {
    var s1 := Scene(Remove(s.root, DialogChild(d)), s.pending, s.events + [DialogHidden(d)]);
    if target.Some? && target != Some(d) then Activated(s1, target.value) else s1
  }

  /** The frame callback's first half: the current view's update hook, if there is one. */
  function ViewFramed(s: Scene, view: Option<View>, time: real): (r: Scene)
    ensures r.root == s.root && r.pending == s.pending
  {
    if view.Some? then s.(events := s.events + [ViewUpdated(view.value, time)]) else s
  }

  /** The frame callback's second half: the current dialog's update, and, when that update
      completes a close, the handler the dialog held (`fired`) running. */
  function DialogFramed(s: Scene, dialog: Option<Dialog>, time: real,
                        fired: Option<CloseAction>, dialogs: map<string, Dialog>): (r: Scene)
    ensures r.pending == s.pending
    ensures dialog.None? ==> r == s
  {
    if dialog.None? then s
    else
      var s1 := s.(events := s.events + [DialogUpdated(dialog.value, time)]);
      if fired.Some? then Dismissed(s1, dialog.value, Target(fired.value, dialogs)) else s1
  }

  /** The frame callback: the current view's update, then the current dialog's. */
  function Framed(s: Scene, view: Option<View>, dialog: Option<Dialog>, time: real,
                  fired: Option<CloseAction>, dialogs: map<string, Dialog>): (r: Scene)
    ensures r.pending == s.pending
  {
    DialogFramed(ViewFramed(s, view, time), dialog, time, fired, dialogs)
  }

  /** The root pane after debug mode is switched: the debug box added on top if it is
      missing, or removed. */
  function WithDebugBox(root: seq<Child>, debug: bool): (r: seq<Child>)
    ensures debug ==> DebugBox in r
  {
    if debug then (if DebugBox in root then root else root + [DebugBox])
    else Remove(root, DebugBox)
  }

  /** The debug box, when it is a child, is the top-most one. */
  ghost predicate BoxOnTop(root: seq<Child>)
  {
    DebugBox in root ==> root[|root| - 1] == DebugBox
  }

  /** The part of the engine invariant that is about the root pane's children: no node
      twice, no dialog but the current one, and the debug box exactly in debug mode and
      then on top of everything. */
  ghost predicate RootInvariant(root: seq<Child>, currentDialog: Option<Dialog>, debug: bool)
  {
    && Distinct(root)
    && (forall i :: 0 <= i < |root| && root[i].DialogChild? ==> currentDialog == Some(root[i].dialog))
    && (DebugBox in root <==> debug)
    && BoxOnTop(root)
  }

  /** `b` has the same children as `a` apart from views, and no repeats if `a` has none. */
  ghost predicate SameFixtures(a: seq<Child>, b: seq<Child>)
  {
    && (Distinct(a) ==> Distinct(b))
    && (forall i :: 0 <= i < |b| && !b[i].ViewChild? ==> b[i] in a)
    && (forall i :: 0 <= i < |a| && !a[i].ViewChild? ==> a[i] in b)
  }

  /** `b` differs from `a` only in its views, and keeps the debug box on top if `a` does. */
  ghost predicate ViewsOnly(a: seq<Child>, b: seq<Child>)
  {
    SameFixtures(a, b) && (BoxOnTop(a) ==> BoxOnTop(b))
  }

  /** Changes that only add or remove views keep the root invariant. */
  lemma RootInvariantKept(root: seq<Child>, root': seq<Child>, currentDialog: Option<Dialog>, debug: bool)
    requires RootInvariant(root, currentDialog, debug) && ViewsOnly(root, root')
    ensures RootInvariant(root', currentDialog, debug)
  {
  }

  lemma ViewsOnlyTrans(a: seq<Child>, b: seq<Child>, c: seq<Child>)
    requires ViewsOnly(a, b) && ViewsOnly(b, c)
    ensures ViewsOnly(a, c)
  {
  }

  /** Moving the debug box to the front changes only the order. */
  lemma ToFrontViewsOnly(root: seq<Child>)
    ensures ViewsOnly(root, ToFront(root, DebugBox))
  {
    var r := ToFront(root, DebugBox);
    forall i | 0 <= i < |r| ensures r[i] in root {
      ToFrontMember(root, DebugBox, r[i]);
    }
    forall i | 0 <= i < |root| ensures root[i] in r {
      ToFrontMember(root, DebugBox, root[i]);
    }
    if Distinct(root) {
      ToFrontDistinct(root, DebugBox);
    }
  }

  /** Removing a view changes only views. */
  lemma RemoveViewsOnly(root: seq<Child>, v: View)
    ensures ViewsOnly(root, Remove(root, ViewChild(v)))
  {
    var r := Remove(root, ViewChild(v));
    forall i | 0 <= i < |r| ensures r[i] in root {
      RemoveMember(root, ViewChild(v), r[i]);
    }
    forall i | 0 <= i < |root| && !root[i].ViewChild? ensures root[i] in r {
      RemoveMember(root, ViewChild(v), root[i]);
    }
    if Distinct(root) {
      RemoveDistinct(root, ViewChild(v));
    }
    if BoxOnTop(root) && DebugBox in r {
      RemoveMember(root, ViewChild(v), DebugBox);
      RemoveKeepsTop(root, ViewChild(v));
    }
  }

  /** Putting up a view changes only views, and the view is a child afterwards. */
  lemma EnteredViewsOnly(s: Scene, v: View, atBottom: bool, tlIn: Timeline?)
    ensures ViewsOnly(s.root, Entered(s, v, atBottom, tlIn).0.root)
    ensures ViewChild(v) in Entered(s, v, atBottom, tlIn).0.root
  {
    if ViewChild(v) !in s.root {
      var inserted := Insert(s.root, ViewChild(v), atBottom);
      forall i | 0 <= i < |inserted| ensures inserted[i] in s.root || inserted[i] == ViewChild(v) {
        InsertMember(s.root, ViewChild(v), atBottom, inserted[i]);
      }
      forall i | 0 <= i < |s.root| ensures s.root[i] in inserted {
        InsertMember(s.root, ViewChild(v), atBottom, s.root[i]);
      }
      if Distinct(s.root) {
        InsertDistinct(s.root, ViewChild(v), atBottom);
      }
      ToFrontViewsOnly(inserted);
      ToFrontMember(inserted, DebugBox, ViewChild(v));
      assert SameFixtures(s.root, inserted);
    }
  }

  lemma ExitedViewsOnly(s: Scene, o: View, v: View, inBeforeOut: bool, tlIn: Timeline?, tlOut: Timeline?)
    ensures ViewsOnly(s.root, Exited(s, o, v, inBeforeOut, tlIn, tlOut).0.root)
  {
    if tlOut != null {
      EnteredViewsOnly(s, v, true, tlIn);
    } else {
      var s1 := s.(root := Remove(s.root, ViewChild(o)));
      RemoveViewsOnly(s.root, o);
      EnteredViewsOnly(s1, v, inBeforeOut, tlIn);
      ViewsOnlyTrans(s.root, s1.root, Entered(s1, v, inBeforeOut, tlIn).0.root);
    }
  }

  /** The end of a listener changes only the order: the debug box goes back on top. */
  lemma SettledViewsOnly(p: (Scene, bool))
    ensures ViewsOnly(p.0.root, Settled(p).root)
  {
    if p.1 {
      ToFrontViewsOnly(p.0.root);
    }
  }

  /** The part of the view listener before it settles changes only views. */
  lemma OutViewsOnly(s0: Scene, o: Option<View>, v: View, inBeforeOut: bool, tlIn: Timeline?, tlOut: Timeline?)
    ensures var out := if o.Some? && ViewChild(o.value) in s0.root then Exited(s0, o.value, v, inBeforeOut, tlIn, tlOut) else (s0, true);
            var fin := if out.1 && o.None? then Entered(out.0, v, inBeforeOut, tlIn) else out;
            ViewsOnly(s0.root, fin.0.root)
  {
    if o.Some? && ViewChild(o.value) in s0.root {
      ExitedViewsOnly(s0, o.value, v, inBeforeOut, tlIn, tlOut);
    } else if o.None? {
      EnteredViewsOnly(s0, v, inBeforeOut, tlIn);
    }
  }

  /** A view switch changes only views: it keeps the dialogs and the debug box, and never
      makes a child appear twice. */
  lemma ToggledViewsOnly(s: Scene, o: Option<View>, v: View, toggle: bool, inBeforeOut: bool, tlIn: Timeline?, tlOut: Timeline?)
    ensures ViewsOnly(s.root, Toggled(s, o, v, toggle, inBeforeOut, tlIn, tlOut).root)
  {
    var s0 := s.(events := s.events + ToggleEvents(toggle));
    var out := if o.Some? && ViewChild(o.value) in s0.root then Exited(s0, o.value, v, inBeforeOut, tlIn, tlOut) else (s0, true);
    var fin := if out.1 && o.None? then Entered(out.0, v, inBeforeOut, tlIn) else out;
    OutViewsOnly(s0, o, v, inBeforeOut, tlIn, tlOut);
    SettledViewsOnly(fin);
    ViewsOnlyTrans(s.root, fin.0.root, Settled(fin).root);
  }

  /** Completing a hide animation changes only views. */
  lemma FinishedViewsOnly(s: Scene, tl: Timeline, sw: ViewSwitch, inBeforeOut: bool, tlIn: Timeline?)
    ensures ViewsOnly(s.root, Finished(s, tl, sw, inBeforeOut, tlIn).root)
  {
    var s1 := Scene(Remove(s.root, ViewChild(sw.outgoing)), s.pending - {tl}, s.events + [ViewHidden(sw.outgoing)]);
    RemoveViewsOnly(s.root, sw.outgoing);
    if !inBeforeOut {
      EnteredViewsOnly(s1, sw.incoming, false, tlIn);
      ViewsOnlyTrans(s.root, s1.root, Entered(s1, sw.incoming, false, tlIn).0.root);
    }
  }

  /** The first view goes in at once: at the bottom in in-before-out mode, otherwise on
      top (right under the debug box when there is one); its show hook and show animation
      follow the toggle hook. */
  lemma FirstViewEntersAtOnce(s: Scene, v: View, toggle: bool, inBeforeOut: bool, tlIn: Timeline?, tlOut: Timeline?)
    requires Distinct(s.root) && ViewChild(v) !in s.root
    ensures var r := Toggled(s, None, v, toggle, inBeforeOut, tlIn, tlOut);
            && r.events == s.events + ToggleEvents(toggle) + Entering(v, tlIn)
            && r.pending == s.pending
            && ViewChild(v) in r.root
            && (inBeforeOut ==> r.root[0] == ViewChild(v))
            && (!inBeforeOut ==> (r.root[|r.root| - 1] == ViewChild(v)
                                   || (|r.root| >= 2 && r.root[|r.root| - 1] == DebugBox && r.root[|r.root| - 2] == ViewChild(v))))
  {
    var s0 := s.(events := s.events + ToggleEvents(toggle));
    var inserted := Insert(s.root, ViewChild(v), inBeforeOut);
    var once := ToFront(inserted, DebugBox);
    assert Toggled(s, None, v, toggle, inBeforeOut, tlIn, tlOut) == Settled(Entered(s0, v, inBeforeOut, tlIn));
    InsertDistinct(s.root, ViewChild(v), inBeforeOut);
    ToFrontIdempotent(inserted, DebugBox);
    ToFrontMember(inserted, DebugBox, ViewChild(v));
    if inBeforeOut {
      ToFrontKeepsBottom(inserted, DebugBox);
    } else {
      ToFrontAfterAppend(s.root, ViewChild(v), DebugBox);
    }
  }

  /** Putting up a first view that is already a child is refused: the listener stops with
      an uncaught exception after the toggle hook, and the root pane is untouched. */
  lemma DuplicateEntryIsReported(s: Scene, v: View, toggle: bool, inBeforeOut: bool, tlIn: Timeline?, tlOut: Timeline?)
    requires ViewChild(v) in s.root
    ensures var r := Toggled(s, None, v, toggle, inBeforeOut, tlIn, tlOut);
            && r.root == s.root && r.pending == s.pending
            && r.events == s.events + ToggleEvents(toggle) + [Uncaught(IllegalArgument)]
  {
  }

  /** In-before-out with a hide animation: the new view goes in at the bottom at once, the
      old one stays a child, and the old one's hide animation is played with the switch
      pending on it. */
  lemma InBeforeOutKeepsOutgoing(s: Scene, o: View, v: View, toggle: bool, tlIn: Timeline?, tlOut: Timeline)
    requires Distinct(s.root) && ViewChild(o) in s.root && ViewChild(v) !in s.root
    ensures var r := Toggled(s, Some(o), v, toggle, true, tlIn, tlOut);
            && r.events == s.events + ToggleEvents(toggle) + Entering(v, tlIn) + [Played(tlOut)]
            && r.pending == s.pending[tlOut := ViewSwitch(o, v)]
            && Distinct(r.root) && r.root[0] == ViewChild(v) && ViewChild(o) in r.root
  {
    var inserted := Insert(s.root, ViewChild(v), true);
    var once := ToFront(inserted, DebugBox);
    assert Toggled(s, Some(o), v, toggle, true, tlIn, tlOut).root == ToFront(once, DebugBox);
    InsertDistinct(s.root, ViewChild(v), true);
    ToFrontIdempotent(inserted, DebugBox);
    ToFrontKeepsBottom(inserted, DebugBox);
    InsertMember(s.root, ViewChild(v), true, ViewChild(o));
    ToFrontMember(inserted, DebugBox, ViewChild(o));
    ToFrontDistinct(inserted, DebugBox);
  }

  /** The end of an in-before-out switch: when the hide animation finishes, the old view's
      hide hook runs and it leaves the pane; the view at the bottom stays there. */
  lemma InBeforeOutFinishes(s: Scene, tl: Timeline, o: View, v: View, tlIn: Timeline?)
    requires Distinct(s.root) && |s.root| > 0 && s.root[0] == ViewChild(v) && o != v
    ensures var r := Finished(s, tl, ViewSwitch(o, v), true, tlIn);
            && r.events == s.events + [ViewHidden(o)]
            && r.pending == s.pending - {tl}
            && ViewChild(o) !in r.root && |r.root| > 0 && r.root[0] == ViewChild(v)
  {
    RemoveDistinct(s.root, ViewChild(o));
    RemoveKeepsHead(s.root, ViewChild(o));
  }

  /** Removing anything but the first element keeps the first element. */
  lemma RemoveKeepsHead(s: seq<Child>, x: Child)
    requires |s| > 0 && s[0] != x
    ensures |Remove(s, x)| > 0 && Remove(s, x)[0] == s[0]
  {
  }

  /** In-after-out with a hide animation: nothing goes in yet; the old view's hide
      animation is played with the switch pending on it. */
  lemma InAfterOutDefers(s: Scene, o: View, v: View, toggle: bool, tlIn: Timeline?, tlOut: Timeline)
    requires ViewChild(o) in s.root
    ensures var r := Toggled(s, Some(o), v, toggle, false, tlIn, tlOut);
            && r.root == ToFront(s.root, DebugBox)
            && r.events == s.events + ToggleEvents(toggle) + [Played(tlOut)]
            && r.pending == s.pending[tlOut := ViewSwitch(o, v)]
  {
  }

  /** The end of an in-after-out switch: when the hide animation finishes, the old view's
      hide hook runs and it leaves the pane, then the new view is put up on top (right
      under the debug box when there is one). */
  lemma InAfterOutFinishes(s: Scene, tl: Timeline, o: View, v: View, tlIn: Timeline?)
    requires Distinct(s.root) && ViewChild(v) !in s.root && o != v
    ensures var r := Finished(s, tl, ViewSwitch(o, v), false, tlIn);
            && r.events == s.events + [ViewHidden(o)] + Entering(v, tlIn)
            && r.pending == s.pending - {tl}
            && ViewChild(o) !in r.root && ViewChild(v) in r.root
            && (r.root[|r.root| - 1] == ViewChild(v)
                || (|r.root| >= 2 && r.root[|r.root| - 1] == DebugBox && r.root[|r.root| - 2] == ViewChild(v)))
  {
    var removed := Remove(s.root, ViewChild(o));
    RemoveDistinct(s.root, ViewChild(o));
    RemoveMember(s.root, ViewChild(o), ViewChild(v));
    var appended := removed + [ViewChild(v)];
    ToFrontMember(appended, DebugBox, ViewChild(o));
    ToFrontMember(appended, DebugBox, ViewChild(v));
    ToFrontAfterAppend(removed, ViewChild(v), DebugBox);
  }

  /** An in-before-out switch from start to finish: the new view ends at the bottom and
      the old one is gone, after the toggle hook, the new view's show hook and animation,
      the old view's hide animation and then its hide hook. */
  lemma InBeforeOutRoundTrip(s: Scene, o: View, v: View, toggle: bool, tlIn: Timeline?, tlOut: Timeline, tlIn': Timeline?)
    requires Distinct(s.root) && ViewChild(o) in s.root && ViewChild(v) !in s.root
    ensures var r := Finished(Toggled(s, Some(o), v, toggle, true, tlIn, tlOut), tlOut, ViewSwitch(o, v), true, tlIn');
            && r.events == s.events + ToggleEvents(toggle) + Entering(v, tlIn) + [Played(tlOut)] + [ViewHidden(o)]
            && ViewChild(o) !in r.root && |r.root| > 0 && r.root[0] == ViewChild(v)
  {
    var t := Toggled(s, Some(o), v, toggle, true, tlIn, tlOut);
    InBeforeOutKeepsOutgoing(s, o, v, toggle, tlIn, tlOut);
    InBeforeOutFinishes(t, tlOut, o, v, tlIn');
  }

  /** An in-after-out switch from start to finish: the old view is gone and the new one is
      on top (right under the debug box when there is one), after the toggle hook, the old
      view's hide animation and hide hook, and then the new view's show hook and
      animation. */
  lemma InAfterOutRoundTrip(s: Scene, o: View, v: View, toggle: bool, tlIn: Timeline?, tlOut: Timeline, tlIn': Timeline?)
    requires Distinct(s.root) && ViewChild(o) in s.root && ViewChild(v) !in s.root
    ensures var r := Finished(Toggled(s, Some(o), v, toggle, false, tlIn, tlOut), tlOut, ViewSwitch(o, v), false, tlIn');
            && r.events == s.events + ToggleEvents(toggle) + [Played(tlOut)] + [ViewHidden(o)] + Entering(v, tlIn')
            && ViewChild(o) !in r.root && ViewChild(v) in r.root
            && (r.root[|r.root| - 1] == ViewChild(v)
                || (|r.root| >= 2 && r.root[|r.root| - 1] == DebugBox && r.root[|r.root| - 2] == ViewChild(v)))
  {
    var t := Toggled(s, Some(o), v, toggle, false, tlIn, tlOut);
    InAfterOutDefers(s, o, v, toggle, tlIn, tlOut);
    ToFrontDistinct(s.root, DebugBox);
    ToFrontMember(s.root, DebugBox, ViewChild(v));
    InAfterOutFinishes(t, tlOut, o, v, tlIn');
  }

  /** Without a hide animation the old view goes and the new one comes in the same step. */
  lemma NoHideAnimationSwapsAtOnce(s: Scene, o: View, v: View, toggle: bool, inBeforeOut: bool, tlIn: Timeline?)
    requires Distinct(s.root) && ViewChild(o) in s.root && ViewChild(v) !in s.root
    ensures var r := Toggled(s, Some(o), v, toggle, inBeforeOut, tlIn, null);
            && r.events == s.events + ToggleEvents(toggle) + Entering(v, tlIn)
            && r.pending == s.pending
            && ViewChild(o) !in r.root && ViewChild(v) in r.root
            && (inBeforeOut ==> r.root[0] == ViewChild(v))
  {
    var removed := Remove(s.root, ViewChild(o));
    RemoveDistinct(s.root, ViewChild(o));
    RemoveMember(s.root, ViewChild(o), ViewChild(v));
    var inserted := Insert(removed, ViewChild(v), inBeforeOut);
    assert Toggled(s, Some(o), v, toggle, inBeforeOut, tlIn, null).root == ToFront(ToFront(inserted, DebugBox), DebugBox);
    InsertDistinct(removed, ViewChild(v), inBeforeOut);
    InsertMember(removed, ViewChild(v), inBeforeOut, ViewChild(o));
    ToFrontIdempotent(inserted, DebugBox);
    ToFrontMember(inserted, DebugBox, ViewChild(o));
    ToFrontMember(inserted, DebugBox, ViewChild(v));
    if inBeforeOut {
      ToFrontKeepsBottom(inserted, DebugBox);
    }
  }

  /** When the old view is no longer a child, a switch inserts nothing: only the toggle
      hook runs and the debug box is moved to the front. */
  lemma DetachedOutgoingInsertsNothing(s: Scene, o: View, v: View, toggle: bool, inBeforeOut: bool, tlIn: Timeline?, tlOut: Timeline?)
    requires ViewChild(o) !in s.root
    ensures var r := Toggled(s, Some(o), v, toggle, inBeforeOut, tlIn, tlOut);
            && r.root == ToFront(s.root, DebugBox) && r.pending == s.pending
            && r.events == s.events + ToggleEvents(toggle)
  {
  }

  /** Dialog `d`'s child taken out of a pane that holds no other dialog leaves a pane with
      no dialog at all. */
  lemma DialogRemoved(root: seq<Child>, d: Dialog, debug: bool)
    requires RootInvariant(root, Some(d), debug)
    ensures RootInvariant(Remove(root, DialogChild(d)), None, debug)
  {
    var r := Remove(root, DialogChild(d));
    RemoveDistinct(root, DialogChild(d));
    forall i | 0 <= i < |r| ensures !r[i].DialogChild? {
      RemoveMember(root, DialogChild(d), r[i]);
    }
    RemoveMember(root, DialogChild(d), DebugBox);
    if DebugBox in r {
      RemoveKeepsTop(root, DialogChild(d));
    }
  }

  /** The dialog listener on a pane without dialogs adds the new dialog exactly once and
      keeps the root invariant with that dialog current. */
  lemma ActivatedKeeps(s: Scene, d: Dialog, debug: bool)
    requires RootInvariant(s.root, None, debug)
    ensures DialogChild(d) !in s.root
    ensures Activated(s, d).events == s.events + [DialogShown(d)]
    ensures RootInvariant(Activated(s, d).root, Some(d), debug)
    ensures DialogChild(d) in Activated(s, d).root
  {
    forall i | 0 <= i < |s.root| ensures !s.root[i].DialogChild? {
    }
    var appended := s.root + [DialogChild(d)];
    InsertDistinct(s.root, DialogChild(d), false);
    ToFrontDistinct(appended, DebugBox);
    var r := ToFront(appended, DebugBox);
    forall i | 0 <= i < |r| ensures r[i] in s.root || r[i] == DialogChild(d) {
      ToFrontMember(appended, DebugBox, r[i]);
    }
    ToFrontMember(appended, DebugBox, DebugBox);
    ToFrontMember(appended, DebugBox, DialogChild(d));
  }

  /** A close handler keeps the root invariant: the closed dialog leaves the pane, and the
      target (if another dialog) is the only dialog in it afterwards, on top of everything
      but the debug box. */
  lemma DismissedKeeps(s: Scene, d: Dialog, target: Option<Dialog>, debug: bool)
    requires RootInvariant(s.root, Some(d), debug)
    ensures RootInvariant(Dismissed(s, d, target).root, target, debug)
    ensures DialogChild(d) !in Dismissed(s, d, target).root
    ensures target.Some? && target != Some(d) ==>
              && Dismissed(s, d, target).events == s.events + [DialogHidden(d), DialogShown(target.value)]
              && DialogChild(target.value) in Dismissed(s, d, target).root
    ensures target.None? || target == Some(d) ==>
              && Dismissed(s, d, target).events == s.events + [DialogHidden(d)]
              && (forall i :: 0 <= i < |Dismissed(s, d, target).root| ==> !Dismissed(s, d, target).root[i].DialogChild?)
  {
    var s1 := Scene(Remove(s.root, DialogChild(d)), s.pending, s.events + [DialogHidden(d)]);
    DialogRemoved(s.root, d, debug);
    RemoveDistinct(s.root, DialogChild(d));
    if target.Some? && target != Some(d) {
      ActivatedKeeps(s1, target.value, debug);
      ToFrontMember(s1.root + [DialogChild(target.value)], DebugBox, DialogChild(d));
    }
  }

  /** On a frame the current view is updated before the current dialog. */
  lemma ViewUpdatedBeforeDialog(s: Scene, v: View, d: Dialog, time: real, fired: Option<CloseAction>, dialogs: map<string, Dialog>)
    ensures var r := Framed(s, Some(v), Some(d), time, fired, dialogs);
            |r.events| >= |s.events| + 2
            && r.events[|s.events|] == ViewUpdated(v, time)
            && r.events[|s.events| + 1] == DialogUpdated(d, time)
  {
    var s1 := s.(events := s.events + [ViewUpdated(v, time), DialogUpdated(d, time)]);
    if fired.Some? {
      var r := Dismissed(s1, d, Target(fired.value, dialogs));
      assert r.events[..|s1.events| + 1] == s1.events + [DialogHidden(d)];
      assert r.events[|s.events|] == r.events[..|s1.events| + 1][|s.events|];
      assert r.events[|s.events| + 1] == r.events[..|s1.events| + 1][|s.events| + 1];
    }
  }

  /** Switching debug mode keeps the root invariant with the new mode; the debug box is
      added at most once, and switching to the same mode again changes nothing. */
  lemma DebugBoxAtMostOnce(root: seq<Child>, currentDialog: Option<Dialog>, old_debug: bool, debug: bool)
    requires RootInvariant(root, currentDialog, old_debug)
    ensures RootInvariant(WithDebugBox(root, debug), currentDialog, debug)
    ensures WithDebugBox(WithDebugBox(root, debug), debug) == WithDebugBox(root, debug)
  {
    var r := WithDebugBox(root, debug);
    if debug {
      if DebugBox !in root {
        InsertDistinct(root, DebugBox, false);
        assert forall i :: 0 <= i < |r| - 1 ==> r[i] == root[i];
      }
    } else {
      RemoveDistinct(root, DebugBox);
      forall i | 0 <= i < |r| ensures r[i] in root {
        RemoveMember(root, DebugBox, r[i]);
      }
    }
  }
}
