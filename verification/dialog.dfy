/** A modal dialog: a pane that scales and fades in on open() and out on close(),
    stepping one frame of a precomputed easing curve per engine update, and that invokes
    its close handler once the closing animation has run to the end. */
module Dialogs {
  import opened Exceptions
  import opened BezierPoints
  import opened Sizes
  import Bezier

  /** Maximum width and height of the dialog pane. */
  datatype Extent = Extent(width: int, height: int)

  /** The maximum pane size each size class sets. */
  function MaxSize(s: Size): Extent
  {
    match s
    case S => Extent(380, 240)
    case M => Extent(480, 300)
    case L => Extent(520, 360)
    case XL => Extent(640, 410)
    case XXL => Extent(760, 520)
    case XXXL => Extent(860, 570)
  }

  /** A size class declared later gives a strictly wider and taller pane. */
  lemma MaxSizeIncreasing(i: nat, j: nat)
    requires i < j < |Values|
    ensures MaxSize(Values[i]).width < MaxSize(Values[j]).width
    ensures MaxSize(Values[i]).height < MaxSize(Values[j]).height
  {
  }

  /** Where a dialog's transition stands: the shared frame cursor and the two flags. */
  datatype Transit = Transit(frame: nat, opening: bool, closing: bool)

  /** The transition state after one update over a curve of `n` points, and whether that
      update completed the closing animation (the moment the close handler runs). The
      opening branch runs first and the closing branch then sees its cursor. */
  function Advance(t: Transit, n: nat): (r: (Transit, bool))
    ensures t.frame <= n ==> r.0.frame <= n
    ensures r.1 <==> t.closing && !r.0.closing
    ensures !t.closing ==> !r.0.closing
    ensures !t.opening ==> !r.0.opening
  {
    var afterOpen :=
      if t.opening then
        (if t.frame < n then Transit(t.frame + 1, true, t.closing) else Transit(t.frame, false, t.closing))
      else t;
    if afterOpen.closing then
      if afterOpen.frame < n then (afterOpen.(frame := afterOpen.frame + 1), false)
      else (afterOpen.(closing := false), true)
    else (afterOpen, false)
  }

  /** The state after `k` updates, and how many of them completed a close. */
  function Run(t: Transit, n: nat, k: nat): (Transit, nat)
    decreases k
  {
    if k == 0 then (t, 0)
    else
      var (t1, done) := Advance(t, n);
      var (t2, count) := Run(t1, n, k - 1);
      (t2, count + if done then 1 else 0)
  }

  /** Opening alone: the cursor advances once per update up to the curve's length, and the
      update after that clears the opening flag; no close handler runs. */
  lemma {:induction false} OpeningRun(f: nat, n: nat, k: nat)
    requires f <= n
    ensures Run(Transit(f, true, false), n, k)
         == if f + k <= n then (Transit(f + k, true, false), 0) else (Transit(n, false, false), 0)
    decreases k
  {
    if k > 0 {
      if f < n {
        OpeningRun(f + 1, n, k - 1);
      } else {
        IdleRun(n, n, k - 1);
      }
    }
  }

  /** Closing alone: the cursor advances once per update up to the curve's length, the
      update after that completes the close, and exactly one completion ever happens. */
  lemma {:induction false} ClosingRun(f: nat, n: nat, k: nat)
    requires f <= n
    ensures Run(Transit(f, false, true), n, k)
         == if f + k <= n then (Transit(f + k, false, true), 0) else (Transit(n, false, false), 1)
    decreases k
  {
    if k > 0 {
      if f < n {
        ClosingRun(f + 1, n, k - 1);
      } else {
        IdleRun(n, n, k - 1);
      }
    }
  }

  /** An idle dialog stays idle and never completes a close. */
  lemma {:induction false} IdleRun(f: nat, n: nat, k: nat)
    ensures Run(Transit(f, false, false), n, k) == (Transit(f, false, false), 0)
  {
    if k > 0 {
      IdleRun(f, n, k - 1);
    }
  }

  /** With both flags raised, one update moves the shared cursor twice. */
  lemma BothFlagsAdvanceTwice(f: nat, n: nat)
    requires f + 2 <= n
    ensures Advance(Transit(f, true, true), n) == (Transit(f + 2, true, true), false)
  {
  }

  /** What the dialog looks like: the last curve value, the pane's scale and opacity, and
      its maximum size. */
  datatype Appearance = Appearance(y: real, scale: real, opacity: real, maxSize: Option<Extent>)

  /** The look after one update from transition state `t` over the curve `bps`: an opening
      step draws the point at the cursor with scale .4 + .6 y and opacity y; a closing step
      (seeing the cursor the opening step left) draws with scale 1 - .6 y and opacity 1 - y,
      and overrides the opening step's drawing. Whichever step draws last, the scale is
      .4 + .6 times the opacity, and a curve inside [0, 1] keeps the opacity there. */
  function Drawn(t: Transit, l: Appearance, bps: seq<Point>): (r: Appearance)
    ensures r.maxSize == l.maxSize
    ensures !t.opening && !t.closing ==> r == l
    ensures r == l || r.scale == 0.4 + 0.6 * r.opacity
    ensures (forall i :: 0 <= i < |bps| ==> 0.0 <= bps[i].y <= 1.0) ==> r == l || 0.0 <= r.opacity <= 1.0
  {
    var openStep := t.opening && t.frame < |bps|;
    var mid := if openStep then t.frame + 1 else t.frame;
    if t.closing && mid < |bps| then
      var y := bps[mid].y;
      Appearance(y, 1.0 - 0.6 * y, 1.0 - y, l.maxSize)
    else if openStep then
      var y := bps[t.frame].y;
      Appearance(y, 0.4 + 0.6 * y, y, l.maxSize)
    else l
  }

  class Dialog<H> {
    /** The easing curve the transitions walk through. */
    const bps: seq<Point>
    /** The handler to invoke when a close completes; never cleared. */
    var onClose: Option<H>
    var frame: nat
    var y: real
    var isOpening: bool
    var isClosing: bool
    /** The pane's scaleX and scaleY (always set together) and its opacity. */
    var scale: real
    var opacity: real
    /** The pane's maximum size; None until a size class is set. */
    var maxSize: Option<Extent>

    ghost predicate Valid()
      reads this
    {
      frame <= |bps|
    }

    function Phase(): Transit
      reads this
    {
      Transit(frame, isOpening, isClosing)
    }

    function Look(): Appearance
      reads this
    {
      Appearance(y, scale, opacity, maxSize)
    }

    /** A dialog over the given easing curve, idle and fully visible. */
    constructor (curve: seq<Point>)
      ensures Valid() && bps == curve
      ensures Phase() == Transit(0, false, false) && y == 0.0 && onClose == None
      ensures scale == 1.0 && opacity == 1.0 && maxSize == None
    {
      bps := curve;
      onClose := None;
      frame, y := 0, 0.0;
      isOpening, isClosing := false, false;
      scale, opacity := 1.0, 1.0;
      maxSize := None;
    }

    /** A dialog over the engine's default curve, CubicBezier(.08, .82, .17, 1) sampled at
        precision 12. */
    constructor Default()
      ensures Valid()
      ensures Bezier.IsSampling(bps, Bezier.Controls(0.08, 0.82, 0.17, 1.0), 1.0 / 12.0, 1)
      ensures bps[0] == Point(0.0, 0.0)
      ensures Phase() == Transit(0, false, false) && y == 0.0 && onClose == None
      ensures scale == 1.0 && opacity == 1.0 && maxSize == None
    {
      var curve := new Bezier.CubicBezier(0.08, 0.82, 0.17, 1.0);
      var outcome := curve.Precision(12.0);
      var points := curve.Build();
      bps := points;
      onClose := None;
      frame, y := 0, 0.0;
      isOpening, isClosing := false, false;
      scale, opacity := 1.0, 1.0;
      maxSize := None;
    }

    /** Sets the pane's maximum size from the size class. */
    method SetSize(size: Size)
      modifies this
      ensures maxSize == Some(MaxSize(size))
      ensures Phase() == old(Phase()) && onClose == old(onClose)
      ensures y == old(y) && scale == old(scale) && opacity == old(opacity)
    {
      maxSize := Some(MaxSize(size));
    }

    /** Starts the opening animation from the first frame; a closing in progress keeps
        running on the same cursor. */
    method Open()
      modifies this
      ensures Valid()
      ensures Phase() == Transit(0, true, old(isClosing))
      ensures onClose == old(onClose) && Look() == old(Look())
    {
      frame := 0;
      isOpening := true;
    }

    /** Starts (or restarts) the closing animation from the first frame; an opening in
        progress is not cancelled. */
    method Close()
      modifies this
      ensures Valid()
      ensures Phase() == Transit(0, old(isOpening), true)
      ensures onClose == old(onClose) && Look() == old(Look())
    {
      frame := 0;
      isClosing := true;
    }

    /** One engine update. While opening, the point at the cursor gives y, the pane is
        scaled to .4 + .6 y with opacity y, and the cursor moves on; at the end of the curve
        the opening flag drops. Then, while closing, the same is done with scale 1 - .6 y and
        opacity 1 - y; at the end of the curve the close handler held at that moment (if any)
        is invoked, which is returned as `fired`, and the closing flag drops. */
    method OnUpdate(time: real) returns (fired: Option<H>)
      modifies this
      ensures (Phase(), fired.Some?) == (Advance(old(Phase()), |bps|).0, Advance(old(Phase()), |bps|).1 && onClose.Some?)
      ensures fired.Some? ==> fired == onClose
      ensures onClose == old(onClose) && Look() == Drawn(old(Phase()), old(Look()), bps)
      ensures var openStep := old(isOpening) && old(frame) < |bps|;
              var mid := if openStep then old(frame) + 1 else old(frame);
              var closeStep := old(isClosing) && mid < |bps|;
              && (closeStep ==> y == bps[mid].y && scale == 1.0 - 0.6 * y && opacity == 1.0 - y)
              && (!closeStep && openStep ==> y == bps[old(frame)].y && scale == 0.4 + 0.6 * y && opacity == y)
              && (!closeStep && !openStep ==> y == old(y) && scale == old(scale) && opacity == old(opacity))
    {
      fired := None;
      if isOpening {
        if frame < |bps| {
          y := bps[frame].y;
          scale := 0.4 + 0.6 * y;
          opacity := y;
          frame := frame + 1;
        } else {
          isOpening := false;
        }
      }
      if isClosing {
        if frame < |bps| {
          y := bps[frame].y;
          scale := 1.0 - 0.6 * y;
          opacity := 1.0 - y;
          frame := frame + 1;
        } else {
          if onClose.Some? {
            fired := onClose;
          }
          isClosing := false;
        }
      }
    }
  }
}
