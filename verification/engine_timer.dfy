/** The engine's frame timer: the host animation pulse feeds `Handle`, which accumulates the
    time elapsed since the previous pulse and dispatches at most one update per pulse once
    a frame's worth of time has been accumulated. */
module Timing {
  import opened Exceptions

  /** What one pulse reads and writes of the accumulator: the handler's own previous
      timestamp, the accumulated delta and the last measured gap, all in nanoseconds. */
  datatype Accumulator = Accumulator(last: real, delta: real, between: real)

  /** One pulse at host time `now` with `npf` nanoseconds per frame. The gap since the
      previous pulse is accumulated only when a previous timestamp is known (greater than
      zero); when the accumulated delta reaches `npf`, the pulse dispatches, carrying the
      full accumulated delta, and exactly `npf` is taken off. */
  function Pulse(a: Accumulator, now: nat, npf: real): (r: (Accumulator, Option<real>))
    ensures r.0.last == now as real
    ensures var accumulated := if 0.0 < a.last then a.delta + (now as real - a.last) else a.delta;
            && (r.1.Some? <==> npf <= accumulated)
            && (r.1.Some? ==> r.1.value == accumulated && r.0.delta == accumulated - npf)
            && (r.1.None? ==> r.0.delta == accumulated)
    ensures 0.0 < a.last ==> r.0.between == now as real - a.last
    ensures a.last <= 0.0 ==> r.0.between == a.between
  {
    var between := if 0.0 < a.last then now as real - a.last else a.between;
    var delta := if 0.0 < a.last then a.delta + between else a.delta;
    if npf <= delta then
      (Accumulator(now as real, delta - npf, between), Some(delta))
    else
      (Accumulator(now as real, delta, between), None)
  }

  /** A run of pulses at the given timestamps: the final accumulator and how many pulses
      took the dispatch branch. */
  function Run(a: Accumulator, times: seq<nat>, npf: real): (Accumulator, nat)
    decreases |times|
  {
    if times == [] then (a, 0)
    else
      var (b, update) := Pulse(a, times[0], npf);
      var (c, n) := Run(b, times[1..], npf);
      (c, if update.Some? then n + 1 else n)
  }

  /** The sum of the gaps a run of pulses accumulates: each gap counts only when the
      timestamp before it is greater than zero, which after the first pulse means the
      previous pulse time was not zero. */
  function Gaps(last: real, times: seq<nat>): real
    decreases |times|
  {
    if times == [] then 0.0
    else (if 0.0 < last then times[0] as real - last else 0.0) + Gaps(times[0] as real, times[1..])
  }

  /** Timestamps that never go backwards, starting from `last`. */
  ghost predicate NonDecreasing(last: real, times: seq<nat>)
    decreases |times|
  {
    times != [] ==> last <= times[0] as real && NonDecreasing(times[0] as real, times[1..])
  }

  /** `n` frame times of `npf` nanoseconds each, added up one frame at a time. */
  function FrameTotal(n: nat, npf: real): real
  {
    if n == 0 then 0.0 else FrameTotal(n - 1, npf) + npf
  }

  /** `FrameTotal` is the product of the count and the frame time. */
  lemma {:induction false} FrameTotalIsProduct(n: nat, npf: real)
    ensures FrameTotal(n, npf) == n as real * npf
  {
    if n > 0 {
      FrameTotalIsProduct(n - 1, npf);
      assert n as real * npf == (n - 1) as real * npf + npf;
    }
  }

  /** Conservation: the delta left after a run is the starting delta plus every gap
      accumulated, minus one frame time per dispatch. */
  lemma {:induction false} RunConserves(a: Accumulator, times: seq<nat>, npf: real)
    ensures var (b, n) := Run(a, times, npf);
            b.delta == a.delta + Gaps(a.last, times) - FrameTotal(n, npf)
    decreases |times|
  {
    if times != [] {
      var p := Pulse(a, times[0], npf);
      var rest := Run(p.0, times[1..], npf);
      assert Run(a, times, npf) == (rest.0, if p.1.Some? then rest.1 + 1 else rest.1);
      assert Gaps(a.last, times) == (if 0.0 < a.last then times[0] as real - a.last else 0.0) + Gaps(p.0.last, times[1..]);
      RunConserves(p.0, times[1..], npf);
    }
  }

  /** A run never counts more dispatches than pulses. */
  lemma {:induction false} RunDispatchesAtMostOncePerPulse(a: Accumulator, times: seq<nat>, npf: real)
    ensures Run(a, times, npf).1 <= |times|
    decreases |times|
  {
    if times != [] {
      RunDispatchesAtMostOncePerPulse(Pulse(a, times[0], npf).0, times[1..], npf);
    }
  }

  /** With timestamps that never go backwards, a delta that starts non-negative stays
      non-negative, whatever the frame time. */
  lemma {:induction false} RunKeepsDeltaNonNegative(a: Accumulator, times: seq<nat>, npf: real)
    requires 0.0 <= a.delta && NonDecreasing(a.last, times)
    ensures 0.0 <= Run(a, times, npf).0.delta
    decreases |times|
  {
    if times != [] {
      var b := Pulse(a, times[0], npf).0;
      assert 0.0 <= b.delta;
      RunKeepsDeltaNonNegative(b, times[1..], npf);
    }
  }

  /** A timer whose frame time was never set (zero) dispatches on every pulse while time
      does not go backwards. */
  lemma {:induction false} UnsetFrameTimeAlwaysDispatches(a: Accumulator, times: seq<nat>)
    requires 0.0 <= a.delta && NonDecreasing(a.last, times)
    ensures Run(a, times, 0.0).1 == |times|
    decreases |times|
  {
    if times != [] {
      var b := Pulse(a, times[0], 0.0).0;
      UnsetFrameTimeAlwaysDispatches(b, times[1..]);
    }
  }

  /** One pulse takes off one frame time only, so a long stall leaves a backlog that is
      worked off one frame per later pulse. */
  lemma StallLeavesBacklog(npf: real, last: nat, stall: nat)
    requires 0.0 < npf && 0 < last && 2.0 * npf <= stall as real
    ensures var (b, update) := Pulse(Accumulator(last as real, 0.0, 0.0), last + stall, npf);
            update == Some(stall as real) && npf <= b.delta
  {
  }

  /** The running mean after one more interval: `ms` was the mean of `n` intervals in
      milliseconds and the result is the mean of `n + 1`. */
  function NextMean(ms: real, n: nat, betweenNanos: real): (r: real)
    ensures r * (n + 1) as real == ms * n as real + betweenNanos * 0.000001
  {
    (ms * n as real + betweenNanos * 0.000001) / (n + 1) as real
  }

  function Sum(xs: seq<real>): real
  {
    if xs == [] then 0.0 else Sum(xs[..|xs| - 1]) + xs[|xs| - 1]
  }

  /** `ms` is the mean of the intervals, in milliseconds (any value when there are none). */
  ghost predicate IsMean(ms: real, xs: seq<real>)
  {
    ms * |xs| as real == Sum(xs) * 0.000001
  }

  /** The mean kept by `NextMean` is, after every step, the mean of all the intervals
      recorded since the count was zero, in milliseconds. */
  lemma MeanTracksSum(ms: real, xs: seq<real>, x: real)
    requires IsMean(ms, xs)
    ensures IsMean(NextMean(ms, |xs|, x), xs + [x])
  {
    assert (xs + [x])[..|xs|] == xs;
  }

  /** Nanoseconds as milliseconds and as seconds. */
  function ToMillis(nanos: real): (r: real)
    ensures r * 1000000.0 == nanos
  {
    nanos * 0.000001
  }

  function ToSeconds(nanos: real): (r: real)
    ensures r * 1000.0 == ToMillis(nanos)
  {
    nanos * 0.000000001
  }

  /** The frame time, in nanoseconds, for a rate of `fps` frames per second. */
  function FrameNanos(fps: int): (r: real)
    requires fps >= 1
    ensures r * fps as real == 1000000000.0 && 0.0 < r
  {
    1000000000.0 / fps as real
  }

  /** Every field of the timer at once, for stating a method's whole new state. */
  datatype TimerState = TimerState(nowNanos: real, lastNanos: real, deltaNanos: real,
                                   betweenNanos: real, npf: real, fps: int, frames: nat,
                                   ms: real, intervals: seq<real>, handlerLast: real,
                                   debug: bool, running: bool,
                                   hasStart: bool, hasUpdate: bool, hasStop: bool)

  /** The state after a reset: the outer clock and the frame count zeroed, everything
      else (the handler's own timestamp, the mean, the rate, the flags) kept. */
  function Cleared(s: TimerState): (r: TimerState)
    ensures r.frames == 0 && r.intervals == [] && r.nowNanos == 0.0 && r.deltaNanos == 0.0
    ensures r.handlerLast == s.handlerLast && r.ms == s.ms && r.npf == s.npf
    ensures r.running == s.running && r.debug == s.debug && r.fps == s.fps
  {
    s.(nowNanos := 0.0, lastNanos := 0.0, deltaNanos := 0.0, frames := 0, intervals := [])
  }

  /** The state after one pulse at `time`: the accumulator moves as `Pulse` says and,
      when the pulse dispatches to an installed update hook in debug mode, the last gap
      is added to the frame statistics. */
  function Handled(s: TimerState, time: nat): (r: TimerState)
    ensures var p := Pulse(Accumulator(s.handlerLast, s.deltaNanos, s.betweenNanos), time, s.npf);
            && Accumulator(r.handlerLast, r.deltaNanos, r.betweenNanos) == p.0
            && r.nowNanos == time as real
            && (p.1.Some? && s.hasUpdate && s.debug ==>
                  r.frames == s.frames + 1 && r.intervals == s.intervals + [p.0.between]
                  && r.ms == NextMean(s.ms, s.frames, p.0.between))
            && (!(p.1.Some? && s.hasUpdate && s.debug) ==>
                  r.frames == s.frames && r.intervals == s.intervals && r.ms == s.ms)
    ensures r.(nowNanos := s.nowNanos, handlerLast := s.handlerLast, deltaNanos := s.deltaNanos,
               betweenNanos := s.betweenNanos, frames := s.frames, intervals := s.intervals,
               ms := s.ms) == s
  {
    var p := Pulse(Accumulator(s.handlerLast, s.deltaNanos, s.betweenNanos), time, s.npf);
    var moved := s.(nowNanos := time as real, handlerLast := p.0.last, deltaNanos := p.0.delta,
                    betweenNanos := p.0.between);
    if p.1.Some? && s.hasUpdate && s.debug then
      moved.(frames := s.frames + 1, intervals := s.intervals + [p.0.between],
             ms := NextMean(s.ms, s.frames, p.0.between))
    else
      moved
  }

  class EngineTimer {
    /** The outer clock fields: the current and previous pulse time (the previous one is
        only ever reset) and the accumulated delta, all in nanoseconds. */
    var nowNanos: real
    var lastNanos: real
    var deltaNanos: real
    var betweenNanos: real
    /** Nanoseconds per frame; zero until `SetFPS` is first called. */
    var npf: real
    var fps: int
    /** The number of frames recorded since the last reset and their mean interval (ms). */
    var frames: nat
    var ms: real
    ghost var intervals: seq<real>
    /** The inner pulse handler's own previous timestamp, which `Reset` does not clear. */
    var handlerLast: real
    var debug: bool
    var running: bool
    /** Whether the start, update and stop hooks are installed. */
    var hasStart: bool
    var hasUpdate: bool
    var hasStop: bool

    ghost predicate Valid()
      reads this
    {
      IsMean(ms, intervals) && frames == |intervals|
    }

    function Accum(): Accumulator
      reads this
    {
      Accumulator(handlerLast, deltaNanos, betweenNanos)
    }

    ghost function State(): TimerState
      reads this
    {
      TimerState(nowNanos, lastNanos, deltaNanos, betweenNanos, npf, fps, frames, ms, intervals,
                 handlerLast, debug, running, hasStart, hasUpdate, hasStop)
    }

    /** A stopped timer at `fps` frames per second whose frame time is not yet computed. */
    constructor (fps: int)
      ensures Valid()
      ensures State() == TimerState(0.0, 0.0, 0.0, 0.0, 0.0, fps, 0, 0.0, [], 0.0,
                                    false, false, false, false, false)
    {
      this.fps := fps;
      npf := 0.0;
      nowNanos, lastNanos, deltaNanos, betweenNanos := 0.0, 0.0, 0.0, 0.0;
      frames, ms := 0, 0.0;
      intervals := [];
      handlerLast := 0.0;
      debug, running := false, false;
      hasStart, hasUpdate, hasStop := false, false, false;
    }

    /** Sets the frame rate and the frame time; a rate below 1 is refused and nothing
        changes. */
    method SetFPS(fps: int) returns (outcome: Outcome)
      requires Valid()
      modifies this
      ensures Valid()
      ensures fps < 1 ==> outcome == Thrown(IllegalArgument) && State() == old(State())
      ensures fps >= 1 ==> outcome == Normal && State() == old(State()).(fps := fps, npf := FrameNanos(fps))
    {
      if fps < 1 {
        return Thrown(IllegalArgument);
      }
      this.fps := fps;
      npf := 1000000000.0 / fps as real;
      outcome := Normal;
    }

    method SetDebug(debug: bool)
      modifies this
      ensures State() == old(State()).(debug := debug)
    {
      this.debug := debug;
    }

    /** Installs (or removes) the three hooks. */
    method SetHooks(start: bool, update: bool, stop: bool)
      modifies this
      ensures State() == old(State()).(hasStart := start, hasUpdate := update, hasStop := stop)
    {
      hasStart, hasUpdate, hasStop := start, update, stop;
    }

    /** Zeroes the outer clock fields and the frame count; the handler's own previous
        timestamp and the mean interval are kept. */
    method Reset()
      modifies this
      ensures Valid()
      ensures State() == Cleared(old(State()))
    {
      nowNanos, lastNanos, deltaNanos := 0.0, 0.0, 0.0;
      frames := 0;
      intervals := [];
    }

    /** Starts the pulses: the start hook, if installed, fires (on every call, running or
        not), then the clock is reset. */
    method Start() returns (startFired: bool)
      modifies this
      ensures Valid()
      ensures startFired == hasStart
      ensures State() == Cleared(old(State())).(running := true)
    {
      startFired := hasStart;
      Reset();
      running := true;
    }

    /** Stops the pulses: the stop hook, if installed, fires (on every call), the pulses
        stop, then the clock is reset. */
    method Stop() returns (stopFired: bool)
      modifies this
      ensures Valid()
      ensures stopFired == hasStop
      ensures State() == Cleared(old(State())).(running := false)
    {
      stopFired := hasStop;
      running := false;
      Reset();
    }

    /** Records one frame interval in the running mean. */
    method AddFrame(betweenNanos: real)
      requires Valid()
      modifies this
      ensures Valid()
      ensures State() == old(State()).(frames := old(frames) + 1, intervals := old(intervals) + [betweenNanos],
                                       ms := NextMean(old(ms), old(frames), betweenNanos))
    {
      MeanTracksSum(ms, intervals, betweenNanos);
      ms := NextMean(ms, frames, betweenNanos);
      frames := frames + 1;
      intervals := intervals + [betweenNanos];
    }

    /** One host pulse at `time`: the accumulator moves as `Pulse` says; when it
        dispatches and an update hook is installed, the hook receives the accumulated
        delta (returned as `update`) and, in debug mode, the last gap is recorded as a
        frame. */
    method Handle(time: nat) returns (update: Option<real>)
      requires Valid()
      modifies this
      ensures Valid()
      ensures State() == Handled(old(State()), time)
      ensures update == if hasUpdate then Pulse(old(Accum()), time, npf).1 else None
    {
      ghost var p := Pulse(Accum(), time, npf);
      nowNanos := time as real;
      if 0.0 < handlerLast {
        betweenNanos := nowNanos - handlerLast;
        deltaNanos := deltaNanos + betweenNanos;
      }
      update := None;
      if npf <= deltaNanos {
        if hasUpdate {
          update := Some(deltaNanos);
          if debug {
            AddFrame(betweenNanos);
          }
        }
        deltaNanos := deltaNanos - npf;
        assert p.1 == Some(deltaNanos + npf);
      } else {
        assert p.1 == None;
      }
      handlerLast := nowNanos;
      assert Accum() == p.0;
    }

    function NowMillis(): real reads this { ToMillis(nowNanos) }
    function LastMillis(): real reads this { ToMillis(lastNanos) }
    function DeltaMillis(): real reads this { ToMillis(deltaNanos) }
    function NowSeconds(): real reads this { ToSeconds(nowNanos) }
    function LastSeconds(): real reads this { ToSeconds(lastNanos) }
    function DeltaSeconds(): real reads this { ToSeconds(deltaNanos) }
  }
}
