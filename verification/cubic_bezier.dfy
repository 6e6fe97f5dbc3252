/** Samples the cubic Bezier curve through (0,0), (f0,f1), (f2,f3), (1,1) by de Casteljau's
    algorithm, in the format CSS's cubic-bezier() uses. */
module Bezier {
  import opened Exceptions
  import opened BezierPoints

  /** Linear interpolation between the numbers `a` (at t = 0) and `b` (at t = 1). */
  function Mix(a: real, b: real, t: real): real
  {
    (1.0 - t) * a + t * b
  }

  /** Linear interpolation between the points `a` (at t = 0) and `b` (at t = 1). */
  function Lerp(a: Point, b: Point, t: real): Point
  {
    Point(Mix(a.x, b.x, t), Mix(a.y, b.y, t))
  }

  /** Point `j` of level `k` of de Casteljau's pyramid over `cs`: level 0 is the control
      points, each further level interpolates neighbours of the level below. */
  function Pyramid(cs: seq<Point>, t: real, k: nat, j: nat): Point
    requires j + k < |cs|
    decreases k
  {
    if k == 0 then cs[j] else Lerp(Pyramid(cs, t, k - 1, j), Pyramid(cs, t, k - 1, j + 1), t)
  }

  /** The cubic Bernstein polynomial with coefficients a, b, c, d:
      (1-t)^3 a + 3 (1-t)^2 t b + 3 (1-t) t^2 c + t^3 d. */
  function Cubic(a: real, b: real, c: real, d: real, t: real): real
  {
    var s := 1.0 - t;
    s * s * s * a + 3.0 * s * s * t * b + 3.0 * s * t * t * c + t * t * t * d
  }

  /** The cubic Bezier curve over the four points `cs`, in Bernstein form. */
  function Bernstein(cs: seq<Point>, t: real): Point
    requires |cs| == 4
  {
    Point(Cubic(cs[0].x, cs[1].x, cs[2].x, cs[3].x, t), Cubic(cs[0].y, cs[1].y, cs[2].y, cs[3].y, t))
  }

  /** The quadratic Bernstein polynomial with coefficients a, b, c. */
  function Quadratic(a: real, b: real, c: real, t: real): real
  {
    var s := 1.0 - t;
    s * s * a + 2.0 * s * t * b + t * t * c
  }

  /** Two rounds of interpolation over three numbers give their quadratic Bernstein value. */
  lemma MixTwice(a: real, b: real, c: real, t: real)
    ensures Mix(Mix(a, b, t), Mix(b, c, t), t) == Quadratic(a, b, c, t)
  {
    var s := 1.0 - t;
    assert Mix(Mix(a, b, t), Mix(b, c, t), t) == s * (s * a + t * b) + t * (s * b + t * c);
  }

  /** Interpolating two neighbouring quadratics gives the cubic. */
  lemma MixQuadratics(a: real, b: real, c: real, d: real, t: real)
    ensures Mix(Quadratic(a, b, c, t), Quadratic(b, c, d, t), t) == Cubic(a, b, c, d, t)
  {
    Expand(1.0 - t, t, a, b, c, d);
  }

  /** The polynomial identity behind `MixQuadratics`, with s and t independent. */
  lemma Expand(s: real, t: real, a: real, b: real, c: real, d: real)
    ensures s * (s * s * a + 2.0 * s * t * b + t * t * c) + t * (s * s * b + 2.0 * s * t * c + t * t * d)
         == s * s * s * a + 3.0 * s * s * t * b + 3.0 * s * t * t * c + t * t * t * d
  {
  }

  /** Three rounds of interpolation over four numbers give their cubic Bernstein value. */
  lemma MixThreeTimes(a: real, b: real, c: real, d: real, t: real)
    ensures Mix(Mix(Mix(a, b, t), Mix(b, c, t), t), Mix(Mix(b, c, t), Mix(c, d, t), t), t)
         == Cubic(a, b, c, d, t)
  {
    MixTwice(a, b, c, t);
    MixTwice(b, c, d, t);
    MixQuadratics(a, b, c, d, t);
  }

  /** Three interpolation passes over four points compute the Bernstein cubic. */
  lemma {:induction false} DeCasteljauIsBernstein(cs: seq<Point>, t: real)
    requires |cs| == 4
    ensures Pyramid(cs, t, 3, 0) == Bernstein(cs, t)
  {
    var l1 := [Lerp(cs[0], cs[1], t), Lerp(cs[1], cs[2], t), Lerp(cs[2], cs[3], t)];
    assert forall j :: 0 <= j < 3 ==> Pyramid(cs, t, 1, j) == l1[j];
    var l2 := [Lerp(l1[0], l1[1], t), Lerp(l1[1], l1[2], t)];
    assert forall j :: 0 <= j < 2 ==> Pyramid(cs, t, 2, j) == l2[j];
    assert Pyramid(cs, t, 3, 0) == Lerp(l2[0], l2[1], t);
    MixThreeTimes(cs[0].x, cs[1].x, cs[2].x, cs[3].x, t);
    MixThreeTimes(cs[0].y, cs[1].y, cs[2].y, cs[3].y, t);
  }

  /** The control points of CubicBezier(f0, f1, f2, f3). */
  function Controls(f0: real, f1: real, f2: real, f3: real): seq<Point>
  {
    [Point(0.0, 0.0), Point(f0, f1), Point(f2, f3), Point(1.0, 1.0)]
  }

  /** The parameter of sample `i`: 0 for the first sample, then `step` more for each
      following one, accumulated the way the sampling loop accumulates it. */
  function Param(i: nat, step: real): real
  {
    if i == 0 then 0.0 else Param(i - 1, step) + step
  }

  /** The accumulated parameter is `i` steps. */
  lemma {:induction false} ParamIsMultiple(i: nat, step: real)
    ensures Param(i, step) == i as real * step
  {
    if i > 0 {
      ParamIsMultiple(i - 1, step);
      assert i as real * step == (i - 1) as real * step + step;
    }
  }

  /** With a positive step, later samples have larger parameters. */
  lemma {:induction false} ParamIncreasing(i: nat, j: nat, step: real)
    requires i < j && step > 0.0
    ensures Param(i, step) < Param(j, step)
  {
    if i < j - 1 {
      ParamIncreasing(i, j - 1, step);
    }
  }

  /** `count` samples at parameters Param(0), Param(1), ... are exactly those whose
      parameter is at most 1. */
  ghost predicate CountFits(count: nat, step: real)
  {
    count >= 1 && Param(count - 1, step) <= 1.0 && Param(count, step) > 1.0
  }

  /** For a positive step exactly one sample count fits [0, 1]. */
  lemma CountUnique(m: nat, n: nat, step: real)
    requires step > 0.0 && CountFits(m, step) && CountFits(n, step)
    ensures m == n
  {
    if m < n {
      ParamIncreasing(m, n - 1, step);
    } else if n < m {
      ParamIncreasing(n, m - 1, step);
    }
  }

  /** A sample whose parameter is still at most 1 lies within the first 1/step steps. */
  lemma StepsFit(count: nat, step: real)
    requires step > 0.0 && Param(count, step) <= 1.0
    ensures count <= (1.0 / step).Floor
  {
    ParamIsMultiple(count, step);
    var c := count as real;
    assert c == (c * step) / step;
    assert (c * step) / step <= 1.0 / step;
  }

  /** `bps` samples the curve over `cs` at t = Param(0), Param(1), ... as long as t <= 1,
      each point scaled by `boost`. */
  ghost predicate IsSampling(bps: seq<Point>, cs: seq<Point>, step: real, boost: int)
    requires |cs| == 4
  {
    && CountFits(|bps|, step)
    && (forall i :: 0 <= i < |bps| ==> bps[i] == Boosted(Bernstein(cs, Param(i, step)), boost))
  }

  /** Two samplings of the same curve at the same step and boost are the same list, so
      building twice gives equal results. */
  lemma SamplingUnique(a: seq<Point>, b: seq<Point>, cs: seq<Point>, step: real, boost: int)
    requires |cs| == 4 && step > 0.0
    requires IsSampling(a, cs, step, boost) && IsSampling(b, cs, step, boost)
    ensures a == b
  {
    CountUnique(|a|, |b|, step);
  }

  class CubicBezier {
    /** Scale applied to every sampled point; at least 1. */
    var boost: int
    /** Parameter step between samples: the reciprocal of the requested precision. */
    var step: real
    /** The four control points (0,0), (f0,f1), (f2,f3), (1,1). */
    const cps: array<Point>

    ghost predicate Valid()
      reads this, cps
    {
      && cps.Length == 4
      && cps[0] == Point(0.0, 0.0) && cps[3] == Point(1.0, 1.0)
      && step > 0.0 && boost >= 1
    }

    /** A curve with control points (f0,f1) and (f2,f3), step 0.01 and boost 1. */
    constructor (f0: real, f1: real, f2: real, f3: real)
      ensures Valid() && fresh(cps)
      ensures cps[..] == Controls(f0, f1, f2, f3)
      ensures step == 0.01 && boost == 1
    {
      boost := 1;
      step := 0.01;
      cps := new Point[4];
      new;
      cps[0] := Point(0.0, 0.0);
      cps[1] := Point(f0, f1);
      cps[2] := Point(f2, f3);
      cps[3] := Point(1.0, 1.0);
    }

    /** Sets the number of parameter steps per unit; fewer than 4 is refused. */
    method Precision(precision: real) returns (outcome: Outcome)
      requires Valid()
      modifies this
      ensures Valid() && boost == old(boost)
      ensures precision < 4.0 ==> outcome == Thrown(IllegalArgument) && step == old(step)
      ensures precision >= 4.0 ==> outcome == Normal && step == 1.0 / precision
    {
      if precision < 4.0 {
        return Thrown(IllegalArgument);
      }
      step := 1.0 / precision;
      outcome := Normal;
    }

    /** Sets the scale of the sampled points; below 1 is refused. */
    method Boost(boost: int) returns (outcome: Outcome)
      requires Valid()
      modifies this
      ensures Valid() && step == old(step)
      ensures boost < 1 ==> outcome == Thrown(IllegalArgument) && this.boost == old(this.boost)
      ensures boost >= 1 ==> outcome == Normal && this.boost == boost
    {
      if boost < 1 {
        return Thrown(IllegalArgument);
      }
      this.boost := boost;
      outcome := Normal;
    }

    /** One sample of the curve at `t`: copies the control points into a scratch array and
        runs the three de Casteljau passes in place on it; the point is left in entry 0. */
    method EvaluateAt(t: real) returns (q: Point)
      requires Valid()
      ensures q == Pyramid(cps[..], t, 3, 0)
    {
      var n := cps.Length - 1;
      ghost var cs := cps[..];
      var p := new Point[n + 1];
      for j := 0 to n + 1
        invariant forall i :: 0 <= i < j ==> p[i] == cs[i]
      {
        p[j] := cps[j];
      }
      for k := 1 to n + 1
        invariant forall i :: 0 <= i <= n - k + 1 ==> p[i] == Pyramid(cs, t, k - 1, i)
      {
        for j := 0 to n - k + 1
          invariant forall i :: 0 <= i < j ==> p[i] == Pyramid(cs, t, k, i)
          invariant forall i :: j <= i <= n - k + 1 ==> p[i] == Pyramid(cs, t, k - 1, i)
        {
          p[j] := Lerp(p[j], p[j + 1], t);
        }
      }
      q := p[0];
    }

    /** Samples the curve at t = 0, step, 2 step, ... while t <= 1, appending each sample
        scaled by `boost`. The scaling is `Boosted`, the value-level form of the point's
        in-place `Boost` (whose contract states that equality); the sample list holds
        values, so no point object is mutated here. */
    method Build() returns (bps: seq<Point>)
      requires Valid()
      ensures IsSampling(bps, cps[..], step, boost)
      ensures bps[0] == Point(0.0, 0.0)
    {
      ghost var cs := cps[..];
      ghost var bound := (1.0 / step).Floor;
      bps := [];
      var t := 0.0;
      while t <= 1.0
        invariant t == Param(|bps|, step)
        invariant |bps| > 0 ==> Param(|bps| - 1, step) <= 1.0
        invariant forall i :: 0 <= i < |bps| ==> bps[i] == Boosted(Bernstein(cs, Param(i, step)), boost)
        decreases bound + 1 - |bps|
      {
        StepsFit(|bps|, step);
        var q := EvaluateAt(t);
        DeCasteljauIsBernstein(cs, t);
        bps := bps + [Boosted(q, boost)];
        t := t + step;
      }
      assert Bernstein(cs, 0.0) == Point(0.0, 0.0);
    }
  }
}
