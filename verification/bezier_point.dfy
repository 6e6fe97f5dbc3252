/** A 2-D point of a Bezier curve: as a value (Point) for control points and samples, and
    as the mutable object (BezierPoint) whose `boost` scales it in place. */
module BezierPoints {

  datatype Point = Point(x: real, y: real)

  /** The point with both coordinates multiplied by `v`. */
  function Boosted(p: Point, v: int): (r: Point)
  {
    Point(p.x * v as real, p.y * v as real)
  }

  /** Boosting by 1 leaves a point unchanged. */
  lemma BoostByOne(p: Point)
    ensures Boosted(p, 1) == p
  {
  }

  /** Two boosts in a row are one boost by the product of the factors. */
  lemma BoostCompose(p: Point, a: int, b: int)
    ensures Boosted(Boosted(p, a), b) == Boosted(p, a * b)
  {
    assert (a * b) as real == a as real * b as real;
  }

  class BezierPoint {
    var x: real
    var y: real

    constructor (x: real, y: real)
      ensures this.x == x && this.y == y
    {
      this.x := x;
      this.y := y;
    }

    /** The point's current coordinates as a value. */
    function Value(): Point
      reads this
    {
      Point(x, y)
    }

    /** Multiplies both coordinates by `v`, in place. */
    method Boost(v: int)
      modifies this
      ensures x == old(x) * v as real && y == old(y) * v as real
      ensures Value() == Boosted(old(Value()), v)
    {
      x := x * v as real;
      y := y * v as real;
    }
  }
}
