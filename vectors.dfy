// Two-dimensional vectors with `real` coordinates standing for the `Double`
// vectors the game uses (Vector.zero, Vector.one, Vector.distanceSQ).

module Vectors {

  datatype Vector = Vector(x: real, y: real)

  const Zero: Vector := Vector(0.0, 0.0)
  const One: Vector := Vector(1.0, 1.0)

  function Plus(a: Vector, b: Vector): Vector {
    Vector(a.x + b.x, a.y + b.y)
  }

  function Scaled(a: Vector, k: real): Vector {
    Vector(a.x * k, a.y * k)
  }

  function Abs(r: real): (a: real)
    ensures a >= 0.0 && (a == r || a == -r)
  {
    if r < 0.0 then -r else r
  }

  /** Squared Euclidean distance, `Vector.distanceSQ`. */
  function DistanceSq(a: Vector, b: Vector): (d: real)
    ensures d >= 0.0
    ensures a == b ==> d == 0.0
  {
    var dx := a.x - b.x;
    var dy := a.y - b.y;
    assert dx * dx >= 0.0 && dy * dy >= 0.0;
    dx * dx + dy * dy
  }

  /** True when each coordinate of `p` is within `bound` of the same coordinate of `centre`. */
  predicate WithinBox(p: Vector, centre: Vector, bound: real) {
    Abs(p.x - centre.x) <= bound && Abs(p.y - centre.y) <= bound
  }
}
