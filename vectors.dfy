/** Two-dimensional vectors as the joystick uses them (Unity's Vector2),
    with real components in place of 32-bit floats.

    Unity computes `magnitude` with a square root and `normalized` by dividing
    by it. Neither is expressible over the reals without sqrt, so the model
    never computes them: a caller supplies both, and `IsPolar` states the
    relations they must satisfy. */
module Vectors {

  datatype Vec2 = Vec2(x: real, y: real)

  const Zero := Vec2(0.0, 0.0)

  function Add(a: Vec2, b: Vec2): Vec2 { Vec2(a.x + b.x, a.y + b.y) }

  function Sub(a: Vec2, b: Vec2): Vec2 { Vec2(a.x - b.x, a.y - b.y) }

  /** Vector times scalar (Unity's `Vector2 * float`). */
  function Scale(v: Vec2, k: real): Vec2 { Vec2(v.x * k, v.y * k) }

  /** Component-wise product (Unity's `Vector2 * Vector2`). */
  function Mul(a: Vec2, b: Vec2): Vec2 { Vec2(a.x * b.x, a.y * b.y) }

  /** Component-wise quotient (Unity's `Vector2 / Vector2`). */
  function Div(a: Vec2, b: Vec2): (r: Vec2)
    requires b.x != 0.0 && b.y != 0.0
    ensures Mul(r, b) == a
  {
    Vec2(a.x / b.x, a.y / b.y)
  }

  /** Squared length (Unity's `sqrMagnitude`). */
  function SqMag(v: Vec2): real { v.x * v.x + v.y * v.y }

  /** `m` is the length of `v` and `u` the unit vector along it, as Unity's
      `v.magnitude` and `v.normalized` give them: `v` is `u` stretched by `m`,
      and `u` has length one except for the zero vector, which has length
      zero and normalises to zero. */
  predicate IsPolar(v: Vec2, m: real, u: Vec2) {
    m >= 0.0 && Scale(u, m) == v && (if m == 0.0 then u == Zero else SqMag(u) == 1.0)
  }

  /** A unit vector or the zero vector, as Unity's `normalized` returns. */
  predicate IsDirection(u: Vec2) {
    u == Zero || SqMag(u) == 1.0
  }

  lemma SqMagScale(v: Vec2, k: real)
    ensures SqMag(Scale(v, k)) == k * k * SqMag(v)
  {
    assert (v.x * k) * (v.x * k) == k * k * (v.x * v.x);
    assert (v.y * k) * (v.y * k) == k * k * (v.y * v.y);
  }

  /** The supplied magnitude is the true length: its square is the squared
      length of the vector, so it is the only non-negative number that could
      be supplied. */
  lemma PolarMagnitude(v: Vec2, m: real, u: Vec2)
    requires IsPolar(v, m, u)
    ensures m * m == SqMag(v)
  {
    SqMagScale(u, m);
  }
}
