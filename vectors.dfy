/** Two-dimensional vectors over the reals, standing in for Unity's `Vector2`
    (whose components are 32-bit floats). Only the operations the motion
    resolver uses are defined: the linear ones exactly, the two velocity
    responses (Unity's `Vector2.Reflect` and the character's slide) as the
    linear identities they are. */
module Vectors {

  datatype Vector2 = Vector2(x: real, y: real)

  const Zero: Vector2 := Vector2(0.0, 0.0)

  function Abs(r: real): real { if r < 0.0 then -r else r }

  function Add(a: Vector2, b: Vector2): Vector2 { Vector2(a.x + b.x, a.y + b.y) }

  function Sub(a: Vector2, b: Vector2): Vector2 { Vector2(a.x - b.x, a.y - b.y) }

  function Neg(a: Vector2): Vector2 { Vector2(-a.x, -a.y) }

  /** `k * a` (and `a * k`, which Unity computes the same way). */
  function Scale(k: real, a: Vector2): Vector2 { Vector2(k * a.x, k * a.y) }

  /** `a / d` for a vector and a scalar. */
  function Div(a: Vector2, d: real): Vector2
    requires d != 0.0
  {
    Vector2(a.x / d, a.y / d)
  }

  /** Unity's `Vector2.Dot`. */
  function Dot(a: Vector2, b: Vector2): real { a.x * b.x + a.y * b.y }

  /** The squared magnitude, `Vector2.sqrMagnitude`. */
  function LengthSq(a: Vector2): real { Dot(a, a) }

  ghost predicate IsUnit(n: Vector2) { LengthSq(n) == 1.0 }

  /** Unity's `Vector2.Reflect(v, n)`: mirror `v` across the line whose normal is `n`. */
  function Reflect(v: Vector2, n: Vector2): Vector2 { Sub(v, Scale(2.0 * Dot(v, n), n)) }

  /** The character's slide response `v -= Dot(v, n) * n`: remove the part of `v` along `n`. */
  function Project(v: Vector2, n: Vector2): Vector2 { Sub(v, Scale(Dot(v, n), n)) }

  lemma DotSubScale(a: Vector2, k: real, b: Vector2, c: Vector2)
    ensures Dot(Sub(a, Scale(k, b)), c) == Dot(a, c) - k * Dot(b, c)
  {
    calc {
      Dot(Sub(a, Scale(k, b)), c);
      (a.x - k * b.x) * c.x + (a.y - k * b.y) * c.y;
      a.x * c.x + a.y * c.y - k * (b.x * c.x + b.y * c.y);
    }
  }

  lemma LengthSqSubScale(a: Vector2, k: real, b: Vector2)
    ensures LengthSq(Sub(a, Scale(k, b))) == LengthSq(a) - 2.0 * k * Dot(a, b) + k * k * LengthSq(b)
  {
    calc {
      LengthSq(Sub(a, Scale(k, b)));
      (a.x - k * b.x) * (a.x - k * b.x) + (a.y - k * b.y) * (a.y - k * b.y);
      a.x * a.x + a.y * a.y - 2.0 * k * (a.x * b.x + a.y * b.y) + k * k * (b.x * b.x + b.y * b.y);
    }
  }

  /** Reflecting across a unit normal negates the velocity's component along it. */
  lemma ReflectNegatesNormalPart(v: Vector2, n: Vector2)
    requires IsUnit(n)
    ensures Dot(Reflect(v, n), n) == -Dot(v, n)
  {
    DotSubScale(v, 2.0 * Dot(v, n), n, n);
  }

  /** Reflecting across a unit normal preserves speed: `|Reflect(v, n)| == |v|`. */
  lemma ReflectPreservesSpeed(v: Vector2, n: Vector2)
    requires IsUnit(n)
    ensures LengthSq(Reflect(v, n)) == LengthSq(v)
  {
    var d := Dot(v, n);
    LengthSqSubScale(v, 2.0 * d, n);
    assert LengthSq(Reflect(v, n)) == LengthSq(v) - 4.0 * d * d + 4.0 * d * d * LengthSq(n);
  }

  /** Reflecting twice across the same unit normal gives the velocity back. */
  lemma ReflectInvolutive(v: Vector2, n: Vector2)
    requires IsUnit(n)
    ensures Reflect(Reflect(v, n), n) == v
  {
    ReflectNegatesNormalPart(v, n);
    var r := Reflect(v, n);
    var d := Dot(v, n);
    assert Reflect(r, n) == Sub(r, Scale(-2.0 * d, n));
  }

  /** After the slide against a unit normal no component along the normal is left. */
  lemma ProjectRemovesNormalPart(v: Vector2, n: Vector2)
    requires IsUnit(n)
    ensures Dot(Project(v, n), n) == 0.0
  {
    DotSubScale(v, Dot(v, n), n, n);
  }

  /** Sliding never speeds the body up: `|Project(v, n)|² == |v|² - Dot(v, n)²`. */
  lemma ProjectSpeed(v: Vector2, n: Vector2)
    requires IsUnit(n)
    ensures LengthSq(Project(v, n)) == LengthSq(v) - Dot(v, n) * Dot(v, n)
    ensures LengthSq(Project(v, n)) <= LengthSq(v)
  {
    var d := Dot(v, n);
    LengthSqSubScale(v, d, n);
    assert LengthSq(Project(v, n)) == LengthSq(v) - 2.0 * d * d + d * d * LengthSq(n);
  }

  /** Sliding twice against the same unit normal is the same as sliding once. */
  lemma ProjectIdempotent(v: Vector2, n: Vector2)
    requires IsUnit(n)
    ensures Project(Project(v, n), n) == Project(v, n)
  {
    ProjectRemovesNormalPart(v, n);
  }

  /** The slide is the average of the velocity and its reflection. */
  lemma ProjectIsHalfwayToReflect(v: Vector2, n: Vector2)
    ensures Add(Project(v, n), Project(v, n)) == Add(v, Reflect(v, n))
  {
  }
}
