/**
 * Plane geometry: points and vectors (kurbo's `Point`/`Vec2` and the f32
 * `Point` of cubic32.rs, one type here), cubic Béziers and path elements.
 */
module Geom {
  import opened Numeric

  /** A point or a vector; the source does not separate the two in its f32 code. */
  datatype Point = Point(x: real, y: real)

  function Add(a: Point, b: Point): Point { Point(a.x + b.x, a.y + b.y) }
  function Sub(a: Point, b: Point): Point { Point(a.x - b.x, a.y - b.y) }
  function Scale(a: Point, s: real): Point { Point(a.x * s, a.y * s) }
  function Neg(a: Point): Point { Point(-a.x, -a.y) }
  function Dot(a: Point, b: Point): real { a.x * b.x + a.y * b.y }
  /** kurbo's `Vec2::cross`: the z component of the 3-D cross product. */
  function Cross(a: Point, b: Point): real { a.x * b.y - a.y * b.x }
  function Hypot2(a: Point): real { a.x * a.x + a.y * a.y }
  function Hypot(m: MathLib, a: Point): real { m.hypot(a.x, a.y) }
  function Atan2(m: MathLib, a: Point): real { m.atan2(a.y, a.x) }
  const Origin: Point := Point(0.0, 0.0)

  /** Adding and then subtracting the same vector is the identity, and the
      operations act componentwise. */
  lemma AddSubCancel(a: Point, b: Point)
    ensures Sub(Add(a, b), b) == a
    ensures Add(Sub(a, b), b) == a
    ensures Sub(a, a) == Origin
  {
  }

  /** The squared length is the self dot product and never negative. */
  lemma Hypot2Props(a: Point)
    ensures Hypot2(a) == Dot(a, a) && Hypot2(a) >= 0.0
  {
    SquareNonNeg(a.x);
    SquareNonNeg(a.y);
  }

  lemma SquareNonNeg(v: real)
    ensures v * v >= 0.0
  {
    if v < 0.0 {
      var w := -v;
      assert w * w > 0.0;
      assert v * v == w * w;
    }
  }

  /** The length of a vector is the length of its negation. */
  lemma HypotNeg(m: MathLib, a: Point)
    requires Lawful(m)
    ensures Hypot(m, Neg(a)) == Hypot(m, a) >= 0.0
    ensures Hypot(m, Sub(Origin, a)) == Hypot(m, a)
  {
    assert Sub(Origin, a) == Neg(a);
  }

  /** Cross and dot products under negation and exchange of their arguments. */
  lemma CrossDotSymmetry(a: Point, b: Point)
    ensures Cross(b, a) == -Cross(a, b) && Dot(b, a) == Dot(a, b)
    ensures Cross(Neg(a), Neg(b)) == Cross(a, b) && Dot(Neg(a), Neg(b)) == Dot(a, b)
  {
  }

  datatype Cubic = Cubic(p0: Point, p1: Point, p2: Point, p3: Point)

  /** One coordinate of the Bernstein form the source writes out,
      w0 m^3 + (3 w1 m^2 + 3 w2 m t + w3 t^2) t with m = 1 - t. */
  function BernsteinValue(w0: real, w1: real, w2: real, w3: real, t: real): real
  {
    var m := 1.0 - t;
    w0 * (m * m * m) + (w1 * (3.0 * (m * m)) + w2 * (3.0 * (m * t)) + w3 * (t * t)) * t
  }

  /** One coordinate of the source's derivative expression,
      (w1 - w0) m^2 + 2 (w2 - w1) m t + (w3 - w2) t^2. */
  function BernsteinThirdDeriv(w0: real, w1: real, w2: real, w3: real, t: real): real
  {
    var m := 1.0 - t;
    (w1 - w0) * (m * m) + (w2 - w1) * (2.0 * (m * t)) + (w3 - w2) * (t * t)
  }

  /** Point at `t` and ONE THIRD of the derivative at `t`. Point arithmetic
      is componentwise, so each coordinate is computed on its own. */
  function EvalAndDeriv(c: Cubic, t: real): (r: (Point, Point))
  {
    (Point(BernsteinValue(c.p0.x, c.p1.x, c.p2.x, c.p3.x, t), BernsteinValue(c.p0.y, c.p1.y, c.p2.y, c.p3.y, t)),
     Point(BernsteinThirdDeriv(c.p0.x, c.p1.x, c.p2.x, c.p3.x, t), BernsteinThirdDeriv(c.p0.y, c.p1.y, c.p2.y, c.p3.y, t)))
  }

  lemma EvalAndDerivAtZero(c: Cubic)
    ensures EvalAndDeriv(c, 0.0) == (c.p0, Sub(c.p1, c.p0))
  {
  }

  lemma EvalAndDerivAtOne(c: Cubic)
    ensures EvalAndDeriv(c, 1.0) == (c.p3, Sub(c.p3, c.p2))
  {
  }

  /** Power-basis coefficients (a, b, c, d) of a Bernstein cubic coordinate. */
  function PowerCoeffs(w0: real, w1: real, w2: real, w3: real): (real, real, real, real)
  {
    (w0, 3.0 * (w1 - w0), 3.0 * (w0 - 2.0 * w1 + w2), w3 - w0 + 3.0 * (w1 - w2))
  }

  /** Value of the scalar cubic a + b t + c t^2 + d t^3. */
  function Poly3(k: (real, real, real, real), t: real): real
  {
    k.0 + t * (k.1 + t * (k.2 + t * k.3))
  }

  /** Value of its derivative b + 2c t + 3d t^2. */
  function Poly3Deriv(k: (real, real, real, real), t: real): real
  {
    k.1 + t * (2.0 * k.2 + t * (3.0 * k.3))
  }

  /** Each coordinate of the point is the power-basis cubic a + b t + c t^2 +
      d t^3, and three times the matching coordinate of the returned vector is
      b + 2c t + 3d t^2, the derivative of that cubic: the vector is one third
      of the derivative of the point with respect to t. */
  lemma EvalAndDerivIsThirdDerivative(c: Cubic, t: real)
    ensures
      var (p, q) := EvalAndDeriv(c, t);
      var kx, ky := PowerCoeffs(c.p0.x, c.p1.x, c.p2.x, c.p3.x), PowerCoeffs(c.p0.y, c.p1.y, c.p2.y, c.p3.y);
      && p == Point(Poly3(kx, t), Poly3(ky, t))
      && Scale(q, 3.0) == Point(Poly3Deriv(kx, t), Poly3Deriv(ky, t))
  {
    BernsteinPowerBasis(c.p0.x, c.p1.x, c.p2.x, c.p3.x, t);
    BernsteinPowerBasis(c.p0.y, c.p1.y, c.p2.y, c.p3.y, t);
  }

  lemma BernsteinPowerBasis(w0: real, w1: real, w2: real, w3: real, t: real)
    ensures BernsteinValue(w0, w1, w2, w3, t) == Poly3(PowerCoeffs(w0, w1, w2, w3), t)
    ensures BernsteinThirdDeriv(w0, w1, w2, w3, t) * 3.0 == Poly3Deriv(PowerCoeffs(w0, w1, w2, w3), t)
  {
  }

  /** kurbo's `PathEl`. */
  datatype PathEl =
    | MoveTo(p: Point)
    | LineTo(p: Point)
    | QuadTo(q1: Point, q2: Point)
    | CurveTo(c1: Point, c2: Point, c3: Point)
    | ClosePath
}
