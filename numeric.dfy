/**
 * Numeric foundations shared by every other module.
 *
 * Floating-point values (f64 and f32 alike) are modelled as exact reals.
 * The transcendental functions the kernel calls are not interpreted: they
 * are carried as the fields of a `MathLib` value that every computation
 * takes as a parameter, and only the few laws listed in `Lawful` are ever
 * assumed of them.
 */
module Numeric {

  datatype Option<T> = None | Some(value: T)

  /** The library functions the kernel calls, left uninterpreted.
      `solveQuadratic(c0, c1, c2)` stands for kurbo's
      `common::solve_quadratic`, which returns the roots of
      c0 + c1 x + c2 x^2 = 0. */
  datatype MathLib = MathLib(
    sin: real -> real,
    cos: real -> real,
    asin: real -> real,
    atan2: (real, real) -> real,
    hypot: (real, real) -> real,
    sqrt: real -> real,
    cbrt: real -> real,
    ln: real -> real,
    powf: (real, real) -> real,
    solveQuadratic: (real, real, real) -> seq<real>)

  /** Every value in `roots` solves c0 + c1 x + c2 x^2 = 0, and there are at most two. */
  ghost predicate SolvesQuadratic(c0: real, c1: real, c2: real, roots: seq<real>) {
    |roots| <= 2 && forall i :: 0 <= i < |roots| ==> c0 + c1 * roots[i] + c2 * roots[i] * roots[i] == 0.0
  }

  /** The laws of the library functions that the proofs rely on, and no others. */
  ghost predicate Lawful(m: MathLib) {
    && (forall x :: m.sqrt(x) >= 0.0)
    && (forall a, b :: m.hypot(a, b) >= 0.0)
    && (forall a, b :: m.hypot(-a, -b) == m.hypot(a, b))
    && (forall x :: m.sin(-x) == -m.sin(x))
    && (forall x :: m.cos(-x) == m.cos(x))
    && m.cos(0.0) == 1.0
    && (forall x :: m.asin(-x) == -m.asin(x))
    && (forall c0, c1, c2 :: SolvesQuadratic(c0, c1, c2, m.solveQuadratic(c0, c1, c2)))
  }

  lemma SinZero(m: MathLib)
    requires Lawful(m)
    ensures m.sin(0.0) == 0.0 && m.asin(0.0) == 0.0
  {
    assert m.sin(-0.0) == -m.sin(0.0);
    assert m.asin(-0.0) == -m.asin(0.0);
  }

  /** std::f64::consts::PI */
  const PI: real := 3.141592653589793
  /** std::f64::consts::FRAC_PI_2 */
  const FRAC_PI_2: real := 1.5707963267948966
  /** std::f64::consts::FRAC_PI_4 */
  const FRAC_PI_4: real := 0.7853981633974483
  /** std::f64::consts::FRAC_1_SQRT_2 */
  const FRAC_1_SQRT_2: real := 0.7071067811865476

  function Abs(x: real): (r: real)
    ensures r >= 0.0 && (r == x || r == -x)
  {
    if x < 0.0 then -x else x
  }

  function Max(a: real, b: real): (r: real)
    ensures r >= a && r >= b && (r == a || r == b)
  {
    if a < b then b else a
  }

  /** `a.copysign(s)`: the magnitude of `a` with the sign of `s`; a zero `s`
      counts as positive (negative zero is not modelled). */
  function CopySign(a: real, s: real): (r: real)
    ensures Abs(r) == Abs(a)
    ensures s < 0.0 ==> r <= 0.0
    ensures s >= 0.0 ==> r >= 0.0
  {
    if s < 0.0 then -Abs(a) else Abs(a)
  }

  lemma CopySignNeg(a: real, s: real)
    requires s != 0.0
    ensures CopySign(a, -s) == -CopySign(a, s)
  {
  }

  /** Division; a zero divisor gives 0 in place of IEEE infinity or NaN. */
  function Div(a: real, b: real): (r: real)
    ensures b != 0.0 ==> r * b == a
  {
    if b == 0.0 then 0.0 else a / b
  }

  lemma DivZero(b: real)
    ensures Div(0.0, b) == 0.0
  {
  }

  lemma DivNeg(a: real, b: real)
    ensures Div(-a, b) == -Div(a, b)
  {
  }

  lemma DivNonNeg(a: real, b: real)
    requires a >= 0.0 && b >= 0.0
    ensures Div(a, b) >= 0.0
  {
  }

  lemma MulNonNeg(a: real, b: real)
    requires a >= 0.0 && b >= 0.0
    ensures a * b >= 0.0
  {
  }

  /** `x.powi(n)`. */
  function Powi(x: real, n: nat): (r: real)
    ensures x >= 0.0 ==> r >= 0.0
  {
    if n == 0 then 1.0 else
      var r := x * Powi(x, n - 1);
      MulNonNegOrAny(x, Powi(x, n - 1));
      r
  }

  /** Any positive power of zero is zero. */
  lemma PowiZero(n: nat)
    requires n > 0
    ensures Powi(0.0, n) == 0.0
  {
  }

  lemma MulNonNegOrAny(a: real, b: real)
    ensures a >= 0.0 && b >= 0.0 ==> a * b >= 0.0
  {
    if a >= 0.0 && b >= 0.0 {
      MulNonNeg(a, b);
    }
  }

  /** `x.ceil()`: the least integer not below x. */
  function Ceil(x: real): (r: int)
    ensures x <= r as real < x + 1.0
  {
    -((-x).Floor)
  }

  /** `x as usize`: truncation toward zero, negative values saturate to 0.
      (Saturation at the top of the usize range is not modelled.) */
  function ToUsize(x: real): (r: nat)
    ensures x >= 0.0 ==> r as real <= x < r as real + 1.0
    ensures x < 0.0 ==> r == 0
  {
    if x < 0.0 then 0 else x.Floor
  }

  function Pow2(j: nat): (r: nat)
    ensures r >= 1
  {
    if j == 0 then 1 else 2 * Pow2(j - 1)
  }

  lemma Pow2Add(a: nat, b: nat)
    ensures Pow2(a + b) == Pow2(a) * Pow2(b)
  {
    if a > 0 {
      Pow2Add(a - 1, b);
    }
  }

  lemma Pow2Monotone(a: nat, b: nat)
    requires a <= b
    ensures Pow2(a) <= Pow2(b)
  {
    if a < b {
      Pow2Monotone(a, b - 1);
    }
  }

  lemma Pow2Even(j: nat)
    requires j > 0
    ensures Pow2(j) % 2 == 0
  {
  }

  /** `n.trailing_zeros()` for a non-zero n. */
  function TrailingZeros(n: nat): (r: nat)
    requires n > 0
    decreases n
  {
    if n % 2 == 1 then 0 else 1 + TrailingZeros(n / 2)
  }

  /** `n >> s`: n divided by 2^s, rounded down. */
  function Shr(n: nat, s: nat): (r: nat)
    ensures r <= n
  {
    if s == 0 then n else Shr(n / 2, s - 1)
  }

  /** Shifting out the trailing zeros leaves an odd number, and n is that
      odd number times 2^trailing_zeros(n). */
  lemma {:induction false} TrailingZerosSplit(n: nat)
    requires n > 0
    ensures n == Pow2(TrailingZeros(n)) * Shr(n, TrailingZeros(n))
    ensures Shr(n, TrailingZeros(n)) % 2 == 1
    decreases n
  {
    if n % 2 == 0 {
      var h := n / 2;
      assert n == 2 * h;
      TrailingZerosSplit(h);
      var k := TrailingZeros(h);
      var p, q := Pow2(k), Shr(h, k);
      assert TrailingZeros(n) == k + 1;
      assert Shr(n, k + 1) == q;
      assert Pow2(k + 1) == 2 * p;
      assert h == p * q;
      assert 2 * (p * q) == (2 * p) * q;
    }
  }
}
