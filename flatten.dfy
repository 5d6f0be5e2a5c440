/**
 * Flattening of the parallel curve (offset curve) of an Euler spiral
 * segment to lines (flatten.rs).
 *
 * The number of lines comes from the integral of sqrt(|x^2 - 1|) (the
 * "ESPC integral"), evaluated exactly or by a piecewise approximation; the
 * subdivision parameters invert that integral. Three regimes guard the
 * divisions: a circular arc when k1 is small, a plain Euler spiral when the
 * offset is small, and the general formula otherwise.
 */
module Flatten {
  import opened Numeric
  import opened Geom
  import opened Euler

  /** A robustness strategy for the ESPC integral. */
  datatype EspcRobust = Normal | LowK1 | LowDist

  const K1_THRESH: real := 1e-3
  const DIST_THRESH: real := 1e-3

  const BREAK1: real := 0.8
  const BREAK2: real := 1.25
  const BREAK3: real := 2.1
  const SIN_SCALE: real := 1.0976991822760038
  const QUAD_A1: real := 0.6406
  const QUAD_B1: real := -0.81
  const QUAD_C1: real := 0.9148117935952064
  const QUAD_A2: real := 0.5
  const QUAD_B2: real := -0.156
  const QUAD_C2: real := 0.16145779359520596

  /** The breakpoints of the inverse approximation: the images of BREAK1,
      BREAK2 and BREAK3 under the forward one. */
  const INV_BREAK1: real := 0.7010707591262915
  const INV_BREAK2: real := 0.903249293595206
  const INV_BREAK3: real := 2.038857793595206

  lemma CopySignSameMagnitude(a: real, b: real, s: real)
    requires Abs(a) == Abs(b)
    ensures CopySign(a, s) == CopySign(b, s)
  {
  }

  /** The piecewise approximation of the ESPC integral on y = |x| >= 0: a
      scaled sine near 0, a cusp around 1, and two quadratics beyond. */
  function EspcIntApproxMagnitude(m: MathLib, y: real): (r: real)
  {
    if y < BREAK1 then
      m.sin(SIN_SCALE * y) * (1.0 / SIN_SCALE)
    else if y < BREAK2 then
      (m.sqrt(8.0) / 3.0) * (y - 1.0) * m.sqrt(Abs(y - 1.0)) + FRAC_PI_4
    else if y < BREAK3 then
      QUAD_A1 * y * y + QUAD_B1 * y + QUAD_C1
    else
      QUAD_A2 * y * y + QUAD_B2 * y + QUAD_C2
  }

  /** `espc_int_approx`: the branch is chosen by |x| and the sign copied from x. */
  function EspcIntApprox(m: MathLib, x: real): (r: real)
    ensures x < 0.0 ==> r <= 0.0
    ensures x >= 0.0 ==> r >= 0.0
  {
    CopySign(EspcIntApproxMagnitude(m, Abs(x)), x)
  }

  /** The approximation depends on x only through |x| and the sign of x. */
  lemma EspcIntApproxByMagnitude(m: MathLib, x: real)
    ensures EspcIntApprox(m, x) == CopySign(EspcIntApprox(m, Abs(x)), x)
  {
  }

  /** The approximation is an odd function, like the integral it stands for. */
  lemma EspcIntApproxOdd(m: MathLib, x: real)
    requires Lawful(m)
    ensures EspcIntApprox(m, -x) == -EspcIntApprox(m, x)
  {
    if x == 0.0 {
      SinZero(m);
      assert SIN_SCALE * 0.0 == 0.0;
      assert EspcIntApproxMagnitude(m, 0.0) == 0.0;
    } else {
      assert Abs(-x) == Abs(x);
      CopySignNeg(EspcIntApproxMagnitude(m, Abs(x)), x);
    }
  }

  /** The inverse approximation before the sign is copied. Unlike the forward
      one its first branch takes x itself, not |x|. */
  function EspcIntInvApproxMagnitude(m: MathLib, x: real): (r: real)
  {
    if Abs(x) < INV_BREAK1 then InvSineBranch(m, x) else InvOuterBranches(m, Abs(x))
  }

  /** The first branch of the inverse: the inverse of the scaled sine. */
  function InvSineBranch(m: MathLib, x: real): (r: real)
  {
    m.asin(x * SIN_SCALE) * (1.0 / SIN_SCALE)
  }

  /** The other branches of the inverse, on y = |x|: the inverse of the cusp
      and the larger roots of the two quadratics. */
  function InvOuterBranches(m: MathLib, y: real): (r: real)
  {
    if y < INV_BREAK2 then
      var b := y - FRAC_PI_4;
      var u := CopySign(m.powf(Abs(b), 2.0 / 3.0), b);
      u * m.cbrt(9.0 / 8.0) + 1.0
    else if y < INV_BREAK3 then
      var bb := 0.5 * QUAD_B1 / QUAD_A1;
      m.sqrt((bb * bb - QUAD_C1 / QUAD_A1) + (1.0 / QUAD_A1) * y) - bb
    else
      var bb := 0.5 * QUAD_B2 / QUAD_A2;
      m.sqrt((bb * bb - QUAD_C2 / QUAD_A2) + (1.0 / QUAD_A2) * y) - bb
  }

  lemma InvSineBranchOdd(m: MathLib, x: real)
    requires Lawful(m)
    ensures InvSineBranch(m, -x) == -InvSineBranch(m, x)
  {
    var v := m.asin(x * SIN_SCALE);
    assert (-x) * SIN_SCALE == -(x * SIN_SCALE);
    assert m.asin(-(x * SIN_SCALE)) == -v;
    assert (-v) * (1.0 / SIN_SCALE) == -(v * (1.0 / SIN_SCALE));
  }

  /** `espc_int_inv_approx`. */
  function EspcIntInvApprox(m: MathLib, x: real): (r: real)
    ensures x < 0.0 ==> r <= 0.0
    ensures x >= 0.0 ==> r >= 0.0
  {
    CopySign(EspcIntInvApproxMagnitude(m, x), x)
  }

  /** Negating x leaves the magnitude of the uncopied value alone: in the
      first branch because asin is odd, elsewhere because only |x| enters. */
  lemma EspcIntInvApproxMagnitudeEven(m: MathLib, x: real)
    requires Lawful(m)
    ensures Abs(EspcIntInvApproxMagnitude(m, -x)) == Abs(EspcIntInvApproxMagnitude(m, x))
  {
    assert Abs(-x) == Abs(x);
    if Abs(x) < INV_BREAK1 {
      InvSineBranchOdd(m, x);
    }
  }

  /** The inverse approximation is odd, and so depends on x only through |x|
      and the sign of x. */
  lemma EspcIntInvApproxOdd(m: MathLib, x: real)
    requires Lawful(m)
    ensures EspcIntInvApprox(m, -x) == -EspcIntInvApprox(m, x)
    ensures EspcIntInvApprox(m, x) == CopySign(EspcIntInvApprox(m, Abs(x)), x)
  {
    EspcIntInvApproxMagnitudeEven(m, x);
    if x == 0.0 {
      SinZero(m);
      assert 0.0 * SIN_SCALE == 0.0;
      assert EspcIntInvApproxMagnitude(m, 0.0) == 0.0;
    } else {
      CopySignNeg(EspcIntInvApproxMagnitude(m, x), x);
      CopySignSameMagnitude(EspcIntInvApproxMagnitude(m, -x), EspcIntInvApproxMagnitude(m, x), -x);
      if x < 0.0 {
        assert Abs(x) == -x;
      }
    }
  }

  /** `espc_integral`: the integral of sqrt(|x^2 - 1|), analytically. */
  function EspcIntegral(m: MathLib, x: real): (r: real)
  {
    var d := 1.0 - x * x;
    var ds := m.sqrt(Abs(d));
    0.5 * (ds * x + IntegralAngle(m, x, d, ds))
  }

  /** The angle term of the integral: asin x inside [-1, 1], and the
      logarithmic form (sign copied from x) outside. */
  function IntegralAngle(m: MathLib, x: real, d: real, ds: real): (r: real)
  {
    if d >= 0.0 then m.asin(x) else CopySign(FRAC_PI_2, x) - CopySign(m.ln(ds + Abs(x)), x)
  }

  lemma IntegralAngleOdd(m: MathLib, x: real, d: real, ds: real)
    requires Lawful(m)
    requires d < 0.0 ==> x != 0.0
    ensures IntegralAngle(m, -x, d, ds) == -IntegralAngle(m, x, d, ds)
  {
    if d < 0.0 {
      assert Abs(-x) == Abs(x);
      CopySignNeg(FRAC_PI_2, x);
      CopySignNeg(m.ln(ds + Abs(x)), x);
    }
  }

  lemma HalfSumOdd(p: real, a: real)
    ensures 0.5 * (-p + -a) == -(0.5 * (p + a))
  {
  }

  /** The exact integral is odd. */
  lemma EspcIntegralOdd(m: MathLib, x: real)
    requires Lawful(m)
    ensures EspcIntegral(m, -x) == -EspcIntegral(m, x)
  {
    var d := 1.0 - x * x;
    assert 1.0 - (-x) * (-x) == d;
    var ds := m.sqrt(Abs(d));
    assert ds * (-x) == -(ds * x);
    IntegralAngleOdd(m, x, d, ds);
    HalfSumOdd(ds * x, IntegralAngle(m, x, d, ds));
  }

  /** The residual below which `espc_integral_inv` stops refining. */
  const ESPC_EPS: real := 1e-15
  /** The most Newton corrections `espc_integral_inv` makes. */
  const NEWTON_ROUNDS: nat := 5

  /** The derivative of the inverse, sqrt(|y^2 - 1|). */
  function InvSlope(m: MathLib, y: real): (r: real)
  {
    m.sqrt(Abs(y * y - 1.0))
  }

  /** y is accepted as the inverse at x. */
  predicate Settled(m: MathLib, x: real, y: real)
  {
    Abs(EspcIntegral(m, y) - x) < ESPC_EPS
  }

  /** One Newton correction of y towards the inverse at x. */
  function NewtonStep(m: MathLib, x: real, y: real): (r: real)
  {
    y - Div(EspcIntegral(m, y) - x, InvSlope(m, y))
  }

  /** The loop of `espc_integral_inv` from y with `fuel` rounds left. */
  function EspcIntegralInvIter(m: MathLib, x: real, y: real, fuel: nat): (r: real)
    decreases fuel
  {
    if fuel == 0 || Settled(m, x, y) then y else EspcIntegralInvIter(m, x, NewtonStep(m, x, y), fuel - 1)
  }

  /** y after k unconditional Newton corrections. */
  function Newton(m: MathLib, x: real, y: real, k: nat): (r: real)
    decreases k
  {
    if k == 0 then y else Newton(m, x, NewtonStep(m, x, y), k - 1)
  }

  /** The number of corrections the loop makes from y with `fuel` rounds. */
  function Corrections(m: MathLib, x: real, y: real, fuel: nat): (k: nat)
    ensures k <= fuel
    decreases fuel
  {
    if fuel == 0 || Settled(m, x, y) then 0 else 1 + Corrections(m, x, NewtonStep(m, x, y), fuel - 1)
  }

  lemma {:induction false} NewtonShift(m: MathLib, x: real, y: real, k: nat)
    ensures Newton(m, x, NewtonStep(m, x, y), k) == NewtonStep(m, x, Newton(m, x, y, k))
    decreases k
  {
    if k > 0 {
      NewtonShift(m, x, NewtonStep(m, x, y), k - 1);
    }
  }

  /** The loop makes k <= fuel corrections: every iterate before the k-th was
      not yet settled, it stops at the first settled one, and it returns the
      k-th iterate. */
  lemma {:induction false} EspcIntegralInvIterStops(m: MathLib, x: real, y: real, fuel: nat)
    ensures var k := Corrections(m, x, y, fuel);
      && EspcIntegralInvIter(m, x, y, fuel) == Newton(m, x, y, k)
      && (forall i :: 0 <= i < k ==> !Settled(m, x, Newton(m, x, y, i)))
      && (k < fuel ==> Settled(m, x, Newton(m, x, y, k)))
    decreases fuel
  {
    if fuel > 0 && !Settled(m, x, y) {
      var y1 := NewtonStep(m, x, y);
      EspcIntegralInvIterStops(m, x, y1, fuel - 1);
      var k := Corrections(m, x, y, fuel);
      forall i | 0 <= i < k
        ensures !Settled(m, x, Newton(m, x, y, i))
      {
        if i > 0 {
          assert Newton(m, x, y, i) == Newton(m, x, y1, i - 1);
        }
      }
    }
  }

  /** `espc_integral_inv` as a value. */
  function EspcIntegralInvSpec(m: MathLib, x: real): (r: real)
  {
    EspcIntegralInvIter(m, x, EspcIntInvApprox(m, x), NEWTON_ROUNDS)
  }

  /** `espc_integral_inv`: the approximate inverse, refined by at most five
      Newton corrections and stopping as soon as the residual is below 1e-15. */
  method EspcIntegralInv(m: MathLib, x: real) returns (y: real)
    ensures y == EspcIntegralInvSpec(m, x)
    ensures var y0 := EspcIntInvApprox(m, x);
      exists k :: 0 <= k <= NEWTON_ROUNDS && y == Newton(m, x, y0, k)
  {
    hide EspcIntegralInvIter, EspcIntegralInvSpec, Newton, Corrections;
    y := EspcIntInvApprox(m, x);
    SpecUnfold(m, x);
    var i := 0;
    while i < NEWTON_ROUNDS
      invariant 0 <= i <= NEWTON_ROUNDS
      invariant EspcIntegralInvIter(m, x, y, NEWTON_ROUNDS - i) == EspcIntegralInvSpec(m, x)
    {
      IterUnfold(m, x, y, NEWTON_ROUNDS - i);
      var err := EspcIntegral(m, y) - x;
      if Abs(err) < ESPC_EPS {
        break;
      }
      var dydx := InvSlope(m, y);
      y := y - Div(err, dydx);
      i := i + 1;
    }
    IterUnfold(m, x, y, NEWTON_ROUNDS - i);
    ghost var y0 := EspcIntInvApprox(m, x);
    EspcIntegralInvIterStops(m, x, y0, NEWTON_ROUNDS);
    ghost var k := Corrections(m, x, y0, NEWTON_ROUNDS);
    assert 0 <= k <= NEWTON_ROUNDS && y == Newton(m, x, y0, k);
  }

  /** One round of the loop of `espc_integral_inv`. */
  lemma IterUnfold(m: MathLib, x: real, y: real, fuel: nat)
    ensures EspcIntegralInvIter(m, x, y, fuel)
      == if fuel == 0 || Settled(m, x, y) then y else EspcIntegralInvIter(m, x, NewtonStep(m, x, y), fuel - 1)
  {
  }

  lemma SpecUnfold(m: MathLib, x: real)
    ensures EspcIntegralInvSpec(m, x) == EspcIntegralInvIter(m, x, EspcIntInvApprox(m, x), NEWTON_ROUNDS)
  {
  }

  /** `n_subdiv_analytic`: the number of subdivisions from the exact
      integral, with a special case for an arc (k1 = 0). */
  function NSubdivAnalytic(m: MathLib, k0: real, k1: real, scale: real, dist: real, tol: real): (r: real)
  {
    var distScaled := Div(dist, scale);
    if k1 == 0.0 then
      var k := k0 * (k0 * distScaled + 1.0);
      0.5 * FRAC_1_SQRT_2 * m.sqrt(Div(scale * Abs(k), tol))
    else
      var a := -2.0 * distScaled * k1;
      var b := -1.0 - 2.0 * distScaled * k0;
      var integral := EspcIntegral(m, a + b) - EspcIntegral(m, b);
      0.5 * FRAC_1_SQRT_2 * m.sqrt(Div(scale, tol)) * ScaledIntegral(m, k0, k1, distScaled, a, b, integral)
  }

  /** The integral scaled by the integrand at the curvature peak and by 1/a. */
  function ScaledIntegral(m: MathLib, k0: real, k1: real, distScaled: real, a: real, b: real, integral: real): (r: real)
  {
    var kPeak := k0 - Div(k1 * b, a);
    var integrandPeak := m.sqrt(Abs(kPeak * (kPeak * distScaled + 1.0)));
    Div(integral * integrandPeak, a)
  }

  /** For an arc the analytic count is never negative. */
  lemma NSubdivAnalyticArcNonNeg(m: MathLib, k0: real, scale: real, dist: real, tol: real)
    requires Lawful(m)
    ensures NSubdivAnalytic(m, k0, 0.0, scale, dist, tol) >= 0.0
  {
    var k := k0 * (k0 * Div(dist, scale) + 1.0);
    var s := m.sqrt(Div(scale * Abs(k), tol));
    assert s >= 0.0;
    MulNonNeg(0.5 * FRAC_1_SQRT_2, s);
  }

  /** In the general regime the analytic count and the count
      `flatten_offset` plans with are the same function of the integral of
      the subdivision density over [b, a + b], for the same a and b: the
      analytic one takes the exact integral and is scaled by
      sqrt(scale / tol) / (2 sqrt 2), the plan takes the approximate one
      (its scale multiplier is applied later), so the two agree wherever
      the two integrals do. */
  lemma NSubdivAnalyticMatchesPlan(m: MathLib, k0: real, k1: real, scale: real, dist: real, tol: real)
    requires Abs(k1) >= K1_THRESH && Abs(Div(dist, scale)) >= DIST_THRESH
    ensures var ds := Div(dist, scale);
      var a, b := -2.0 * ds * k1, -1.0 - 2.0 * ds * k0;
      var p := FlattenPlan(m, k0, k1, ds);
      var factor := 0.5 * FRAC_1_SQRT_2 * m.sqrt(Div(scale, tol));
      && p.robust == Normal && p.a == a && p.b == b
      && NSubdivAnalytic(m, k0, k1, scale, dist, tol) == factor * ScaledIntegral(m, k0, k1, ds, a, b, EspcIntegral(m, a + b) - EspcIntegral(m, b))
      && p.nFrac == ScaledIntegral(m, k0, k1, ds, a, b, p.integral)
      && p.integral == EspcIntApprox(m, a + b) - EspcIntApprox(m, b)
      && (p.integral == EspcIntegral(m, a + b) - EspcIntegral(m, b) ==> NSubdivAnalytic(m, k0, k1, scale, dist, tol) == factor * p.nFrac)
  {
    hide EspcIntegral, EspcIntApprox, ScaledIntegral, Div, NSubdivAnalytic;
    NSubdivAnalyticCurved(m, k0, k1, scale, dist, tol);
  }

  lemma NSubdivAnalyticCurved(m: MathLib, k0: real, k1: real, scale: real, dist: real, tol: real)
    requires k1 != 0.0
    ensures var ds := Div(dist, scale);
      var a, b := -2.0 * ds * k1, -1.0 - 2.0 * ds * k0;
      NSubdivAnalytic(m, k0, k1, scale, dist, tol)
        == 0.5 * FRAC_1_SQRT_2 * m.sqrt(Div(scale, tol)) * ScaledIntegral(m, k0, k1, ds, a, b, EspcIntegral(m, a + b) - EspcIntegral(m, b))
  {
    hide EspcIntegral, ScaledIntegral, Div, Abs;
  }

  /** `x * |x|.sqrt()`, the antiderivative (up to 2/3) used when the
      offset is negligible. */
  function SignedPow32(m: MathLib, x: real): (r: real)
  {
    x * m.sqrt(Abs(x))
  }

  /** The regime and the values `flatten_offset` keeps for the inversion:
      `a`, `b`, `integral` and `int0` (all 0 in the arc regime). */
  datatype Plan = Plan(nFrac: real, robust: EspcRobust, a: real, b: real, integral: real, int0: real)

  /** The unit-chord curvatures (k0 at the start of the segment, k1) and the
      scaled offset of a segment. */
  function StartK0(es: EulerSeg): (r: real)
  {
    es.params.k0 - 0.5 * es.params.k1
  }

  function DistScaled(m: MathLib, es: EulerSeg, offset: real): (r: real)
  {
    Div(offset * es.params.ch, Hypot(m, Sub(es.p0, es.p1)))
  }

  /** The number of subdivisions for curvature 1. */
  function ScaleMultiplier(m: MathLib, es: EulerSeg, tol: real): (r: real)
  {
    0.5 * FRAC_1_SQRT_2 * m.sqrt(Div(Hypot(m, Sub(es.p0, es.p1)), es.params.ch * tol))
  }

  /** The arc regime's (unrounded) count. */
  function ArcCount(m: MathLib, k0: real, k1: real, distScaled: real): (r: real)
  {
    var k := k0 + 0.5 * k1;
    m.sqrt(Abs(k * (k * distScaled + 1.0)))
  }

  /** The regime decision and the locals of `flatten_offset`. */
  function FlattenPlan(m: MathLib, k0: real, k1: real, distScaled: real): (r: Plan)
    ensures r.robust == LowK1 <==> Abs(k1) < K1_THRESH
    ensures r.robust == LowDist <==> Abs(k1) >= K1_THRESH && Abs(distScaled) < DIST_THRESH
    ensures r.robust == Normal <==> Abs(k1) >= K1_THRESH && Abs(distScaled) >= DIST_THRESH
    ensures r.robust == LowK1 ==> r.a == 0.0 && r.b == 0.0 && r.integral == 0.0 && r.int0 == 0.0
    ensures r.robust != LowK1 ==> r.integral + r.int0 == (if r.robust == LowDist then SignedPow32(m, r.a + r.b) else EspcIntApprox(m, r.a + r.b))
  {
    if Abs(k1) < K1_THRESH then
      Plan(ArcCount(m, k0, k1, distScaled), LowK1, 0.0, 0.0, 0.0, 0.0)
    else if Abs(distScaled) < DIST_THRESH then
      var a, b := k1, k0;
      var int0 := SignedPow32(m, b);
      var integral := SignedPow32(m, a + b) - int0;
      Plan(Div((2.0 / 3.0) * integral, a), LowDist, a, b, integral, int0)
    else
      var a := -2.0 * distScaled * k1;
      var b := -1.0 - 2.0 * distScaled * k0;
      var int0 := EspcIntApprox(m, b);
      var integral := EspcIntApprox(m, a + b) - int0;
      Plan(ScaledIntegral(m, k0, k1, distScaled, a, b, integral), Normal, a, b, integral, int0)
  }

  /** The unrounded count of each regime. */
  lemma PlanArcCount(m: MathLib, k0: real, k1: real, ds: real)
    requires Abs(k1) < K1_THRESH
    ensures FlattenPlan(m, k0, k1, ds).nFrac == ArcCount(m, k0, k1, ds)
  {
  }

  lemma PlanLowDistCount(m: MathLib, k0: real, k1: real, ds: real)
    requires Abs(k1) >= K1_THRESH && Abs(ds) < DIST_THRESH
    ensures FlattenPlan(m, k0, k1, ds).nFrac == Div((2.0 / 3.0) * (SignedPow32(m, k1 + k0) - SignedPow32(m, k0)), k1)
  {
  }

  lemma PlanNormalCount(m: MathLib, k0: real, k1: real, ds: real)
    requires Abs(k1) >= K1_THRESH && Abs(ds) >= DIST_THRESH
    ensures FlattenPlan(m, k0, k1, ds).nFrac == NormalCount(m, k0, k1, ds)
  {
  }

  /** The general regime's (unrounded) count from the approximate integral. */
  function NormalCount(m: MathLib, k0: real, k1: real, distScaled: real): (r: real)
  {
    var a := -2.0 * distScaled * k1;
    var b := -1.0 - 2.0 * distScaled * k0;
    var integral := EspcIntApprox(m, a + b) - EspcIntApprox(m, b);
    ScaledIntegral(m, k0, k1, distScaled, a, b, integral)
  }

  /** The subdivision parameter s for the fraction t of the integral. */
  function SubdivParam(m: MathLib, p: Plan, t: real): (r: real)
  {
    match p.robust
    case LowK1 => t
    case LowDist =>
      var c := m.cbrt(p.integral * t + p.int0);
      Div(c * Abs(c) - p.b, p.a)
    case Normal =>
      Div(EspcIntInvApprox(m, p.integral * t + p.int0) - p.b, p.a)
  }

  /** `x.ceil().max(1.0) as usize`: the least whole number that is at least x
      and at least 1. */
  function SubdivCount(x: real): (r: nat)
    ensures r >= 1
    ensures x <= r as real
    ensures r == 1 || r as real < x + 1.0
  {
    var c := Ceil(x);
    if c < 1 then 1 else c
  }

  /** The fraction (i + 1) / n of the i-th interior point. */
  function Fraction(i: nat, n: nat): (r: real)
    requires n > 0
  {
    ((i + 1) as real) / (n as real)
  }

  /** The i-th of the n points `flatten_offset` hands to its callback: the
      offset curve at the subdivision parameter of (i + 1) / n, and at t = 1
      for the last one. */
  function OffsetPoint(m: MathLib, es: EulerSeg, offset: real, plan: Plan, n: nat, i: nat): (r: Point)
    requires i < n
  {
    if i < n - 1 then es.EvalWithOffset(m, SubdivParam(m, plan, Fraction(i, n)), offset)
    else es.EvalWithOffset(m, 1.0, offset)
  }

  /** The number of points of a segment: max(1, ceil(n_frac * scale_multiplier)). */
  function PointCount(m: MathLib, es: EulerSeg, offset: real, tol: real): (r: nat)
    ensures r >= 1
  {
    SubdivCount(FlattenPlan(m, StartK0(es), es.params.k1, DistScaled(m, es, offset)).nFrac * ScaleMultiplier(m, es, tol))
  }

  /** The points `flatten_offset` hands to its callback, in order. */
  function OffsetPoints(m: MathLib, es: EulerSeg, offset: real, tol: real): (r: seq<Point>)
    ensures |r| == PointCount(m, es, offset, tol)
  {
    var plan := FlattenPlan(m, StartK0(es), es.params.k1, DistScaled(m, es, offset));
    var n := PointCount(m, es, offset, tol);
    seq(n, i requires 0 <= i < n => OffsetPoint(m, es, offset, plan, n, i))
  }

  /** The regime decision of `flatten_offset`, with its locals `a`, `b`,
      `integral` and `int0` left at 0 in the arc regime. */
  method OffsetPlan(m: MathLib, k0: real, k1: real, distScaled: real) returns (plan: Plan)
    ensures plan == FlattenPlan(m, k0, k1, distScaled)
  {
    var a, b, integral, int0 := 0.0, 0.0, 0.0, 0.0;
    var nFrac: real;
    var robust: EspcRobust;
    if Abs(k1) < K1_THRESH {
      nFrac, robust := ArcCount(m, k0, k1, distScaled), LowK1;
    } else if Abs(distScaled) < DIST_THRESH {
      a := k1;
      b := k0;
      int0 := SignedPow32(m, b);
      var int1 := SignedPow32(m, a + b);
      integral := int1 - int0;
      nFrac, robust := Div((2.0 / 3.0) * integral, a), LowDist;
    } else {
      a := -2.0 * distScaled * k1;
      b := -1.0 - 2.0 * distScaled * k0;
      int0 := EspcIntApprox(m, b);
      var int1 := EspcIntApprox(m, a + b);
      integral := int1 - int0;
      nFrac, robust := ScaledIntegral(m, k0, k1, distScaled, a, b, integral), Normal;
    }
    plan := Plan(nFrac, robust, a, b, integral, int0);
  }

  /** `flatten_offset`: the callback is modelled by the sequence of the
      points it receives. */
  method FlattenOffset(m: MathLib, es: EulerSeg, offset: real, tol: real) returns (pts: seq<Point>)
    ensures pts == OffsetPoints(m, es, offset, tol)
  {
    hide EulerSeg.EvalWithOffset, FlattenPlan, OffsetPoints, SubdivParam;
    var k0, k1 := StartK0(es), es.params.k1;
    var distScaled := DistScaled(m, es, offset);
    var scaleMultiplier := ScaleMultiplier(m, es, tol);
    var plan := OffsetPlan(m, k0, k1, distScaled);
    var n := SubdivCount(plan.nFrac * scaleMultiplier);
    assert n == PointCount(m, es, offset, tol);
    pts := [];
    for i := 0 to n - 1
      invariant |pts| == i
      invariant forall j :: 0 <= j < i ==> pts[j] == OffsetPoint(m, es, offset, plan, n, j)
    {
      var t := Fraction(i, n);
      var s := SubdivParam(m, plan, t);
      pts := pts + [es.EvalWithOffset(m, s, offset)];
    }
    pts := pts + [es.EvalWithOffset(m, 1.0, offset)];
    OffsetPointsElements(m, es, offset, tol, pts);
  }

  /** A sequence of the right length whose every element is the matching
      point is the sequence of points. */
  lemma OffsetPointsElements(m: MathLib, es: EulerSeg, offset: real, tol: real, pts: seq<Point>)
    requires |pts| == PointCount(m, es, offset, tol)
    requires forall j :: 0 <= j < |pts| ==> pts[j] == OffsetPoint(m, es, offset, FlattenPlan(m, StartK0(es), es.params.k1, DistScaled(m, es, offset)), |pts|, j)
    ensures pts == OffsetPoints(m, es, offset, tol)
  {
    hide EulerSeg.EvalWithOffset, OffsetPoint;
  }

  /** The number of points is max(1, ceil(n_frac * scale_multiplier)), and
      the last one is the offset curve at t = 1. */
  lemma OffsetPointsEnd(m: MathLib, es: EulerSeg, offset: real, tol: real)
    ensures var r := OffsetPoints(m, es, offset, tol);
      && |r| >= 1
      && r[|r| - 1] == es.EvalWithOffset(m, 1.0, offset)
  {
  }

  /** The interior fractions (i + 1) / n, i < n - 1, increase strictly and lie
      strictly between 0 and 1. */
  lemma FractionsInside(i: nat, n: nat)
    requires i + 1 < n
    ensures 0.0 < Fraction(i, n) < 1.0
    ensures i + 2 < n ==> Fraction(i, n) < Fraction(i + 1, n)
  {
    var d := n as real;
    DivCompare((i + 1) as real, d);
    DivMonotone((i + 1) as real, (i + 2) as real, d);
  }

  lemma DivCompare(x: real, d: real)
    requires 0.0 < x < d
    ensures 0.0 < x / d < 1.0
  {
    DivMonotone(0.0, x, d);
    DivMonotone(x, d, d);
    assert d / d == 1.0;
  }

  lemma DivMonotone(x: real, y: real, d: real)
    requires x < y && d > 0.0
    ensures x / d < y / d
  {
  }

  /** In the arc regime the interior points are the offset curve at the
      uniform parameters (i + 1) / n, strictly inside (0, 1); the start point
      (t = 0) is never among them. */
  lemma LowK1Uniform(m: MathLib, es: EulerSeg, offset: real, tol: real, i: nat)
    requires Abs(es.params.k1) < K1_THRESH
    requires i + 1 < |OffsetPoints(m, es, offset, tol)|
    ensures var n := |OffsetPoints(m, es, offset, tol)|;
      && OffsetPoints(m, es, offset, tol)[i] == es.EvalWithOffset(m, Fraction(i, n), offset)
      && 0.0 < Fraction(i, n) < 1.0
  {
    FractionsInside(i, |OffsetPoints(m, es, offset, tol)|);
  }

  /** A path element per point: the `line_to` calls of the callback. */
  function LineTos(pts: seq<Point>): (r: seq<PathEl>)
    ensures |r| == |pts|
    ensures forall i :: 0 <= i < |r| ==> r[i] == LineTo(pts[i])
  {
    seq(|pts|, i requires 0 <= i < |pts| => LineTo(pts[i]))
  }

  /** The lines through the points of several segments, in order. */
  function Lines(chunks: seq<seq<Point>>): (r: seq<PathEl>)
  {
    if chunks == [] then [] else Lines(chunks[..|chunks| - 1]) + LineTos(chunks[|chunks| - 1])
  }

  /** The number of points of several segments. */
  function Total(chunks: seq<seq<Point>>): (r: nat)
  {
    if chunks == [] then 0 else Total(chunks[..|chunks| - 1]) + |chunks[|chunks| - 1]|
  }

  /** There is a line per point, and every one is a `LineTo`. */
  lemma {:induction false} LinesShape(chunks: seq<seq<Point>>)
    ensures |Lines(chunks)| == Total(chunks)
    ensures forall i :: 0 <= i < |Lines(chunks)| ==> Lines(chunks)[i].LineTo?
  {
    if chunks != [] {
      var init := chunks[..|chunks| - 1];
      LinesShape(init);
      var l := Lines(chunks);
      forall i | 0 <= i < |l|
        ensures l[i].LineTo?
      {
        if i < |Lines(init)| {
          assert l[i] == Lines(init)[i];
        } else {
          assert l[i] == LineTos(chunks[|chunks| - 1])[i - |Lines(init)|];
        }
      }
    }
  }

  /** No segment contributes no point. */
  predicate NoneEmpty(chunks: seq<seq<Point>>)
  {
    forall j :: 0 <= j < |chunks| ==> |chunks[j]| >= 1
  }

  /** With no empty segment there are at least as many points as segments. */
  lemma {:induction false} TotalAtLeast(chunks: seq<seq<Point>>)
    requires NoneEmpty(chunks)
    ensures Total(chunks) >= |chunks|
  {
    if chunks != [] {
      var init := chunks[..|chunks| - 1];
      assert forall j :: 0 <= j < |init| ==> init[j] == chunks[j];
      TotalAtLeast(init);
    }
  }

  /** A `MoveTo` followed by the lines through the points of the segments. */
  function PathFrom(start: Point, chunks: seq<seq<Point>>): (r: seq<PathEl>)
  {
    [MoveTo(start)] + Lines(chunks)
  }

  /** The path of a sequence of segments: nothing when there are none,
      otherwise a `MoveTo` at the start and the lines through the points. */
  function OpenPath(start: Point, chunks: seq<seq<Point>>): (r: seq<PathEl>)
  {
    if chunks == [] then [] else PathFrom(start, chunks)
  }

  /** No segments give an empty path. Otherwise the path holds exactly one
      `MoveTo`, at its head; everything after it is a `LineTo`, one per
      point, and so at least one per segment. */
  lemma OpenPathShape(start: Point, chunks: seq<seq<Point>>)
    requires NoneEmpty(chunks)
    ensures var r := OpenPath(start, chunks);
      && (chunks == [] <==> r == [])
      && (chunks != [] ==>
        && |r| == 1 + Total(chunks) >= 1 + |chunks|
        && r[0] == MoveTo(start)
        && forall i :: 1 <= i < |r| ==> r[i].LineTo?)
  {
    LinesShape(chunks);
    TotalAtLeast(chunks);
    var r := PathFrom(start, chunks);
    forall i | 1 <= i < |r|
      ensures r[i].LineTo?
    {
      assert r[i] == Lines(chunks)[i - 1];
    }
  }

  /** Adding a segment's points to the path appends their lines, and the
      `MoveTo` when it is the first segment. */
  lemma OpenPathSnoc(start: Point, chunks: seq<seq<Point>>, pts: seq<Point>)
    ensures OpenPath(start, chunks + [pts]) == (if chunks == [] then [MoveTo(start)] else OpenPath(start, chunks)) + LineTos(pts)
  {
    assert (chunks + [pts])[..|chunks|] == chunks;
    if chunks == [] {
      assert Lines([pts]) == Lines([]) + LineTos(pts);
    }
  }

  /** The points of each segment at tolerance 1. */
  function SegPoints(m: MathLib, segs: seq<EulerSeg>, offset: real): (r: seq<seq<Point>>)
    ensures |r| == |segs|
    ensures NoneEmpty(r)
  {
    seq(|segs|, j requires 0 <= j < |segs| => OffsetPoints(m, segs[j], offset, 1.0))
  }

  /** One more segment adds its points to the end. */
  lemma SegPointsSnoc(m: MathLib, segs: seq<EulerSeg>, offset: real, k: nat)
    requires k < |segs|
    ensures SegPoints(m, segs[..k + 1], offset) == SegPoints(m, segs[..k], offset) + [OffsetPoints(m, segs[k], offset, 1.0)]
  {
    hide OffsetPoints;
    var l, r := SegPoints(m, segs[..k + 1], offset), SegPoints(m, segs[..k], offset) + [OffsetPoints(m, segs[k], offset, 1.0)];
    forall j | 0 <= j < k + 1
      ensures l[j] == r[j]
    {
      assert segs[..k + 1][j] == segs[j];
    }
  }

  /** The path `flatten_offset_iter` builds: empty for no segments, otherwise
      one `MoveTo` at the offset start of the first segment and the lines. */
  function OffsetPath(m: MathLib, segs: seq<EulerSeg>, offset: real): (r: seq<PathEl>)
  {
    OpenPath(if segs == [] then Origin else segs[0].EvalWithOffset(m, 0.0, offset), SegPoints(m, segs, offset))
  }

  /** `flatten_offset_iter`, over the segments of the iterator. */
  method FlattenOffsetIter(m: MathLib, segs: seq<EulerSeg>, offset: real) returns (result: seq<PathEl>)
    ensures result == OffsetPath(m, segs, offset)
  {
    hide EulerSeg.EvalWithOffset, OffsetPoints, SegPoints, PathFrom, Lines, LineTos;
    result := [];
    var tol := 1.0;
    var first := true;
    ghost var start := if segs == [] then Origin else segs[0].EvalWithOffset(m, 0.0, offset);
    for k := 0 to |segs|
      invariant first <==> k == 0
      invariant result == OpenPath(start, SegPoints(m, segs[..k], offset))
    {
      var es := segs[k];
      if first {
        result := result + [MoveTo(es.EvalWithOffset(m, 0.0, offset))];
        first := false;
      }
      var pts := FlattenOffset(m, es, offset, tol);
      SegPointsSnoc(m, segs, offset, k);
      OpenPathSnoc(start, SegPoints(m, segs[..k], offset), pts);
      result := result + LineTos(pts);
    }
    assert segs[..|segs|] == segs;
  }
}
