/**
 * Euler spiral segments (euler.rs): the parameters of a spiral whose
 * curvature is linear in arc length, fitted to a pair of end tangent angles
 * relative to the chord, evaluation in the unit-chord frame and in the
 * frame of a segment's end points, and the series that integrate the
 * spiral.
 */
module Euler {
  import opened Numeric
  import opened Geom

  /** Tangent angles and normalized tangent lengths of a cubic piece. */
  datatype CubicParams = CubicParams(th0: real, th1: real, d0: real, d1: real)

  /** `EulerParams`: the end angles, the curvature `k0` at the middle plus its
      slope `k1` (both for a unit-length spiral) and the chord length `ch`. */
  datatype EulerParams = EulerParams(th0: real, th1: real, k0: real, k1: real, ch: real)
  {
    /** Tangent angle at parameter t. */
    function EvalTh(t: real): (r: real)
    {
      (k0 + 0.5 * k1 * (t - 1.0)) * t - th0
    }

    /** Curvature at t, scaled to a unit chord. */
    function Curvature(t: real): (r: real)
    {
      (k0 + k1 * (t - 0.5)) * ch
    }

    /** All parameters (in [0, 1] or not) at which the tangent angle is `th`. */
    function InvTh(m: MathLib, th: real): (r: seq<real>)
      requires Lawful(m)
      ensures |r| <= 2
      ensures forall i :: 0 <= i < |r| ==> EvalTh(r[i]) == th
    {
      var c0, c1, c2 := -th - th0, k0 - 0.5 * k1, 0.5 * k1;
      var roots := m.solveQuadratic(c0, c1, c2);
      assert SolvesQuadratic(c0, c1, c2, roots);
      forall i | 0 <= i < |roots| ensures EvalTh(roots[i]) == th {
        var t := roots[i];
        assert c0 + c1 * t + c2 * t * t == 0.0;
        assert EvalTh(t) == c1 * t + c2 * t * t - th0;
      }
      roots
    }

    /** Point at parameter t on the spiral in the frame whose chord runs from
        (0, 0) to (1, 0). */
    function Eval(m: MathLib, t: real): (r: Point)
    {
      var uv := IntegEuler(m, (k0 + k1 * (0.5 * t - 0.5)) * t, k1 * t * t, 1e-12);
      RotateScaled(m, uv, Div(t, ch), EvalTh(t * 0.5))
    }

    /** The point at t displaced by `offset` along the normal. */
    function EvalWithOffset(m: MathLib, t: real, offset: real): (r: Point)
    {
      var th := EvalTh(t);
      Add(Eval(m, t), Point(offset * m.sin(th), offset * m.cos(th)))
    }

    /** The point at t on the evolute (the locus of centres of curvature). */
    function EvalEvolute(m: MathLib, t: real): (r: Point)
    {
      EvalWithOffset(m, t, Div(-1.0, Curvature(t)))
    }
  }

  /** The integral `uv` scaled by `scale` and turned by -thm, as `eval` does
      with the integral of the sub-arc [0, t]. */
  function RotateScaled(m: MathLib, uv: (real, real), scale: real, thm: real): (r: Point)
  {
    var s := scale * m.sin(thm);
    var c := scale * m.cos(thm);
    Point(uv.0 * c - uv.1 * s, -uv.1 * c - uv.0 * s)
  }

  lemma RotateScaledZero(m: MathLib, uv: (real, real), thm: real)
    ensures RotateScaled(m, uv, 0.0, thm) == Origin
  {
  }

  /** With k0 = th0 + th1 the tangent angle runs from -th0 at t = 0 to th1 at
      t = 1. */
  lemma EvalThEnds(p: EulerParams)
    requires p.k0 == p.th0 + p.th1
    ensures p.EvalTh(0.0) == -p.th0
    ensures p.EvalTh(1.0) == p.th1
  {
  }

  /** The tangent angle is quadratic, so its change over [t, t + dt] is dt
      times the unscaled curvature k0 + k1 (s - 0.5) at the midpoint s. */
  lemma EvalThChange(p: EulerParams, t: real, dt: real)
    ensures p.EvalTh(t + dt) - p.EvalTh(t) == (p.k0 + (t + 0.5 * dt - 0.5) * p.k1) * dt
  {
    var a, b := p.k0 - 0.5 * p.k1, 0.5 * p.k1;
    assert p.EvalTh(t) == a * t + b * (t * t) - p.th0;
    assert p.EvalTh(t + dt) == a * (t + dt) + b * ((t + dt) * (t + dt)) - p.th0;
    assert (t + dt) * (t + dt) == t * t + 2.0 * t * dt + dt * dt;
  }

  /** Curvature is linear in t: it is the chord length times k0 at t = 0.5,
      and changes by chord length times k1 per unit of t. */
  lemma CurvatureLinear(p: EulerParams, t: real, dt: real)
    ensures p.Curvature(0.5) == p.k0 * p.ch
    ensures p.Curvature(t + dt) - p.Curvature(t) == p.k1 * dt * p.ch
  {
    assert p.Curvature(t + dt) - p.Curvature(t) == (p.k1 * dt) * p.ch;
  }

  /** The spiral starts at the origin of its frame: at t = 0 both scale
      factors t / ch vanish, whatever the integral is. */
  lemma EvalAtZero(m: MathLib, p: EulerParams)
    ensures p.Eval(m, 0.0) == Origin
  {
    DivZero(p.ch);
    RotateScaledZero(m, IntegEuler(m, (p.k0 + p.k1 * (0.5 * 0.0 - 0.5)) * 0.0, p.k1 * 0.0 * 0.0, 1e-12), p.EvalTh(0.0 * 0.5));
  }

  /** A zero offset gives the spiral itself. */
  lemma EvalWithZeroOffset(m: MathLib, p: EulerParams, t: real)
    ensures p.EvalWithOffset(m, t, 0.0) == p.Eval(m, t)
  {
    var th := p.EvalTh(t);
    assert Point(0.0 * m.sin(th), 0.0 * m.cos(th)) == Origin;
    AddOrigin(p.Eval(m, t));
  }

  lemma AddOrigin(q: Point)
    ensures Add(q, Origin) == q
  {
  }

  /** An Euler spiral segment between two points. */
  datatype EulerSeg = EulerSeg(p0: Point, p1: Point, params: EulerParams)
  {
    /** Map a point of the unit-chord frame to the segment's frame, where
        (0, 0) is `p0` and (1, 0) is `p1`. */
    function ToFrame(q: Point): (r: Point)
    {
      var chord := Sub(p1, p0);
      Point(p0.x + chord.x * q.x - chord.y * q.y, p0.y + chord.x * q.y + chord.y * q.x)
    }

    function Eval(m: MathLib, t: real): (r: Point)
    {
      ToFrame(params.Eval(m, t))
    }

    /** The offset is measured in the segment's frame, so it is divided by
        the chord length before the unit-chord evaluation. */
    function EvalWithOffset(m: MathLib, t: real, offset: real): (r: Point)
    {
      ToFrame(params.EvalWithOffset(m, t, Div(offset, Hypot(m, Sub(p1, p0)))))
    }

    function EvalEvolute(m: MathLib, t: real): (r: Point)
    {
      ToFrame(params.EvalEvolute(m, t))
    }
  }

  /** The frame map sends the unit chord's ends to the segment's ends. */
  lemma ToFrameEnds(s: EulerSeg)
    ensures s.ToFrame(Origin) == s.p0
    ensures s.ToFrame(Point(1.0, 0.0)) == s.p1
  {
  }

  /** A segment starts at its first end point. */
  lemma SegEvalAtZero(m: MathLib, s: EulerSeg)
    ensures s.Eval(m, 0.0) == s.p0
  {
    EvalAtZero(m, s.params);
    ToFrameEnds(s);
  }

  /** A zero offset gives the segment itself. */
  lemma SegEvalWithZeroOffset(m: MathLib, s: EulerSeg, t: real)
    ensures s.EvalWithOffset(m, t, 0.0) == s.Eval(m, t)
  {
    DivZero(Hypot(m, Sub(s.p1, s.p0)));
    EvalWithZeroOffset(m, s.params, t);
  }

  /** `CubicParams::from_points_derivs`: `th0` is the angle from the chord
      p0 -> p1 to the start derivative `q0` and `th1` the angle from the end
      derivative `q1` to the chord (each the atan2 of a cross and a dot
      product), and the lengths are scaled by dt over the squared chord. */
  function FromPointsDerivs(m: MathLib, p0: Point, p1: Point, q0: Point, q1: Point, dt: real): (r: CubicParams)
  {
    var chord := Sub(p1, p0);
    var scale := Div(dt, Hypot2(chord));
    var h0 := Point(Dot(q0, chord), Cross(chord, q0));
    var h1 := Point(Dot(q1, chord), Cross(q1, chord));
    CubicParams(Atan2(m, h0), Atan2(m, h1), Hypot(m, h0) * scale, Hypot(m, h1) * scale)
  }

  /** For a non-negative dt both normalized lengths are non-negative. */
  lemma FromPointsDerivsLengths(m: MathLib, p0: Point, p1: Point, q0: Point, q1: Point, dt: real)
    requires Lawful(m) && dt >= 0.0
    ensures var r := FromPointsDerivs(m, p0, p1, q0, q1, dt); r.d0 >= 0.0 && r.d1 >= 0.0
  {
    var chord := Sub(p1, p0);
    Hypot2Props(chord);
    DivNonNeg(dt, Hypot2(chord));
    var scale := Div(dt, Hypot2(chord));
    var h0, h1 := Point(Dot(q0, chord), Cross(chord, q0)), Point(Dot(q1, chord), Cross(q1, chord));
    assert Hypot(m, h0) >= 0.0 && Hypot(m, h1) >= 0.0;
    MulNonNeg(Hypot(m, h0), scale);
    MulNonNeg(Hypot(m, h1), scale);
  }

  /** The area-like term of the error estimate, 0.15 (2 d0 s0 + 2 d1 s1 - d0 d1 s01). */
  function AreaTerm(d0: real, d1: real, s0: real, s1: real, s01: real): (r: real)
  {
    0.15 * (2.0 * d0 * s0 + 2.0 * d1 * s1 - d0 * d1 * s01)
  }

  /** The centre term of the error estimate, c5 symm^5 + c2 asymm symm^2. */
  function CentreTerm(c5: real, c2: real, symm: real, asymm: real): (r: real)
  {
    c5 * Powi(symm, 5) + c2 * asymm * Powi(symm, 2)
  }

  /** A halo term of the error estimate, c x dist. */
  function HaloTerm(c: real, x: real, dist: real): (r: real)
  {
    c * x * dist
  }

  lemma CentreTermNonNeg(c5: real, c2: real, symm: real, asymm: real)
    requires c5 >= 0.0 && c2 >= 0.0 && symm >= 0.0 && asymm >= 0.0
    ensures CentreTerm(c5, c2, symm, asymm) >= 0.0
  {
    MulNonNeg(c5, Powi(symm, 5));
    MulNonNeg(c2, asymm);
    MulNonNeg(c2 * asymm, Powi(symm, 2));
  }

  lemma HaloTermNonNeg(c: real, x: real, dist: real)
    requires c >= 0.0 && x >= 0.0 && dist >= 0.0
    ensures HaloTerm(c, x, dist) >= 0.0
  {
    MulNonNeg(c, x);
    MulNonNeg(c * x, dist);
  }

  /** `CubicParams::est_euler_err`: the estimated distance between the cubic
      piece and its Euler spiral fit, normalized to the chord. */
  function EstEulerErr(m: MathLib, p: CubicParams): (r: real)
  {
    var e0 := Div(2.0 / 3.0, 1.0 + m.cos(p.th0));
    var e1 := Div(2.0 / 3.0, 1.0 + m.cos(p.th1));
    var s0 := m.sin(p.th0);
    var s1 := m.sin(p.th1);
    var s01 := m.sin(s0 + s1);
    var amin := AreaTerm(e0, e1, s0, s1, s01);
    var a := AreaTerm(p.d0, p.d1, s0, s1, s01);
    var aerr := Abs(a - amin);
    var symm := Abs(p.th0 + p.th1);
    var asymm := Abs(p.th0 - p.th1);
    var dist := m.hypot(p.d0 - e0, p.d1 - e1);
    var ctr := CentreTerm(3.7e-6, 6e-3, symm, asymm);
    1.25 * ctr + 1.55 * aerr + HaloTerm(5e-3, symm, dist) + HaloTerm(7e-2, asymm, dist)
  }

  /** The error estimate is never negative: every summand is a product of
      absolute values, lengths and powers of absolute values. */
  lemma EstEulerErrNonNeg(m: MathLib, p: CubicParams)
    requires Lawful(m)
    ensures EstEulerErr(m, p) >= 0.0
  {
    var e0 := Div(2.0 / 3.0, 1.0 + m.cos(p.th0));
    var e1 := Div(2.0 / 3.0, 1.0 + m.cos(p.th1));
    var symm := Abs(p.th0 + p.th1);
    var asymm := Abs(p.th0 - p.th1);
    var dist := m.hypot(p.d0 - e0, p.d1 - e1);
    CentreTermNonNeg(3.7e-6, 6e-3, symm, asymm);
    HaloTermNonNeg(5e-3, symm, dist);
    HaloTermNonNeg(7e-2, asymm, dist);
  }

  /** The residual of the spiral fit for a trial `k1`: the difference between
      the wanted angle difference th1 - th0 and the one the spiral with
      curvature (k0, k1) produces. */
  function FitResidual(m: MathLib, th0: real, th1: real, k1: real): (r: real)
  {
    var uv := IntegEuler(m, th0 + th1, k1, 1e-12);
    (th1 - th0) - (0.25 * k1 - 2.0 * m.atan2(uv.1, uv.0))
  }

  /** The chord length of the spiral with curvature (th0 + th1, k1). */
  function FitChord(m: MathLib, th0: real, th1: real, k1: real): (r: real)
  {
    var uv := IntegEuler(m, th0 + th1, k1, 1e-12);
    m.hypot(uv.0, uv.1)
  }

  /** The starting guess for `k1`. */
  function InitialK1(th0: real, th1: real): (r: real)
  {
    var dth, k0 := th1 - th0, th0 + th1;
    (6.0 - (1.0 / 70.0) * dth * dth - 0.1 * k0 * k0) * dth
  }

  /** The secant iteration of `from_angles` with `fuel` rounds left; None
      when the rounds run out (the source panics). */
  function FromAnglesIter(m: MathLib, th0: real, th1: real, k1: real, k1Old: real, errorOld: real, fuel: nat): (r: Option<EulerParams>)
    decreases fuel
  {
    if fuel == 0 then None
    else
      var error := FitResidual(m, th0, th1, k1);
      if Abs(error) < 1e-9 then Some(EulerParams(th0, th1, th0 + th1, k1, FitChord(m, th0, th1, k1)))
      else FromAnglesIter(m, th0, th1, SecantStep(k1, k1Old, error, errorOld), k1, error, fuel - 1)
  }

  /** One secant update of `k1` from the last two trial values and residuals. */
  function SecantStep(k1: real, k1Old: real, error: real, errorOld: real): (r: real)
  {
    k1 + Div((k1Old - k1) * error, error - errorOld)
  }

  /** `p` fits the end angles th0 and th1: it keeps them, has k0 = th0 + th1,
      leaves a residual below 1e-9, and its chord is the length of the
      spiral's integral. */
  predicate IsFit(m: MathLib, th0: real, th1: real, p: EulerParams)
  {
    && p.th0 == th0 && p.th1 == th1 && p.k0 == th0 + th1
    && Abs(FitResidual(m, th0, th1, p.k1)) < 1e-9
    && p.ch == FitChord(m, th0, th1, p.k1)
  }

  /** The most secant rounds `from_angles` makes. */
  const FitRounds: nat := 10

  /** `EulerParams::from_angles` as a value: at most ten secant rounds. */
  function FromAnglesSpec(m: MathLib, th0: real, th1: real): (r: Option<EulerParams>)
  {
    FromAnglesIter(m, th0, th1, InitialK1(th0, th1), 0.0, th1 - th0, FitRounds)
  }

  lemma {:induction false} FromAnglesIterSound(m: MathLib, th0: real, th1: real, k1: real, k1Old: real, errorOld: real, fuel: nat)
    ensures var r := FromAnglesIter(m, th0, th1, k1, k1Old, errorOld, fuel);
      r.Some? ==> IsFit(m, th0, th1, r.value)
    decreases fuel
  {
    if fuel > 0 {
      var error := FitResidual(m, th0, th1, k1);
      if Abs(error) >= 1e-9 {
        FromAnglesIterSound(m, th0, th1, SecantStep(k1, k1Old, error, errorOld), k1, error, fuel - 1);
      }
    }
  }

  /** `EulerParams::from_angles`: the secant loop on `k1`, at most ten rounds;
      None stands for the source's panic "fit_euler diverged". */
  method FromAngles(m: MathLib, th0: real, th1: real) returns (r: Option<EulerParams>)
    ensures r == FromAnglesSpec(m, th0, th1)
    ensures r.Some? ==> IsFit(m, th0, th1, r.value)
  {
    hide FitResidual, FitChord;
    var k1Old := 0.0;
    var dth := th1 - th0;
    var k0 := th0 + th1;
    var k1 := InitialK1(th0, th1);
    var errorOld := dth;
    for i := 0 to FitRounds
      invariant FromAnglesIter(m, th0, th1, k1, k1Old, errorOld, FitRounds - i) == FromAnglesSpec(m, th0, th1)
    {
      var error := FitResidual(m, th0, th1, k1);
      if Abs(error) < 1e-9 {
        return Some(EulerParams(th0, th1, k0, k1, FitChord(m, th0, th1, k1)));
      }
      var newK1 := SecantStep(k1, k1Old, error, errorOld);
      k1Old := k1;
      errorOld := error;
      k1 := newK1;
    }
    return None;
  }

  /** The coefficient of x^k in the product of the polynomials a and b
      (coefficients lowest power first), summing a[i] b[k - i] from i up. */
  function Conv(a: seq<real>, b: seq<real>, k: nat, i: nat): (r: real)
    decreases |a| - i
  {
    if i >= |a| || i > k then 0.0
    else (if k - i < |b| then a[i] * b[k - i] else 0.0) + Conv(a, b, k, i + 1)
  }

  /** The first `len` coefficients of the product of a and b. */
  function PolyMul(a: seq<real>, b: seq<real>, len: nat): (r: seq<real>)
  {
    seq(len, k requires 0 <= k => Conv(a, b, k, 0))
  }

  /** The coefficients of even index. */
  function Evens(x: seq<real>): (r: seq<real>)
  {
    seq((|x| + 1) / 2, j requires 0 <= j < (|x| + 1) / 2 => x[2 * j])
  }

  /** The sum of c[j] x[j] over the indices both have, from j up. */
  function Weighted(c: seq<real>, x: seq<real>, j: nat): (r: real)
    decreases |c| - j
  {
    if j >= |c| || j >= |x| then 0.0 else c[j] * x[j] + Weighted(c, x, j + 1)
  }

  /** The alternating sum g[0] - g[1] + g[2] - ... of the series' groups. */
  function AltSum(g: seq<real>): (r: real)
  {
    if g == [] then 0.0 else g[0] - AltSum(g[1..])
  }

  /** The series' variable: the curvature k0 + (k1/2) x, whose coefficients
      are t1_1 and t1_2 of the source. */
  function SeriesBase(k0: real, k1: real): (r: seq<real>)
  {
    [k0, 0.5 * k1]
  }

  /** How many coefficients of the 2n-th power of SeriesBase the series
      keeps when its table runs up to index `top`: degrees up to
      min(2n, top - 2n). */
  function EvenLen(top: nat, n: nat): (r: nat)
  {
    if 4 * n <= top then 2 * n + 1 else if 2 * n <= top then top - 2 * n + 1 else 0
  }

  /** How many odd-degree coefficients of the (2n+1)-th power it keeps:
      the odd degrees up to min(2n + 1, top - 1 - 2n). */
  function OddLen(top: nat, n: nat): (r: nat)
  {
    if 4 * n + 2 <= top then n + 1 else if 2 * n + 1 <= top then (top - 2 * n) / 2 else 0
  }

  /** Row t_2n of the source's table: the kept coefficients of the 2n-th
      power, each even power the previous one times the square
      (t4 = t2 t2, t6 = t4 t2, ...). */
  function EvenRow(k0: real, k1: real, top: nat, n: nat): (r: seq<real>)
    decreases n
  {
    if n == 0 then [1.0]
    else
      var base := SeriesBase(k0, k1);
      PolyMul(EvenRow(k0, k1, top, n - 1), PolyMul(base, base, 3), EvenLen(top, n))
  }

  /** Row t_(2n+1): the kept odd-degree coefficients of t_2n times
      SeriesBase (t3_4 = t2_2 t1_2 + t2_3 t1_1, ...). */
  function OddRow(k0: real, k1: real, top: nat, n: nat): (r: seq<real>)
  {
    var even, base := EvenRow(k0, k1, top, n), SeriesBase(k0, k1);
    seq(OddLen(top, n), j requires 0 <= j => Conv(even, base, 2 * j + 1, 0))
  }

  /** The constants of the groups of u: group n weighs the even-degree
      coefficients of t_2n. */
  const UGroupCoeffs: seq<seq<real>> := [
    [1.0],
    [1.0 / 24.0, 1.0 / 160.0],
    [1.0 / 1920.0, 1.0 / 10752.0, 1.0 / 55296.0],
    [1.0 / 322560.0, 1.0 / 1658880.0, 1.0 / 8110080.0],
    [1.0 / 92897280.0, 1.0 / 454164480.0],
    [2.4464949595157930e-11]]

  /** The constants of the groups of v: group n weighs the coefficients of
      t_(2n+1). */
  const VGroupCoeffs: seq<seq<real>> := [
    [1.0 / 12.0],
    [1.0 / 480.0, 1.0 / 2688.0],
    [1.0 / 53760.0, 1.0 / 276480.0, 1.0 / 1351680.0],
    [1.0 / 11612160.0, 1.0 / 56770560.0],
    [2.4464949595157932e-10]]

  /** Group n of u: the constants times the kept even-degree coefficients
      of t_2n. */
  function UGroup(k0: real, k1: real, top: nat, n: nat): (r: real)
  {
    if n < |UGroupCoeffs| then Weighted(UGroupCoeffs[n], Evens(EvenRow(k0, k1, top, n)), 0) else 0.0
  }

  /** Group n of v: the constants times the kept coefficients of t_(2n+1). */
  function VGroup(k0: real, k1: real, top: nat, n: nat): (r: real)
  {
    if n < |VGroupCoeffs| then Weighted(VGroupCoeffs[n], OddRow(k0, k1, top, n), 0) else 0.0
  }

  /** The series for the Euler spiral integral whose table runs up to index
      `top`: u and v are the alternating sums of their groups of equal
      order, bracketed as the source brackets them. */
  function SeriesUV(k0: real, k1: real, top: nat): (r: (real, real))
  {
    (AltSum(seq(top / 2 + 1, n requires 0 <= n => UGroup(k0, k1, top, n))),
     AltSum(seq(top / 2, n requires 0 <= n => VGroup(k0, k1, top, n))))
  }

  /** The last index of the table of `integ_euler_12` (t10_10). */
  const TopIndex12: nat := 10

  /** `integ_euler_12`: the 12th-order series for the Euler spiral integral
      over [-0.5, 0.5] with curvature k0 + k1 s. */
  function IntegEuler12(k0: real, k1: real): (r: (real, real))
  {
    SeriesUV(k0, k1, TopIndex12)
  }

  /** A helper of `SeriesStraight` that only carries a zero through the
      series table: a zero factor gives a zero product coefficient. It
      states nothing about the series itself. */
  lemma {:induction false} ConvZero(a: seq<real>, b: seq<real>, k: nat, i: nat)
    requires forall j :: 0 <= j < |b| ==> b[j] == 0.0
    ensures Conv(a, b, k, i) == 0.0
    decreases |a| - i
  {
    if i < |a| && i <= k {
      ConvZero(a, b, k, i + 1);
    }
  }

  /** A helper of `SeriesStraight` that only carries a zero through the
      series table: zero terms give a zero weighted sum. */
  lemma {:induction false} WeightedZero(c: seq<real>, x: seq<real>, j: nat)
    requires forall i :: 0 <= i < |x| ==> x[i] == 0.0
    ensures Weighted(c, x, j) == 0.0
    decreases |c| - j
  {
    if j < |c| && j < |x| {
      WeightedZero(c, x, j + 1);
    }
  }

  /** A helper of `SeriesStraight` that only carries a zero through the
      series table: zero terms give a zero alternating sum. */
  lemma {:induction false} AltSumZero(g: seq<real>)
    requires forall i :: 0 <= i < |g| ==> g[i] == 0.0
    ensures AltSum(g) == 0.0
    decreases |g|
  {
    if g != [] {
      AltSumZero(g[1..]);
    }
  }

  /** With no curvature every power of SeriesBase above the zeroth
      vanishes, so only the leading 1 of u is left. */
  lemma SeriesStraight(top: nat)
    ensures SeriesUV(0.0, 0.0, top) == (1.0, 0.0)
  {
    var base := SeriesBase(0.0, 0.0);
    var sq := PolyMul(base, base, 3);
    forall k: nat | k < 3
      ensures sq[k] == 0.0
    {
      ConvZero(base, base, k, 0);
    }
    var us := seq(top / 2 + 1, n requires 0 <= n => UGroup(0.0, 0.0, top, n));
    var vs := seq(top / 2, n requires 0 <= n => VGroup(0.0, 0.0, top, n));
    forall n: nat | 1 <= n < |us|
      ensures us[n] == 0.0
    {
      var e := EvenRow(0.0, 0.0, top, n);
      forall j: nat | j < |e|
        ensures e[j] == 0.0
      {
        ConvZero(EvenRow(0.0, 0.0, top, n - 1), sq, j, 0);
      }
      if n < |UGroupCoeffs| {
        WeightedZero(UGroupCoeffs[n], Evens(e), 0);
      }
    }
    forall n: nat | n < |vs|
      ensures vs[n] == 0.0
    {
      var o := OddRow(0.0, 0.0, top, n);
      forall j: nat | j < |o|
        ensures o[j] == 0.0
      {
        ConvZero(EvenRow(0.0, 0.0, top, n), base, 2 * j + 1, 0);
      }
      if n < |VGroupCoeffs| {
        WeightedZero(VGroupCoeffs[n], o, 0);
      }
    }
    assert us[0] == 1.0 by {
      assert Evens(EvenRow(0.0, 0.0, top, 0)) == [1.0];
    }
    AltSumZero(us[1..]);
    AltSumZero(vs);
  }

  /** A straight spiral (no curvature) integrates to the unit chord. */
  lemma IntegEuler12Straight()
    ensures IntegEuler12(0.0, 0.0) == (1.0, 0.0)
  {
    SeriesStraight(TopIndex12);
  }

  /** The middle parameter of piece i of n, in [-0.5, 0.5], given ds = 1/n. */
  function PieceMid(ds: real, i: nat): (r: real)
  {
    (0.5 * ds - 0.5) + ds * (i as real)
  }

  /** The pair (u, v) turned by the angle th. */
  function RotatePair(m: MathLib, th: real, uv: (real, real)): (r: (real, real))
  {
    var cth, sth := m.cos(th), m.sin(th);
    (cth * uv.0 - sth * uv.1, cth * uv.1 + sth * uv.0)
  }

  /** The curvature k0 + k1 s of the whole spiral at s, rescaled to a piece of length ds. */
  function PieceK0(k0: real, k1: real, ds: real, s: real): (r: real)
  {
    k1 * ds * s + k0 * ds
  }

  function PieceK1(k1: real, ds: real): (r: real)
  {
    k1 * ds * ds
  }

  /** The tangent angle k0 s + k1 s^2 / 2 reached at s. */
  function PieceAngle(k0: real, k1: real, s: real): (r: real)
  {
    (0.5 * k1 * s + k0) * s
  }

  /** Piece i of `integ_euler_12n` with pieces of length ds = 1/n, before
      the final scaling: the series on the i-th sub-interval, turned by the
      angle reached at its middle. */
  function IntegEuler12nPiece(m: MathLib, k0: real, k1: real, ds: real, i: nat): (r: (real, real))
  {
    var s := PieceMid(ds, i);
    RotatePair(m, PieceAngle(k0, k1, s), IntegEuler12(PieceK0(k0, k1, ds, s), PieceK1(k1, ds)))
  }

  /** The running sums of the first `i` pieces. */
  function IntegEuler12nSum(m: MathLib, k0: real, k1: real, ds: real, i: nat): (r: (real, real))
  {
    if i == 0 then (0.0, 0.0)
    else
      var acc, piece := IntegEuler12nSum(m, k0, k1, ds, i - 1), IntegEuler12nPiece(m, k0, k1, ds, i - 1);
      (acc.0 + piece.0, acc.1 + piece.1)
  }

  function ScalePair(p: (real, real), s: real): (r: (real, real))
  {
    (p.0 * s, p.1 * s)
  }

  /** `integ_euler_12n` as a value: the n pieces summed and scaled by 1/n. */
  function IntegEuler12nSpec(m: MathLib, k0: real, k1: real, n: nat): (r: (real, real))
  {
    var ds := Div(1.0, n as real);
    ScalePair(IntegEuler12nSum(m, k0, k1, ds, n), ds)
  }

  /** `integ_euler_12n`: the Euler spiral integral by subdivision into n pieces. */
  method IntegEuler12n(m: MathLib, k0: real, k1: real, n: nat) returns (r: (real, real))
    ensures r == IntegEuler12nSpec(m, k0, k1, n)
  {
    var ds := Div(1.0, n as real);
    var x, y := 0.0, 0.0;
    for i := 0 to n
      invariant (x, y) == IntegEuler12nSum(m, k0, k1, ds, i)
    {
      var piece := IntegEuler12nPiece(m, k0, k1, ds, i);
      x := x + piece.0;
      y := y + piece.1;
    }
    r := ScalePair((x, y), ds);
  }

  /** The raw error estimate of the plain series. */
  function SeriesErr(k0: real, k1: real): (r: real)
  {
    var c1 := Abs(k1);
    var c0 := Abs(k0) + 0.5 * c1;
    0.006 * c0 * c0 + 0.029 * c1
  }

  /** The power `integ_euler` raises the error estimate to before comparing
      it with the accuracy. */
  const SeriesErrPower: nat := 6

  /** `integ_euler`: the series directly when its error estimate is below
      the accuracy, otherwise the subdivided form with
      ceil(estimate / accuracy^(1/6)) pieces. */
  function IntegEuler(m: MathLib, k0: real, k1: real, accuracy: real): (r: (real, real))
  {
    var estErrRaw := SeriesErr(k0, k1);
    if Powi(estErrRaw, SeriesErrPower) < accuracy then IntegEuler12(k0, k1)
    else IntegEuler12nSpec(m, k0, k1, ToUsize(Ceil(Div(estErrRaw, m.powf(accuracy, 1.0 / 6.0))) as real))
  }

  /** The zero-curvature spiral integrates to the unit chord for any positive
      accuracy: its error estimate is zero, so the series is used. */
  lemma IntegEulerStraight(m: MathLib, accuracy: real)
    requires accuracy > 0.0
    ensures IntegEuler(m, 0.0, 0.0, accuracy) == (1.0, 0.0)
  {
    IntegEulerStraightSeries(m, accuracy);
    IntegEuler12Straight();
  }

  lemma IntegEulerStraightSeries(m: MathLib, accuracy: real)
    requires accuracy > 0.0
    ensures IntegEuler(m, 0.0, 0.0, accuracy) == IntegEuler12(0.0, 0.0)
  {
    SeriesErrZero();
  }

  lemma SeriesErrZero()
    ensures Powi(SeriesErr(0.0, 0.0), SeriesErrPower) == 0.0
  {
    assert SeriesErr(0.0, 0.0) == 0.0;
    PowiZero(SeriesErrPower);
  }

  lemma IntegEulerSeries(m: MathLib, k0: real, k1: real, accuracy: real)
    requires Powi(SeriesErr(k0, k1), SeriesErrPower) < accuracy
    ensures IntegEuler(m, k0, k1, accuracy) == IntegEuler12(k0, k1)
  {
  }
}
