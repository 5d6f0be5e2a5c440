/**
 * The 32-bit twin of the Euler spiral code (euler32.rs). The parameter
 * records, the tangent-angle formula, the point-and-derivative fit and the
 * frame map are the same as in module Euler and are reused from there; this
 * module holds what differs: the closed-form fit, the error estimate with
 * its early return at cusps, and evaluation through the 10th-order series.
 */
module Euler32 {
  import opened Numeric
  import opened Geom
  import opened Euler

  function Sq(x: real): (r: real)
    ensures r >= 0.0
  {
    SquareNonNeg(x);
    x * x
  }

  lemma SqNeg(x: real)
    ensures Sq(-x) == Sq(x)
  {
    assert (-x) * (-x) == x * x;
  }

  /** The factor `a` of the closed-form fit, k1 = dth * a, as a polynomial in
      d2 = dth^2 and k2 = k0^2. */
  function FitA(d2: real, k2: real): (r: real)
  {
    var b := -0.1 + d2 * (1.0 / 4200.0) + d2 * d2 * 1.6959677820260655e-05;
    var c := -1.0 / 1400.0 + d2 * 6.84915970574303e-05 - k2 * 7.936475029053326e-06;
    6.0 - d2 * (1.0 / 70.0) - (d2 * d2) * (1.0 / 10780.0) + (d2 * d2 * d2) * 2.769178184818219e-07 + (b + c * k2) * k2
  }

  /** The chord length of the closed-form fit, as a polynomial in d2 and k2. */
  function FitCh(d2: real, k2: real): (r: real)
  {
    var b := -1.0 / 24.0 + d2 * 0.0024702380951963226 - d2 * d2 * 3.7297408997537985e-05;
    var c := 1.0 / 1920.0 - d2 * 4.87350869747975e-05 - k2 * 3.1001936068463107e-06;
    1.0 - d2 * (1.0 / 40.0) + (d2 * d2) * 0.00034226190482569864 - (d2 * d2 * d2) * 1.9349474568904524e-06 + (b + c * k2) * k2
  }

  /** `EulerParams::from_angles` (f32): a closed form with no iteration,
      always defined. The source accumulates `a` and `ch` in mutable locals;
      here each is one expression with the same order of operations. */
  function FromAngles32(th0: real, th1: real): (r: EulerParams)
  {
    var k0, dth := th0 + th1, th1 - th0;
    EulerParams(th0, th1, k0, dth * FitA(Sq(dth), Sq(k0)), FitCh(Sq(dth), Sq(k0)))
  }

  /** The fit keeps the angles and puts k0 = th0 + th1, so the tangent angle
      runs from -th0 at t = 0 to th1 at t = 1. */
  lemma FromAngles32Fields(th0: real, th1: real)
    ensures var r := FromAngles32(th0, th1);
      && r.th0 == th0 && r.th1 == th1 && r.k0 == th0 + th1
      && r.EvalTh(0.0) == -th0 && r.EvalTh(1.0) == th1
  {
    EvalThEnds(FromAngles32(th0, th1));
  }

  /** Equal angles give a spiral of constant curvature: k1 = dth * a = 0. */
  lemma FromAngles32EqualAngles(th: real)
    ensures FromAngles32(th, th).k1 == 0.0
  {
    assert th - th == 0.0;
  }

  /** Zero angles give the straight unit chord: k0 = k1 = 0 and ch = 1. */
  lemma FromAngles32Straight()
    ensures var r := FromAngles32(0.0, 0.0); r.k0 == 0.0 && r.k1 == 0.0 && r.ch == 1.0
  {
    assert Sq(0.0) == 0.0;
    assert FitCh(0.0, 0.0) == 1.0;
  }

  /** Exchanging the two angles keeps k0 and the chord and negates k1: the
      mirrored spiral. */
  lemma FromAngles32Swap(th0: real, th1: real)
    ensures var r, s := FromAngles32(th0, th1), FromAngles32(th1, th0);
      s.k0 == r.k0 && s.k1 == -r.k1 && s.ch == r.ch
  {
    hide FitA, FitCh;
    var dth := th1 - th0;
    assert th0 - th1 == -dth;
    SqNeg(dth);
    assert th1 + th0 == th0 + th1;
    var a := FitA(Sq(dth), Sq(th0 + th1));
    assert (-dth) * a == -(dth * a);
  }

  /** `CubicParams::est_euler_err` (f32). When the cosines of the two end
      angles have opposite signs (a cusp or near-u-turn) the estimate is
      exactly 2; otherwise it is the f64 formula with the sine of the sum
      written out as cth0 s1 + cth1 s0, different calibration constants, and
      no 1.25 factor on the centre term. */
  function EstEulerErr32(m: MathLib, p: CubicParams): (r: real)
  {
    if m.cos(p.th0) * m.cos(p.th1) < 0.0 then 2.0 else SmoothErr32(m, p)
  }

  /** The estimate of `est_euler_err` (f32) away from cusps. */
  function SmoothErr32(m: MathLib, p: CubicParams): (r: real)
  {
    var cth0, cth1 := m.cos(p.th0), m.cos(p.th1);
    var e0 := Div(2.0 / 3.0, 1.0 + cth0);
    var e1 := Div(2.0 / 3.0, 1.0 + cth1);
    var s0 := m.sin(p.th0);
    var s1 := m.sin(p.th1);
    var s01 := cth0 * s1 + cth1 * s0;
    var amin := AreaTerm(e0, e1, s0, s1, s01);
    var a := AreaTerm(p.d0, p.d1, s0, s1, s01);
    var aerr := Abs(a - amin);
    var symm := Abs(p.th0 + p.th1);
    var asymm := Abs(p.th0 - p.th1);
    var dist := m.hypot(p.d0 - e0, p.d1 - e1);
    CentreTerm(4.625e-6, 7.5e-3, symm, asymm) + 1.55 * aerr + HaloTerm(5e-3, symm, dist) + HaloTerm(7e-2, asymm, dist)
  }

  /** The estimate is exactly 2 at a cusp. */
  lemma EstEulerErr32Cusp(m: MathLib, p: CubicParams)
    requires m.cos(p.th0) * m.cos(p.th1) < 0.0
    ensures EstEulerErr32(m, p) == 2.0
  {
  }

  /** The estimate is never negative. */
  lemma EstEulerErr32NonNeg(m: MathLib, p: CubicParams)
    requires Lawful(m)
    ensures EstEulerErr32(m, p) >= 0.0
  {
    SmoothErr32NonNeg(m, p);
  }

  lemma SmoothErr32NonNeg(m: MathLib, p: CubicParams)
    requires Lawful(m)
    ensures SmoothErr32(m, p) >= 0.0
  {
    var cth0, cth1 := m.cos(p.th0), m.cos(p.th1);
    var e0 := Div(2.0 / 3.0, 1.0 + cth0);
    var e1 := Div(2.0 / 3.0, 1.0 + cth1);
    var symm := Abs(p.th0 + p.th1);
    var asymm := Abs(p.th0 - p.th1);
    var dist := m.hypot(p.d0 - e0, p.d1 - e1);
    CentreTermNonNeg(4.625e-6, 7.5e-3, symm, asymm);
    HaloTermNonNeg(5e-3, symm, dist);
    HaloTermNonNeg(7e-2, asymm, dist);
  }

  /** The last index of the table of `integ_euler_10` (t8_8). */
  const TopIndex10: nat := 8

  /** `integ_euler_10`: the 10th-order series for the Euler spiral integral,
      the same table and group constants as `integ_euler_12` cut at t8_8. */
  function IntegEuler10(k0: real, k1: real): (r: (real, real))
  {
    SeriesUV(k0, k1, TopIndex10)
  }

  /** A straight spiral integrates to the unit chord. */
  lemma IntegEuler10Straight()
    ensures IntegEuler10(0.0, 0.0) == (1.0, 0.0)
  {
    SeriesStraight(TopIndex10);
  }

  /** `EulerParams::eval` (f32): as in f64, with the 10th-order series. */
  function Eval32(m: MathLib, p: EulerParams, t: real): (r: Point)
  {
    var uv := IntegEuler10((p.k0 + p.k1 * (0.5 * t - 0.5)) * t, p.k1 * t * t);
    RotateScaled(m, uv, Div(t, p.ch), p.EvalTh(t * 0.5))
  }

  /** `EulerParams::eval_with_offset` (f32). */
  function EvalWithOffset32(m: MathLib, p: EulerParams, t: real, offset: real): (r: Point)
  {
    var th := p.EvalTh(t);
    var q := Eval32(m, p, t);
    Point(q.x + offset * m.sin(th), q.y + offset * m.cos(th))
  }

  /** The f32 spiral also starts at the origin of its frame. */
  lemma Eval32AtZero(m: MathLib, p: EulerParams)
    ensures Eval32(m, p, 0.0) == Origin
  {
    DivZero(p.ch);
    RotateScaledZero(m, IntegEuler10((p.k0 + p.k1 * (0.5 * 0.0 - 0.5)) * 0.0, p.k1 * 0.0 * 0.0), p.EvalTh(0.0 * 0.5));
  }

  /** The f32 offset evaluation moves the spiral's point by the offset
      along the unit vector (sin th, cos th) of the angle at `t`, so that
      opposite offsets lie symmetrically about the spiral and a zero offset
      gives the spiral itself. */
  lemma EvalWithOffset32Zero(m: MathLib, p: EulerParams, t: real, offset: real)
    ensures var th := p.EvalTh(t);
      Sub(EvalWithOffset32(m, p, t, offset), Eval32(m, p, t)) == Point(offset * m.sin(th), offset * m.cos(th))
    ensures Add(EvalWithOffset32(m, p, t, offset), EvalWithOffset32(m, p, t, -offset)) == Scale(Eval32(m, p, t), 2.0)
    ensures EvalWithOffset32(m, p, t, 0.0) == Eval32(m, p, t)
  {
    hide Eval32;
  }

  /** `EulerSeg::eval_with_offset` (f32): the offset is scaled to the unit
      chord, then the point is mapped to the segment's frame. */
  function SegEvalWithOffset32(m: MathLib, s: EulerSeg, t: real, offset: real): (r: Point)
  {
    s.ToFrame(EvalWithOffset32(m, s.params, t, Div(offset, Hypot(m, Sub(s.p1, s.p0)))))
  }

  /** With no offset the f32 segment starts at its first end point. */
  lemma SegEvalWithOffset32Start(m: MathLib, s: EulerSeg)
    ensures SegEvalWithOffset32(m, s, 0.0, 0.0) == s.p0
  {
    DivZero(Hypot(m, Sub(s.p1, s.p0)));
    EvalWithOffset32Zero(m, s.params, 0.0, 0.0);
    Eval32AtZero(m, s.params);
    ToFrameEnds(s);
  }
}
