/**
 * `CubicToEulerIter` (euler.rs, and its f32 twin in euler32.rs): the
 * subdivision of a cubic Bézier into Euler spiral segments.
 *
 * The candidate piece is [t0 * dt, (t0 + 1) * dt] with an integer t0 and
 * dt = 2^-j; here dt is kept as the exponent j, so that the source's float
 * test `t0 * dt == 1.0` is exact. A piece whose estimated error exceeds the
 * tolerance is split (t0 doubles, j grows by one); an accepted piece is
 * emitted, the start moves to its end, and the fraction is reduced by the
 * number of trailing zero bits of t0 + 1.
 */
module EulerIter {
  import opened Numeric
  import opened Geom
  import opened Euler
  import opened Euler32

  /** Which of the two twins: f64 with a u64 counter, or f32 with a u32 counter. */
  datatype Precision = F64 | F32

  /** Threshold below which a derivative is considered too small. */
  const DERIV_THRESH: real := 1e-6
  /** Amount by which t is nudged when the derivative is near zero. */
  const DERIV_EPS: real := 1e-6

  const U64_LIMIT: nat := 0x1_0000_0000_0000_0000
  const U32_LIMIT: nat := 0x1_0000_0000

  /** One more than the largest value of the counter `t0`. */
  function WordLimit(p: Precision): (r: nat)
  {
    if p == F64 then U64_LIMIT else U32_LIMIT
  }

  /** The result of one call of `next`. `Diverged` stands for the panic of the
      f64 `from_angles`, `Overflow` for the counter `t0` leaving its integer
      type, and `OutOfFuel` for the inner loop running longer than the fuel
      given (the source's loop has no bound). */
  datatype Step = Done | Emit(seg: EulerSeg) | Diverged | Overflow | OutOfFuel

  /** The end point, end derivative and end parameter of a candidate piece
      ending at t1. When the derivative there is too small it is taken from
      t1 - eps instead, and for t1 < 1 the end point and parameter move there
      too; at t1 = 1 the end point stays the cubic's end. */
  function NudgedEnd(c: Cubic, t1: real): (r: (Point, Point, real))
    ensures r.0 == EvalAndDeriv(c, r.2).0
    ensures r.2 == t1 || (t1 < 1.0 && r.2 == t1 - DERIV_EPS)
    ensures Hypot2(EvalAndDeriv(c, t1).1) >= Powi(DERIV_THRESH, 2) ==> r == (EvalAndDeriv(c, t1).0, EvalAndDeriv(c, t1).1, t1)
  {
    var e := EvalAndDeriv(c, t1);
    if Hypot2(e.1) < Powi(DERIV_THRESH, 2) then
      var n := EvalAndDeriv(c, t1 - DERIV_EPS);
      if t1 < 1.0 then (n.0, n.1, t1 - DERIV_EPS) else (e.0, n.1, t1)
    else (e.0, e.1, t1)
  }

  /** The derivative (one third of it) the iteration starts from: p1 - p0,
      or the one at eps when that is too small. */
  function StartDeriv(c: Cubic): (r: Point)
    ensures Hypot2(Sub(c.p1, c.p0)) >= Powi(DERIV_THRESH, 2) ==> r == Sub(c.p1, c.p0)
    ensures Hypot2(Sub(c.p1, c.p0)) < Powi(DERIV_THRESH, 2) ==> r == EvalAndDeriv(c, DERIV_EPS).1
  {
    var q := Sub(c.p1, c.p0);
    if Hypot2(q) < Powi(DERIV_THRESH, 2) then EvalAndDeriv(c, DERIV_EPS).1 else q
  }

  /** The precision's own error estimate. */
  function PieceErr(m: MathLib, prec: Precision, cp: CubicParams): (r: real)
  {
    if prec == F64 then EstEulerErr(m, cp) else EstEulerErr32(m, cp)
  }

  lemma PieceErrNonNeg(m: MathLib, prec: Precision, cp: CubicParams)
    requires Lawful(m)
    ensures PieceErr(m, prec, cp) >= 0.0
  {
    if prec == F64 {
      EstEulerErrNonNeg(m, cp);
    } else {
      EstEulerErr32NonNeg(m, cp);
    }
  }

  /** a / 2^j, the value of the counter t0 scaled by dt. */
  function Frac(a: nat, j: nat): (r: real)
  {
    (a as real) / (Pow2(j) as real)
  }

  lemma DivDouble(x: real, p: real)
    requires p > 0.0
    ensures (2.0 * x) / (2.0 * p) == x / p
  {
  }

  lemma DivAdd(x: real, y: real, p: real)
    requires p > 0.0
    ensures (x + y) / p == x / p + y / p
  {
  }

  lemma DivMulCancel(x: real, p: real, q: real)
    requires p > 0.0 && q > 0.0
    ensures (p * x) / (p * q) == x / q
  {
  }

  lemma DivTimes(x: real, p: real)
    requires p > 0.0
    ensures (x / p) * p == x
  {
  }

  lemma DivCompareOne(x: real, p: real)
    requires p > 0.0
    ensures x / p == 1.0 <==> x == p
    ensures x <= p <==> x / p <= 1.0
    ensures x < p <==> x / p < 1.0
    ensures x >= 0.0 ==> x / p >= 0.0
  {
  }

  /** Scaling t0 dt back by 2^j gives t0. */
  lemma FracTimes(a: nat, j: nat)
    ensures Frac(a, j) * (Pow2(j) as real) == a as real
  {
    DivTimes(a as real, Pow2(j) as real);
  }

  /** A split keeps the start: 2 t0 / 2^(j+1) = t0 / 2^j. */
  lemma FracDouble(a: nat, j: nat)
    ensures Frac(2 * a, j + 1) == Frac(a, j)
  {
    assert Pow2(j + 1) as real == 2.0 * (Pow2(j) as real);
    assert (2 * a) as real == 2.0 * (a as real);
    DivDouble(a as real, Pow2(j) as real);
  }

  /** The end of the candidate piece is its start plus dt. */
  lemma FracNext(a: nat, j: nat)
    ensures Frac(a + 1, j) == Frac(a, j) + Frac(1, j)
  {
    assert (a + 1) as real == a as real + 1.0;
    DivAdd(a as real, 1.0, Pow2(j) as real);
  }

  lemma CastMul(a: nat, b: nat)
    ensures (a * b) as real == (a as real) * (b as real)
  {
  }

  /** Removing a common factor from a fraction of naturals. */
  lemma CancelCommon(n: nat, q: nat, p: nat, pq: nat, pr: nat)
    requires p > 0 && pr > 0 && n == p * q && pq == p * pr
    ensures (n as real) / (pq as real) == (q as real) / (pr as real)
  {
    CastMul(p, q);
    CastMul(p, pr);
    DivMulCancel(q as real, p as real, pr as real);
  }

  /** Removing a common power of two: (2^s q) / 2^j = q / 2^(j-s). */
  lemma FracReduce(n: nat, s: nat, q: nat, j: nat)
    requires s <= j && n == Pow2(s) * q
    ensures Frac(n, j) == Frac(q, j - s)
  {
    Pow2Add(s, j - s);
    CancelCommon(n, q, Pow2(s), Pow2(j), Pow2(j - s));
  }

  /** t0 dt is never negative; it is 1 exactly when t0 = 2^j, at most 1
      exactly when t0 <= 2^j, and below 1 exactly when t0 < 2^j. */
  lemma FracOne(a: nat, j: nat)
    ensures Frac(a, j) >= 0.0
    ensures Frac(a, j) == 1.0 <==> a == Pow2(j)
    ensures a <= Pow2(j) <==> Frac(a, j) <= 1.0
    ensures a < Pow2(j) <==> Frac(a, j) < 1.0
  {
    DivCompareOne(a as real, Pow2(j) as real);
  }

  lemma Pow2Below(a: nat, b: nat)
    requires Pow2(a) <= Pow2(b)
    ensures a <= b
  {
    if a > b {
      Pow2Monotone(b + 1, a);
    }
  }

  /** 2^k has k trailing zeros, and shifting them out leaves 1. */
  lemma {:induction false} TrailingZerosPow2(k: nat)
    ensures TrailingZeros(Pow2(k)) == k && Shr(Pow2(k), k) == 1
  {
    if k > 0 {
      TrailingZerosPow2(k - 1);
      Pow2Even(k);
      assert Pow2(k) / 2 == Pow2(k - 1);
    }
  }

  lemma MulAtLeast(p: nat, q: nat)
    requires q >= 1
    ensures p <= p * q
  {
    assert p * q == p + p * (q - 1);
  }

  /** The bookkeeping of an accepted piece: t0 + 1 is reduced by its trailing
      zeros (at most j of them, since t0 + 1 <= 2^j); the new start is the
      old end, the new counter is odd, and it still lies within 2^j. */
  lemma AcceptBookkeeping(t0: nat, j: nat)
    requires t0 < Pow2(j)
    ensures var s := TrailingZeros(t0 + 1);
      && s <= j
      && Shr(t0 + 1, s) % 2 == 1
      && Shr(t0 + 1, s) <= Pow2(j - s)
      && Frac(Shr(t0 + 1, s), j - s) == Frac(t0, j) + Frac(1, j)
  {
    var n := t0 + 1;
    TrailingZerosSplit(n);
    var s := TrailingZeros(n);
    var q := Shr(n, s);
    MulAtLeast(Pow2(s), q);
    Pow2Below(s, j);
    FracReduce(n, s, q, j);
    FracOne(n, j);
    FracOne(q, j - s);
    FracNext(t0, j);
  }

  /** The state after an accepted piece [t0 dt, (t0 + 1) dt] whose end
      (possibly nudged back by eps) is t1: the reduced counter is odd, fits
      its word and stays within 2^j; the start moves forward to the end and
      not past 1; the new `last_t` is the new start or eps before it; and
      once the end is reached the counter and dt are both 1 and the last
      point is the cubic's end point. */
  lemma AcceptedState(c: Cubic, t0: nat, j: nat, w: nat, t1: real, p1: Point)
    requires t0 < Pow2(j) && t0 + 1 < w
    requires p1 == EvalAndDeriv(c, t1).0
    requires t1 == Frac(t0, j) + Frac(1, j) || (Frac(t0, j) + Frac(1, j) < 1.0 && t1 == Frac(t0, j) + Frac(1, j) - DERIV_EPS)
    ensures var s := TrailingZeros(t0 + 1); var q, k := Shr(t0 + 1, s), j - s;
      && s <= j && q <= Pow2(k) && q < w && q % 2 == 1
      && Frac(t0, j) < Frac(q, k) <= 1.0
      && (t1 == Frac(q, k) || t1 == Frac(q, k) - DERIV_EPS)
      && (q == Pow2(k) ==> q == 1 && k == 0 && t1 == 1.0 && p1 == c.p3)
  {
    AcceptBookkeeping(t0, j);
    var s := TrailingZeros(t0 + 1);
    var q, k := Shr(t0 + 1, s), j - s;
    FracOne(q, k);
    FracOne(1, j);
    if q == Pow2(k) {
      OddPow2(k);
      EvalAndDerivAtOne(c);
    }
  }

  /** A counter that equals 2^j and is odd can only be 1 with j = 0. */
  lemma OddPow2(j: nat)
    requires Pow2(j) % 2 == 1
    ensures j == 0
  {
    if j > 0 {
      Pow2Even(j);
    }
  }

  /** `EulerParams::from_angles` of the given precision: the iterative f64
      fit, which can fail (a panic in the source), or the f32 closed form,
      which cannot. Either keeps the angles and puts k0 = th0 + th1. */
  method FitAngles(m: MathLib, prec: Precision, th0: real, th1: real) returns (r: Option<EulerParams>)
    ensures r.Some? ==> r.value.th0 == th0 && r.value.th1 == th1 && r.value.k0 == th0 + th1
    ensures prec == F64 && r.Some? ==> IsFit(m, th0, th1, r.value)
    ensures prec == F32 ==> r == Some(FromAngles32(th0, th1))
  {
    if prec == F64 {
      r := FromAngles(m, th0, th1);
    } else {
      r := Some(FromAngles32(th0, th1));
    }
  }

  /** The piece from p0 to p1, with the derivatives q0 and q1 at its ends
      and the parameter span dt, passed the error test of `next`: the
      precision's error estimate of its cubic parameters times the chord
      length is within the tolerance, and `params` carries their angles. */
  predicate PassedTest(m: MathLib, prec: Precision, tolerance: real, p0: Point, p1: Point, q0: Point, q1: Point, dt: real, params: EulerParams)
  {
    var cp := FromPointsDerivs(m, p0, p1, q0, q1, dt);
    && PieceErr(m, prec, cp) * Hypot(m, Sub(p1, p0)) <= tolerance
    && params.th0 == cp.th0 && params.th1 == cp.th1
  }

  lemma PassedTestIntro(m: MathLib, prec: Precision, tolerance: real, p0: Point, p1: Point, q0: Point, q1: Point, dt: real, params: EulerParams, cp: CubicParams)
    requires cp == FromPointsDerivs(m, p0, p1, q0, q1, dt)
    requires PieceErr(m, prec, cp) * Hypot(m, Sub(p1, p0)) <= tolerance
    requires params.th0 == cp.th0 && params.th1 == cp.th1
    ensures PassedTest(m, prec, tolerance, p0, p1, q0, q1, dt, params)
  {
  }

  /** `seg` is a piece `next` can emit for the cubic `c` over [t0, t1], where
      q0 and q1 are the derivatives the iterator carried at the two ends:
      it runs between the cubic's points at t0 and t1, it passed the error
      test there, and its spiral is the precision's fit of its angles with
      k0 = th0 + th1. */
  ghost predicate TestedPiece(m: MathLib, c: Cubic, tolerance: real, prec: Precision, seg: EulerSeg, q0: Point, q1: Point, t0: real, t1: real)
  {
    && seg.p0 == EvalAndDeriv(c, t0).0 && seg.p1 == EvalAndDeriv(c, t1).0
    && PassedTest(m, prec, tolerance, seg.p0, seg.p1, q0, q1, t1 - t0, seg.params)
    && seg.params.k0 == seg.params.th0 + seg.params.th1
    && (prec == F64 ==> IsFit(m, seg.params.th0, seg.params.th1, seg.params))
    && (prec == F32 ==> seg.params == FromAngles32(seg.params.th0, seg.params.th1))
  }

  /** `segs` are pieces emitted one after another from the start of `c`:
      `ts` are the parameters and `qs` the derivatives the iterator carried
      between them, which begin at 0 and at the start derivative. */
  ghost predicate TestedPieces(m: MathLib, c: Cubic, tolerance: real, prec: Precision, segs: seq<EulerSeg>, qs: seq<Point>, ts: seq<real>)
  {
    && |qs| == |segs| + 1 && |ts| == |segs| + 1
    && qs[0] == StartDeriv(c) && ts[0] == 0.0
    && forall i :: 0 <= i < |segs| ==> TestedPiece(m, c, tolerance, prec, segs[i], qs[i], qs[i + 1], ts[i], ts[i + 1])
  }

  /** Tested pieces run along the cubic without gaps: each ends where the
      next begins, the first begins at `c.p0`, and the last ends at the
      cubic's point at the last parameter. */
  lemma TestedPiecesJoin(m: MathLib, c: Cubic, tolerance: real, prec: Precision, segs: seq<EulerSeg>, qs: seq<Point>, ts: seq<real>)
    requires TestedPieces(m, c, tolerance, prec, segs, qs, ts)
    ensures forall i :: 0 < i < |segs| ==> segs[i - 1].p1 == segs[i].p0
    ensures segs != [] ==> segs[0].p0 == c.p0 && segs[|segs| - 1].p1 == EvalAndDeriv(c, ts[|segs|]).0
  {
    hide PassedTest, IsFit, FromAngles32;
    forall i | 0 < i < |segs|
      ensures segs[i - 1].p1 == segs[i].p0
    {
      assert TestedPiece(m, c, tolerance, prec, segs[i - 1], qs[i - 1], qs[i], ts[i - 1], ts[i]);
      assert TestedPiece(m, c, tolerance, prec, segs[i], qs[i], qs[i + 1], ts[i], ts[i + 1]);
    }
    if segs != [] {
      assert TestedPiece(m, c, tolerance, prec, segs[0], qs[0], qs[1], ts[0], ts[1]);
      var k := |segs| - 1;
      assert TestedPiece(m, c, tolerance, prec, segs[k], qs[k], qs[k + 1], ts[k], ts[k + 1]);
      EvalAndDerivAtZero(c);
    }
  }

  /** No pieces yet: the iterator starts at parameter 0 with the start
      derivative. */
  lemma TestedPiecesStart(m: MathLib, c: Cubic, tolerance: real, prec: Precision)
    ensures TestedPieces(m, c, tolerance, prec, [], [StartDeriv(c)], [0.0])
  {
  }

  /** One more emitted piece extends a run of tested pieces. */
  lemma TestedPiecesSnoc(m: MathLib, c: Cubic, tolerance: real, prec: Precision, segs: seq<EulerSeg>, qs: seq<Point>, ts: seq<real>, seg: EulerSeg, q1: Point, t1: real)
    requires TestedPieces(m, c, tolerance, prec, segs, qs, ts)
    requires TestedPiece(m, c, tolerance, prec, seg, qs[|segs|], q1, ts[|segs|], t1)
    ensures TestedPieces(m, c, tolerance, prec, segs + [seg], qs + [q1], ts + [t1])
  {
    hide TestedPiece;
    var segs', qs', ts' := segs + [seg], qs + [q1], ts + [t1];
    forall i | 0 <= i < |segs'|
      ensures TestedPiece(m, c, tolerance, prec, segs'[i], qs'[i], qs'[i + 1], ts'[i], ts'[i + 1])
    {
      if i < |segs| {
        assert segs'[i] == segs[i] && qs'[i] == qs[i] && qs'[i + 1] == qs[i + 1] && ts'[i] == ts[i] && ts'[i + 1] == ts[i + 1];
      }
    }
  }

  class CubicToEulerIter {
    const c: Cubic
    const tolerance: real
    const prec: Precision
    /** The counter of the candidate piece [t0 dt, (t0 + 1) dt]. */
    var t0: nat
    /** The exponent of dt = 2^-j. */
    var j: nat
    var lastP: Point
    var lastQ: Point
    var lastT: real

    /** The start t0 dt of the candidate piece. */
    function Start(): real
      reads this
    {
      Frac(t0, j)
    }

    /** The candidate lies within [0, 1], `last_p` is the cubic's point at
        `last_t`, at the end of the curve `last_t` is exactly 1, and the
        counter fits its integer type. */
    predicate Valid()
      reads this
    {
      && t0 <= Pow2(j)
      && lastP == EvalAndDeriv(c, lastT).0
      && (t0 == Pow2(j) ==> lastT == 1.0)
      && t0 < WordLimit(prec)
    }

    /** `CubicToEulerIter::new`: the whole curve is the first candidate, and
        a vanishing start derivative is replaced by the one at eps. */
    constructor(c: Cubic, tolerance: real, prec: Precision)
      ensures this.c == c && this.tolerance == tolerance && this.prec == prec
      ensures t0 == 0 && j == 0 && lastP == c.p0 && lastT == 0.0
      ensures lastQ == StartDeriv(c)
      ensures Valid()
    {
      this.c := c;
      this.tolerance := tolerance;
      this.prec := prec;
      var q := Sub(c.p1, c.p0);
      if Hypot2(q) < Powi(DERIV_THRESH, 2) {
        q := EvalAndDeriv(c, DERIV_EPS).1;
      }
      assert q == StartDeriv(c);
      t0 := 0;
      j := 0;
      lastP := c.p0;
      lastQ := q;
      lastT := 0.0;
      EvalAndDerivAtZero(c);
    }

    /** Once the start has reached 1 the last point is the cubic's end
        point. (That the counter and dt are then 1 needs the counter to be
        odd, which `Valid` does not carry; `Emitted` and `Advance` state it
        after an accept.) */
    lemma AtEnd()
      requires Valid() && Start() == 1.0
      ensures lastP == c.p3
    {
      FracOne(t0, j);
      EvalAndDerivAtOne(c);
    }

    /** A segment `next` emitted from the last point `p0` at parameter `t`,
        with the derivative `q0` there, is a tested piece of the cubic
        over [t, last_t]. */
    lemma EmittedPiece(m: MathLib, r: Step, p0: Point, q0: Point, t: real, start: real)
      requires Emitted(m, r, p0, q0, t, start)
      requires p0 == EvalAndDeriv(c, t).0
      ensures TestedPiece(m, c, tolerance, prec, r.seg, q0, lastQ, t, lastT)
    {
    }

    /** The state after `next` returned the segment of `r`, when the
        previous call left the start at `start` and the last point,
        derivative and parameter at `p0`, `q0` and `t`: the segment runs from
        p0 to the new last point and passed the error test over
        [t, last_t]; the start strictly increased without passing 1, the
        counter is odd (the fraction is reduced), `last_t` is the new start or
        eps before it, and the fitted spiral keeps k0 = th0 + th1 and is the
        fit of the precision. At the end of the curve the segment ends at the
        cubic's end point. */
    predicate Emitted(m: MathLib, r: Step, p0: Point, q0: Point, t: real, start: real)
      reads this
    {
      && r.Emit? && Valid()
      && r.seg.p0 == p0 && r.seg.p1 == lastP
      && PassedTest(m, prec, tolerance, p0, lastP, q0, lastQ, lastT - t, r.seg.params)
      && start < Start() <= 1.0
      && t0 % 2 == 1
      && (lastT == Start() || lastT == Start() - DERIV_EPS)
      && r.seg.params.k0 == r.seg.params.th0 + r.seg.params.th1
      && (Start() == 1.0 ==> t0 == 1 && j == 0 && lastP == c.p3)
      && (prec == F64 ==> IsFit(m, r.seg.params.th0, r.seg.params.th1, r.seg.params))
      && (prec == F32 ==> r.seg.params == FromAngles32(r.seg.params.th0, r.seg.params.th1))
    }

    /** The accepting branch of `next` for the candidate [t0 dt, (t0 + 1) dt]
        whose (possibly nudged) end is the point p1 at t1 and whose cubic
        parameters `cp` passed the error test: the counter is
        advanced and reduced, the angles are fitted, and the end becomes the
        last point. */
    method Accept(m: MathLib, cp: CubicParams, p1: Point, q1: Point, t1: real) returns (r: Step)
      requires Valid() && t0 < Pow2(j)
      requires p1 == EvalAndDeriv(c, t1).0
      requires var e := Frac(t0, j) + Frac(1, j); t1 == e || (e < 1.0 && t1 == e - DERIV_EPS)
      requires cp == FromPointsDerivs(m, lastP, p1, lastQ, q1, t1 - lastT)
      requires PieceErr(m, prec, cp) * Hypot(m, Sub(p1, lastP)) <= tolerance
      modifies this
      ensures r.Emit? || r.Diverged? || r.Overflow?
      ensures r.Overflow? ==> t0 == old(t0) && j == old(j) && Valid()
      ensures !r.Emit? ==> lastP == old(lastP) && lastQ == old(lastQ) && lastT == old(lastT)
      ensures r.Emit? ==> Emitted(m, r, old(lastP), old(lastQ), old(lastT), old(Start()))
      ensures r.Emit? ==> r.seg.p1 == p1 && lastQ == q1 && lastT == t1
      ensures r.Emit? ==> r.seg.params.th0 == cp.th0 && r.seg.params.th1 == cp.th1
    {
      hide PieceErr, FromPointsDerivs, EvalAndDeriv, IsFit, FromAngles32, PassedTest;
      if t0 + 1 >= WordLimit(prec) {
        return Overflow;
      }
      var p0 := lastP;
      ghost var q0, tPrev := lastQ, lastT;
      Advance(p1, t1);
      var o := FitAngles(m, prec, cp.th0, cp.th1);
      if o.None? {
        return Diverged;
      }
      PassedTestIntro(m, prec, tolerance, p0, p1, q0, q1, t1 - tPrev, o.value, cp);
      lastP, lastQ, lastT := p1, q1, t1;
      return Emit(EulerSeg(p0, p1, o.value));
    }

    /** The counter update of an accepted piece: t0 + 1, reduced by its
        trailing zeros, with dt widened by the same power of two. */
    method Advance(p1: Point, t1: real)
      requires t0 < Pow2(j) && t0 + 1 < WordLimit(prec)
      requires p1 == EvalAndDeriv(c, t1).0
      requires var e := Frac(t0, j) + Frac(1, j); t1 == e || (e < 1.0 && t1 == e - DERIV_EPS)
      modifies this
      ensures lastP == old(lastP) && lastQ == old(lastQ) && lastT == old(lastT)
      ensures Start() == old(Start()) + Frac(1, old(j))
      ensures old(Start()) < Start() <= 1.0
      ensures t0 <= Pow2(j) && t0 < WordLimit(prec) && t0 % 2 == 1
      ensures t1 == Start() || t1 == Start() - DERIV_EPS
      ensures Start() == 1.0 ==> t0 == 1 && j == 0 && t1 == 1.0 && p1 == c.p3
    {
      AcceptBookkeeping(t0, j);
      AcceptedState(c, t0, j, WordLimit(prec), t1, p1);
      t0 := t0 + 1;
      var shift := TrailingZeros(t0);
      t0 := Shr(t0, shift);
      j := j - shift;
      FracOne(t0, j);
    }

    /** One pass of the loop of `next`: the candidate [t0 dt, (t0 + 1) dt] is
        measured; if its error is within the tolerance it is accepted,
        otherwise it is halved (t0 doubles and dt halves, which keeps the
        start) and None tells the loop to go on. */
    method Attempt(m: MathLib) returns (r: Option<Step>)
      requires Valid() && t0 < Pow2(j)
      modifies this
      ensures r.None? ==> Valid() && t0 < Pow2(j) && t0 == 2 * old(t0) && j == old(j) + 1
      ensures r.None? ==> Start() == old(Start())
      ensures r.Some? ==> r.value.Emit? || r.value.Diverged? || r.value.Overflow?
      ensures r.Some? && r.value.Overflow? ==> t0 == old(t0) && j == old(j) && Valid()
      ensures !(r.Some? && r.value.Emit?) ==> lastP == old(lastP) && lastQ == old(lastQ) && lastT == old(lastT)
      ensures r.Some? && r.value.Emit? ==> Emitted(m, r.value, old(lastP), old(lastQ), old(lastT), old(Start()))
    {
      hide PieceErr, FromPointsDerivs;
      var t1 := Start() + Frac(1, j);
      var p0, q0 := lastP, lastQ;
      var e := NudgedEnd(c, t1);
      var p1, q1, t1n := e.0, e.1, e.2;
      var actualDt := t1n - lastT;
      var cp := FromPointsDerivs(m, p0, p1, q0, q1, actualDt);
      var err := PieceErr(m, prec, cp) * Hypot(m, Sub(p1, p0));
      if err <= tolerance {
        var s := Accept(m, cp, p1, q1, t1n);
        return Some(s);
      }
      if 2 * t0 >= WordLimit(prec) {
        return Some(Overflow);
      }
      FracDouble(t0, j);
      t0 := 2 * t0;
      j := j + 1;
      return None;
    }

    /** `Iterator::next`. Each emitted segment starts where the previous one
        ended (at `c.p0` for the first) and ends at the cubic's point at the
        new `last_t`; the start of the candidate strictly increases and never
        passes 1, and the iteration is over exactly when it is 1. */
    method Next(m: MathLib, fuel: nat) returns (r: Step)
      requires Valid()
      modifies this
      ensures !r.Diverged? ==> Valid()
      ensures r.Done? <==> old(Start()) == 1.0
      ensures r.Done? ==> t0 == old(t0) && j == old(j)
      ensures !r.Emit? && !r.Diverged? ==> Start() == old(Start())
      ensures !r.Emit? ==> lastP == old(lastP) && lastQ == old(lastQ) && lastT == old(lastT)
      ensures r.Emit? ==> Emitted(m, r, old(lastP), old(lastQ), old(lastT), old(Start()))
    {
      hide PassedTest;
      var start := Start();
      FracOne(t0, j);
      if start == 1.0 {
        return Done;
      }
      var fuelLeft := fuel;
      while fuelLeft > 0
        invariant Valid() && Start() == start && t0 < Pow2(j)
        invariant lastP == old(lastP) && lastQ == old(lastQ) && lastT == old(lastT)
        decreases fuelLeft
      {
        fuelLeft := fuelLeft - 1;
        var o := Attempt(m);
        if o.Some? {
          return o.value;
        }
      }
      return OutOfFuel;
    }
  }

  /** The factor `(1 << shift) as f64` (or `as f32`) by which the source
      widens dt after an accept, as written: the literal 1 is a 32-bit
      signed integer, so a shift of 31 gives -2^31 and a larger shift
      overflows (None: a panic in a debug build). */
  function AsWrittenDtFactor(shift: nat): (r: Option<int>)
  {
    if shift >= 32 then None
    else if shift == SIGN_BIT then Some(-(Pow2(shift) as int))
    else Some(Pow2(shift) as int)
  }

  /** The bit position of the sign of a 32-bit signed integer. */
  const SIGN_BIT: nat := 31

  /** The intended factor 2^shift and the written one agree below 31 and
      differ from 31 on. */
  lemma AsWrittenDtFactorAgreesBelow31(shift: nat)
    ensures shift < SIGN_BIT <==> AsWrittenDtFactor(shift) == Some(Pow2(shift) as int)
  {
  }

  /** The last piece at subdivision depth k, t0 = 2^k - 1 with dt = 2^-k:
      accepting it makes t0 + 1 = 2^k, whose k trailing zeros reduce the
      counter to 1 and the exponent of dt to 0, so the start becomes
      1 * 2^0 = 1 and the iteration ends. */
  lemma AcceptLastPiece(k: nat)
    ensures TrailingZeros(Pow2(k)) == k && Shr(Pow2(k), k) == 1
    ensures Frac(Shr(Pow2(k), k), k - k) == 1.0
  {
    TrailingZerosPow2(k);
    FracOne(1, 0);
  }

  /** A state that shows the difference: at depth 31 the intended new dt is
      2^-31 * 2^31 = 1 (`AcceptLastPiece`), so the start is t0 dt = 1 and the
      iteration ends; as written the factor is -2^31, the new dt is
      2^-31 * -2^31 = -1 and the start becomes -1. */
  lemma AsWrittenDtFactorAtDepth31(k: nat)
    requires k == SIGN_BIT
    ensures AsWrittenDtFactor(k) == Some(-(Pow2(k) as int))
    ensures Frac(1, k) * (AsWrittenDtFactor(k).value as real) == -1.0
  {
    NegatedDt(k, AsWrittenDtFactor(k).value);
  }

  /** A factor of -2^k turns dt = 2^-k into -1. */
  lemma NegatedDt(k: nat, w: int)
    requires w == -(Pow2(k) as int)
    ensures Frac(1, k) * (w as real) == -1.0
  {
    FracTimes(1, k);
    NegatedFactor(Frac(1, k), Pow2(k) as real, w as real);
  }

  lemma NegatedFactor(f: real, p: real, w: real)
    requires f * p == 1.0 && w == -p
    ensures f * w == -1.0
  {
    assert f * w == -(f * p);
  }
}
