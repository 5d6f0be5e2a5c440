/**
 * The 32-bit offset flattener (flatten32.rs), meant to match the GPU side.
 *
 * The regime decision, the count and the inversion use the same formulas as
 * the f64 flattener and are reused from module Flatten (so are
 * `espc_int_approx` and `espc_int_inv_approx`, whose f32 bodies are the f64
 * ones). What differs is the shape of the loop: it runs over all segments
 * with a `first` flag, it takes a tolerance, every one of the n points uses
 * the subdivision parameter of (i + 1) / n (there is no separate last point
 * at t = 1), and the points are evaluated with the f32 spiral. Also here is
 * `n_subdiv_robust`, which tests the unscaled offset for the small-offset
 * regime.
 */
module Flatten32 {
  import opened Numeric
  import opened Geom
  import opened Euler
  import opened Euler32
  import opened Flatten

  /** The i-th point of a segment: the f32 offset curve at the subdivision
      parameter of (i + 1) / n. */
  function OffsetPoint32(m: MathLib, es: EulerSeg, offset: real, plan: Plan, n: nat, i: nat): (r: Point)
    requires i < n
  {
    SegEvalWithOffset32(m, es, SubdivParam(m, plan, Fraction(i, n)), offset)
  }

  /** The points of one segment, in order. */
  function OffsetPoints32(m: MathLib, es: EulerSeg, offset: real, tol: real): (r: seq<Point>)
    ensures |r| == PointCount(m, es, offset, tol)
  {
    var plan := FlattenPlan(m, StartK0(es), es.params.k1, DistScaled(m, es, offset));
    var n := PointCount(m, es, offset, tol);
    seq(n, i requires 0 <= i < n => OffsetPoint32(m, es, offset, plan, n, i))
  }

  /** The points of each segment. */
  function SegPoints32(m: MathLib, segs: seq<EulerSeg>, offset: real, tol: real): (r: seq<seq<Point>>)
    ensures |r| == |segs|
    ensures NoneEmpty(r)
  {
    seq(|segs|, j requires 0 <= j < |segs| => OffsetPoints32(m, segs[j], offset, tol))
  }

  /** One more segment adds its points at the end. */
  lemma SegPoints32Snoc(m: MathLib, segs: seq<EulerSeg>, offset: real, tol: real, k: nat)
    requires k < |segs|
    ensures SegPoints32(m, segs[..k + 1], offset, tol) == SegPoints32(m, segs[..k], offset, tol) + [OffsetPoints32(m, segs[k], offset, tol)]
  {
    hide OffsetPoints32;
    var l, r := SegPoints32(m, segs[..k + 1], offset, tol), SegPoints32(m, segs[..k], offset, tol) + [OffsetPoints32(m, segs[k], offset, tol)];
    forall j | 0 <= j < k + 1
      ensures l[j] == r[j]
    {
      assert segs[..k + 1][j] == segs[j];
    }
  }

  /** The path `flatten_offset` (f32) builds: empty for no segments,
      otherwise a `MoveTo` at the offset start of the first segment and the
      lines through the points of all segments. */
  function OffsetPath32(m: MathLib, segs: seq<EulerSeg>, offset: real, tol: real): (r: seq<PathEl>)
  {
    OpenPath(if segs == [] then Origin else SegEvalWithOffset32(m, segs[0], 0.0, offset), SegPoints32(m, segs, offset, tol))
  }

  /** `flatten_offset` (f32), over the segments of the iterator. */
  method FlattenOffset32(m: MathLib, segs: seq<EulerSeg>, offset: real, tol: real) returns (result: seq<PathEl>)
    ensures result == OffsetPath32(m, segs, offset, tol)
  {
    hide SegEvalWithOffset32, FlattenPlan, OffsetPoints32, SegPoints32, PathFrom, Lines, LineTos;
    result := [];
    var first := true;
    ghost var start := if segs == [] then Origin else SegEvalWithOffset32(m, segs[0], 0.0, offset);
    for k := 0 to |segs|
      invariant first <==> k == 0
      invariant result == OpenPath(start, SegPoints32(m, segs[..k], offset, tol))
    {
      var es := segs[k];
      if first {
        result := result + [MoveTo(SegEvalWithOffset32(m, es, 0.0, offset))];
        first := false;
      }
      var pts := SegmentPoints32(m, es, offset, tol);
      SegPoints32Snoc(m, segs, offset, tol, k);
      OpenPathSnoc(start, SegPoints32(m, segs[..k], offset, tol), pts);
      result := result + LineTos(pts);
    }
    assert segs[..|segs|] == segs;
  }

  /** The body of the segment loop of `flatten_offset` (f32): the plan, the
      count, and the points handed to `line_to`. */
  method SegmentPoints32(m: MathLib, es: EulerSeg, offset: real, tol: real) returns (pts: seq<Point>)
    ensures pts == OffsetPoints32(m, es, offset, tol)
  {
    hide SegEvalWithOffset32, FlattenPlan, OffsetPoints32, SubdivParam;
    var k0, k1 := StartK0(es), es.params.k1;
    var distScaled := DistScaled(m, es, offset);
    var scaleMultiplier := ScaleMultiplier(m, es, tol);
    var plan := OffsetPlan(m, k0, k1, distScaled);
    var n := SubdivCount(plan.nFrac * scaleMultiplier);
    assert n == PointCount(m, es, offset, tol);
    pts := [];
    for i := 0 to n
      invariant |pts| == i
      invariant forall j :: 0 <= j < i ==> pts[j] == OffsetPoint32(m, es, offset, plan, n, j)
    {
      var t := Fraction(i, n);
      var s := SubdivParam(m, plan, t);
      pts := pts + [SegEvalWithOffset32(m, es, s, offset)];
    }
    OffsetPoints32Elements(m, es, offset, tol, pts);
  }

  /** A sequence of the right length whose every element is the matching
      point is the sequence of points. */
  lemma OffsetPoints32Elements(m: MathLib, es: EulerSeg, offset: real, tol: real, pts: seq<Point>)
    requires |pts| == PointCount(m, es, offset, tol)
    requires forall j :: 0 <= j < |pts| ==> pts[j] == OffsetPoint32(m, es, offset, FlattenPlan(m, StartK0(es), es.params.k1, DistScaled(m, es, offset)), |pts|, j)
    ensures pts == OffsetPoints32(m, es, offset, tol)
  {
    hide SegEvalWithOffset32, OffsetPoint32;
  }

  /** The last fraction is n / n = 1. */
  lemma FractionLast(n: nat)
    requires n > 0
    ensures Fraction(n - 1, n) == 1.0
  {
  }

  /** The last point of a segment is at the subdivision parameter of the
      whole integral (t = 1); in the arc regime that parameter is exactly
      s = 1, the end of the segment. */
  lemma OffsetPoints32End(m: MathLib, es: EulerSeg, offset: real, tol: real)
    ensures var r := OffsetPoints32(m, es, offset, tol);
      var plan := FlattenPlan(m, StartK0(es), es.params.k1, DistScaled(m, es, offset));
      && r[|r| - 1] == SegEvalWithOffset32(m, es, SubdivParam(m, plan, 1.0), offset)
      && (plan.robust == LowK1 ==> r[|r| - 1] == SegEvalWithOffset32(m, es, 1.0, offset))
  {
    hide SegEvalWithOffset32, FlattenPlan;
    FractionLast(PointCount(m, es, offset, tol));
  }

  /** In the arc regime the points are the offset curve at the uniform
      parameters (i + 1) / n, in (0, 1]. */
  lemma LowK1Uniform32(m: MathLib, es: EulerSeg, offset: real, tol: real, i: nat)
    requires Abs(es.params.k1) < K1_THRESH
    requires i < |OffsetPoints32(m, es, offset, tol)|
    ensures var n := |OffsetPoints32(m, es, offset, tol)|;
      && OffsetPoints32(m, es, offset, tol)[i] == SegEvalWithOffset32(m, es, Fraction(i, n), offset)
      && 0.0 < Fraction(i, n) <= 1.0
  {
    hide SegEvalWithOffset32;
    var n := |OffsetPoints32(m, es, offset, tol)|;
    if i + 1 < n {
      FractionsInside(i, n);
    } else {
      FractionLast(n);
    }
  }

  /** `n_subdiv_robust`: the number of subdivisions, with the arc regime
      tested first (|k1| < 1e-3), then the small-offset regime on the
      unscaled offset (|dist| < 1e-3), then the general formula. */
  function NSubdivRobust(m: MathLib, k0: real, k1: real, scale: real, dist: real, tol: real): (r: real)
  {
    var distScaled := Div(dist, scale);
    var scaleMultiplier := 0.5 * FRAC_1_SQRT_2 * m.sqrt(Div(scale, tol));
    if Abs(k1) < K1_THRESH then
      scaleMultiplier * ArcCount(m, k0, k1, distScaled)
    else if Abs(dist) < DIST_THRESH then
      Div((2.0 / 3.0) * scaleMultiplier * (SignedPow32(m, k0 + k1) - SignedPow32(m, k0)), k1)
    else
      scaleMultiplier * NormalCount(m, k0, k1, distScaled)
  }

  lemma DivScale(s: real, x: real, d: real)
    ensures Div(s * x, d) == s * Div(x, d)
  {
  }

  /** `n_subdiv_robust` is the unrounded count of the flattener for a unit
      chord (ch = 1), as long as testing the offset scaled or unscaled picks
      the same regime (always when k1 is small, and whenever scale = 1). */
  lemma NSubdivRobustMatchesPlan(m: MathLib, k0: real, k1: real, scale: real, dist: real, tol: real)
    requires Abs(k1) < K1_THRESH || (Abs(dist) < DIST_THRESH <==> Abs(Div(dist, scale)) < DIST_THRESH)
    ensures NSubdivRobust(m, k0, k1, scale, dist, tol)
      == 0.5 * FRAC_1_SQRT_2 * m.sqrt(Div(scale, tol)) * FlattenPlan(m, k0, k1, Div(dist, scale)).nFrac
  {
    hide FlattenPlan, NormalCount, ArcCount, SignedPow32;
    var sm := 0.5 * FRAC_1_SQRT_2 * m.sqrt(Div(scale, tol));
    var ds := Div(dist, scale);
    if Abs(k1) < K1_THRESH {
      PlanArcCount(m, k0, k1, ds);
    } else if Abs(dist) < DIST_THRESH {
      PlanLowDistCount(m, k0, k1, ds);
      assert k0 + k1 == k1 + k0;
      LowDistScale(sm, SignedPow32(m, k1 + k0) - SignedPow32(m, k0), k1);
    } else {
      PlanNormalCount(m, k0, k1, ds);
    }
  }

  lemma LowDistScale(sm: real, integral: real, k1: real)
    ensures Div((2.0 / 3.0) * sm * integral, k1) == sm * Div((2.0 / 3.0) * integral, k1)
  {
    assert (2.0 / 3.0) * sm * integral == sm * ((2.0 / 3.0) * integral);
    DivScale(sm, (2.0 / 3.0) * integral, k1);
  }

  /** In the arc regime the count is never negative. */
  lemma NSubdivRobustArcNonNeg(m: MathLib, k0: real, k1: real, scale: real, dist: real, tol: real)
    requires Lawful(m)
    requires Abs(k1) < K1_THRESH
    ensures NSubdivRobust(m, k0, k1, scale, dist, tol) >= 0.0
  {
    var sm := 0.5 * FRAC_1_SQRT_2 * m.sqrt(Div(scale, tol));
    MulNonNeg(0.5 * FRAC_1_SQRT_2, m.sqrt(Div(scale, tol)));
    MulNonNeg(sm, ArcCount(m, k0, k1, Div(dist, scale)));
  }
}
