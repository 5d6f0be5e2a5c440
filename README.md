# Stroke expansion kernel, modelled in Dafny

This project models the CPU stroke-expansion kernel of the GPU stroke
expansion paper's `flatten` crate and proves properties of that model. The
kernel turns a path (lines, quadratic and cubic Béziers) together with a
stroke style (width, joins, caps) into an outline. Each cubic is split into
Euler spiral segments (`CubicToEulerIter`). Each segment is flattened either
into lines or into circular arcs at the offset distance. Joins and caps are
inserted between segments. Each open subpath becomes one run: the forward
side, the end cap, the reversed backward side and the start cap. Each closed
subpath becomes two runs: the forward side with its closing join, and the
reversed backward side. The runs close up, except in the two cases where the
source itself leaves a gap (see `StrokeShape.StrokeRunsLoop` under
"## Left out"). The project also models the
SVG-subset reader that feeds the stroker and the RVG path serialiser.

Numbers (`f64`, `f32`) are modelled as `real`. The transcendental functions
and kurbo's quadratic solver are uninterpreted fields of a `MathLib` value
`m`. `Lawful(m)` states the few laws the proofs use, such as `sqrt(x) >= 0`,
`hypot(-v) == hypot(v)`, `sin` being odd, and the quadratic solver returning
roots. The subdivision step `dt = 2^-j` of the Euler iterator is kept as the
integer exponent `j`, so the source's float test `t0 * dt == 1.0` is exact.

The spiral series `integ_euler_12` and its f32 twin `integ_euler_10` share
one definition, `Euler.SeriesUV`. The source's table entry `t{n}_{j}` is the
coefficient of `x^(j-n)` in `(k0 + k1/2 x)^n`. Row `t_2n` is built as the source
builds it, by truncated polynomial products: `t4 = t2 t2`, `t6 = t4 t2`, and so
on. Row `t_(2n+1)` keeps the odd-degree coefficients of `t_2n` times `t1`. Each
group of `u` and of `v` weighs its row by the source's constants, and `u` and
`v` are the alternating sums of the groups. The 12th-order table runs up to
index 10 and the 10th-order one up to index 8, with the same constants cut
short. As real numbers this is the source's unrolled arithmetic.

Modules, one file each:

| module | file | source |
|---|---|---|
| `Numeric` | numeric.dfy | `copysign`, `ceil`, `as usize`, `>>`, trailing zeros, powers of two, guarded division |
| `Geom` | geom.dfy | points and vectors, `hypot`, cubic evaluation (`eval_and_deriv`) |
| `ArcSegments` | arc_segment.dfy | arc_segment.rs |
| `Euler` | euler.dfy | `EulerParams`, `EulerSeg`, `CubicParams`, the spiral integrals of euler.rs |
| `Euler32` | euler32.dfy | the parts of euler32.rs that differ from euler.rs |
| `EulerIter` | euler_iter.dfy | `CubicToEulerIter` of euler.rs and euler32.rs |
| `Flatten` | flatten.dfy | flatten.rs |
| `Flatten32` | flatten32.dfy | flatten32.rs |
| `Evolute` | evolute.dfy | evolute.rs |
| `Lowering` | lowering.dfy | `LoweredPath` and the `Line`/`ArcSegment` lowering backends of stroke.rs |
| `Stroke` | stroke.dfy | `pathseg_tangents`, caps, joins, `StrokeCtx` and `stroke_undashed` of stroke.rs |
| `StrokeShape` | stroke_shape.dfy | the runs of `stroke_undashed`'s output and where they close |
| `Svg` | svg.dfy | the lexer, `get_transform_scale`, `parse_rec` and `expand` of svg.rs |
| `ToRvg` | to_rvg.dfy | `to_rvg_path` and the affine suffix of to_rvg.rs |

## How the model is arranged

- The `Lowering` trait is the `Backend` value `Lines | Arcs`. A lowered
  primitive is the `Prim` datatype `Line(p0, p1) | Arc(p0, p1, k0)`.
- `LoweredPath` is a class with the fields `path: seq<Prim>` and `lastPt`.
  The stroker's `StrokeCtx` is a class that owns three of them (output,
  forward side, backward side) and the points and tangents of the source.
- Each stateful operation is a method. It is proved against a function that
  gives its whole new state: `JoinStep`, `LineStep`, `CubicStep`,
  `OpenFinish`, `ClosedFinish` and `ElStep`. The source's promises are
  lemmas about those functions.
- `stroke_undashed` is specified by the fold `StrokeOutput` of `ElStep` over
  the path elements. The module `StrokeShape` (stroke_shape.dfy) splits that
  output into its runs and proves which runs are closed loops.
- An iterator fault (a diverging f64 fit or a counter overflow) makes
  `stroke_undashed` and `expand` return `None`, where the source panics.
- The Euler segment iterator is a class whose `Next` method runs the
  source's subdivision loop. The error estimate it tests (`est_euler_err`) is
  an ordinary function of the uninterpreted mathematics. `Next` is proved to
  emit only pieces whose estimate times the chord is within the tolerance,
  but nothing is assumed about the estimate's value. The segments that the
  stroker receives for a curve are a ghost out-parameter. `LowerCubic`
  carries the iterator's contract up to them: each segment is a tested
  piece (`EulerIter.TestedPiece`). It runs between the cubic's points at two
  parameters, it passed the error test on `from_points_derivs` of that
  piece, and its spiral is the fit of its angles. `CurveSegsOk`, and so
  `StrokedWith`, `StrokeUndashed` and `Expand`, state this for every curve.
- The caller's closure in `flatten_offset` is modelled by the sequence of
  points it receives.
- The code this reads from outside the core becomes parameters:
  - `f64::from_str` is `parse: string -> Option<real>`. The only assumption
    is that it rejects the empty text (`RejectsEmpty`).
  - `Display` of numbers is `fmt: real -> string`.
  - `BezPath::from_svg` is `fromSvg: string -> Option<seq<PathEl>>`.
  - The roxmltree document is a `Node` tree.

## Model

| member | source | states |
|---|---|---|
| Numeric.CopySign | flatten/src/flatten.rs:191 | `copysign`: the result has the magnitude of `a`; it is at most 0 when `s < 0` and at least 0 otherwise (a zero `s` counts as positive) |
| Numeric.Ceil | flatten/src/flatten.rs:67 | `ceil`: an integer at least `x` and less than `x + 1` |
| Numeric.ToUsize | flatten/src/flatten.rs:68 | `as usize`: truncation toward zero for non-negative values, 0 for negative ones |
| Numeric.TrailingZerosSplit | flatten/src/euler.rs:409-410 | shifting out the trailing zeros of a positive `n` leaves an odd number, and `n` is that number times `2^trailing_zeros(n)` |
| Geom.AddSubCancel | flatten/src/cubic32.rs:36-58 | `(a + b) - b == a`, `(a - b) + b == a` and `a - a` is the origin |
| Geom.Hypot2Props | flatten/src/cubic32.rs:25-27 | `hypot2` is `x² + y²`, the self dot product, and is never negative |
| Geom.HypotNeg | flatten/src/cubic32.rs:21-23 | the length of `-v` equals the length of `v` |
| Geom.CrossDotSymmetry | flatten/src/stroke.rs:444-446 | the cross product is antisymmetric and the dot product symmetric, and negating both arguments changes neither |
| Geom.EvalAndDerivAtZero | flatten/src/cubic32.rs:75-85 | `eval_and_deriv(0)` is `(p0, p1 - p0)` |
| Geom.EvalAndDerivAtOne | flatten/src/cubic32.rs:75-85 | `eval_and_deriv(1)` is `(p3, p3 - p2)` |
| Geom.EvalAndDerivIsThirdDerivative | flatten/src/euler.rs:363-375 | each coordinate of the point is the cubic `a + b t + c t² + d t³`, and three times the returned vector is its derivative `b + 2c t + 3d t²` |
| ArcSegments.ToSvgArc | flatten/src/arc_segment.rs:23-37 | the SVG arc runs from `p0` to `p1` with rotation 0; its two radii are equal and non-negative, and zero when `|k0| < 1e-12`; `large_arc` holds iff `|k0| > π`; `sweep` holds iff `k0 <= 0` |
| ArcSegments.Reverse | flatten/src/stroke.rs:221-223 | a reversed arc swaps its ends and negates `k0` |
| ArcSegments.ReverseSvgArc | flatten/src/arc_segment.rs:29-35 | the reversed arc's SVG arc swaps `from` and `to`, keeps the radii and `large_arc`, and for `k0 != 0` flips `sweep` |
| Euler.EulerParams.InvTh | flatten/src/euler.rs:160-165 | every returned parameter `t`, inside `[0, 1]` or not, satisfies `eval_th(t) == th` |
| Euler.EvalThEnds | flatten/src/euler.rs:141-146 | with `k0 = th0 + th1`: `eval_th(0) == -th0` and `eval_th(1) == th1` |
| Euler.EvalThChange | flatten/src/euler.rs:144-146 | the change of `eval_th` over `[t, t + dt]` is `dt · (k0 + k1 (s - 0.5))`, where `s` is the midpoint |
| Euler.CurvatureLinear | flatten/src/euler.rs:152-155 | the curvature at 0.5 is `ch · k0`, and the curvature rises by `ch · k1 · d` from `t` to `t + d` |
| Euler.EvalAtZero | flatten/src/euler.rs:170-183 | `eval(0)` is the origin, whatever the integral returns |
| Euler.EvalWithZeroOffset | flatten/src/euler.rs:185-189 | `eval_with_offset(t, 0) == eval(t)` |
| Euler.EulerParams.EvalWithOffset | flatten/src/euler.rs:185-189 | definition of `eval_with_offset` (no contract of its own): `eval(t)` moved by `offset · (sin th, cos th)` for the angle `th = eval_th(t)`; its zero-offset case is Euler.EvalWithZeroOffset |
| Euler.ToFrameEnds | flatten/src/euler.rs:302-309 | the segment's frame map sends `(0, 0)` to `p0` and `(1, 0)` to `p1` |
| Euler.SegEvalAtZero | flatten/src/euler.rs:302-309 | `EulerSeg::eval(0) == p0` |
| Euler.SegEvalWithZeroOffset | flatten/src/euler.rs:311-319 | `EulerSeg::eval_with_offset(t, 0) == EulerSeg::eval(t)` |
| Euler.EulerSeg.EvalWithOffset | flatten/src/euler.rs:311-319 | definition of the segment's `eval_with_offset` (no contract of its own): the unit-chord offset evaluation at `offset / chord`, mapped into the segment's frame; its zero-offset case is Euler.SegEvalWithZeroOffset |
| Euler.FromPointsDerivsLengths | flatten/src/euler.rs:68-84 | for `dt >= 0` both normalised derivative lengths `d0`, `d1` are non-negative |
| Euler.FromPointsDerivs | flatten/src/euler.rs:68-84 | definition of `from_points_derivs` (no contract of its own): the angles from the chord to the end derivatives and the normalized lengths; the iterator's error test (EulerIter.CubicToEulerIter.Next) is stated on it, and its lengths are non-negative (Euler.FromPointsDerivsLengths) |
| Euler.EstEulerErrNonNeg | flatten/src/euler.rs:90-107 | `est_euler_err` is never negative |
| Euler.EstEulerErr | flatten/src/euler.rs:90-107 | definition of `est_euler_err` with the source's constants (no contract of its own): the iterator accepts a piece only when it times the chord is within the tolerance (EulerIter.CubicToEulerIter.Next), and it is never negative (Euler.EstEulerErrNonNeg) |
| Euler.FromAngles | flatten/src/euler.rs:111-137 | the secant loop yields the result of at most ten rounds. A result that is `Some` keeps `th0` and `th1`, has `k0 = th0 + th1`, and has a residual below `1e-9`. `None` is the panic "fit_euler diverged" |
| Euler.IntegEuler12Straight | flatten/src/euler.rs:445-485 | `integ_euler_12(0, 0) == (1, 0)`, the unit chord |
| Euler.SeriesStraight | flatten/src/euler.rs:445-485 | the series with zero curvature is `(1, 0)` whatever its length: every row of the table above `t0` is zero, so only the leading `1` of `u` remains |
| Euler.IntegEuler12n | flatten/src/euler.rs:488-515 | the loop's result is the sum over the `n` pieces of each piece's series, turned by the tangent angle at the piece's middle, scaled by `1/n` |
| Euler.IntegEulerStraight | flatten/src/euler.rs:529-544 | `integ_euler(0, 0, accuracy)` is `(1, 0)` for every positive accuracy, taken through the plain-series branch |
| Euler32.FromAngles32Fields | flatten/src/euler32.rs:118-147 | the closed form always returns; it keeps `th0` and `th1`, sets `k0 = th0 + th1`, and so `eval_th(0) == -th0` and `eval_th(1) == th1` |
| Euler32.FromAngles32EqualAngles | flatten/src/euler32.rs:119-130 | `from_angles(th, th)` has `k1 == 0` |
| Euler32.FromAngles32Straight | flatten/src/euler32.rs:119-146 | `from_angles(0, 0)` has `k0 == 0`, `k1 == 0` and `ch == 1` |
| Euler32.FromAngles32Swap | flatten/src/euler32.rs:118-147 | exchanging the angles keeps `k0` and `ch` and negates `k1` |
| Euler32.EstEulerErr32Cusp | flatten/src/euler32.rs:77-84 | `est_euler_err` is exactly 2 when `cos th0 · cos th1 < 0` |
| Euler32.EstEulerErr32NonNeg | flatten/src/euler32.rs:75-104 | the f32 `est_euler_err` is never negative |
| Euler32.IntegEuler10Straight | flatten/src/euler32.rs:279-309 | `integ_euler_10(0, 0) == (1, 0)` |
| Euler32.Eval32AtZero | flatten/src/euler32.rs:161-171 | the f32 `eval(0)` is the origin |
| Euler32.EvalWithOffset32Zero | flatten/src/euler32.rs:173-177 | the f32 `eval_with_offset` moves `eval(t)` by exactly `offset · (sin th, cos th)` with `th = eval_th(t)`; opposite offsets are symmetric about `eval(t)`; a zero offset gives `eval(t)` |
| Euler32.EvalWithOffset32 | flatten/src/euler32.rs:173-177 | definition of the f32 `eval_with_offset` (no contract of its own); its displacement, symmetry and zero-offset case are Euler32.EvalWithOffset32Zero |
| Euler32.SegEvalWithOffset32Start | flatten/src/euler32.rs:193-201 | the f32 segment at `t = 0` with zero offset is `p0` |
| EulerIter.NudgedEnd | flatten/src/euler.rs:391-402 | when `q1` is too small the derivative is taken at `t1 - eps`, and for `t1 < 1` so are the point and the parameter; at `t1 = 1` the point stays `c.p3` and the parameter stays 1 |
| EulerIter.StartDeriv | flatten/src/euler.rs:426-431 | the starting derivative is `p1 - p0`, or the derivative at `eps` when `p1 - p0` is too small |
| EulerIter.FracDouble | flatten/src/euler.rs:419-420 | a split (`t0 *= 2`, `dt *= 0.5`) leaves the start `t0 · dt` unchanged |
| EulerIter.FracNext | flatten/src/euler.rs:391 | the candidate's end `t0 · dt + dt` is `(t0 + 1) · dt` |
| EulerIter.FracOne | flatten/src/euler.rs:386-389 | `t0 · dt >= 0`; it equals 1 iff `t0 == 2^j`, it is at most 1 iff `t0 <= 2^j`, and it is below 1 iff `t0 < 2^j` |
| EulerIter.AcceptBookkeeping | flatten/src/euler.rs:408-411 | after an accept `t0 + 1` loses at most `j` trailing zeros; the new start is the old end `(t0 + 1) · dt`, the new `t0` is odd and stays within `2^j` |
| EulerIter.AcceptedState | flatten/src/euler.rs:407-417 | after an accept the counter is odd, fits its word and stays within `2^j`. The start moves to the old end and never passes 1. `last_t` is the new start or `eps` before it. At the end of the curve, `t0 == 1`, `dt == 1` and `last_p == c.p3` |
| EulerIter.OddPow2 | flatten/src/euler.rs:386-389 | an odd `t0` with `t0 · dt == 1` is `t0 == 1` with `dt == 1` |
| EulerIter.FitAngles | flatten/src/euler.rs:412 | the fit of the iterator's precision keeps `th0` and `th1` and puts `k0 = th0 + th1`; only the f64 fit can fail |
| EulerIter.CubicToEulerIter.constructor | flatten/src/euler.rs:426-441 | `t0 == 0`, `dt == 1`, `last_p == c.p0`, `last_t == 0`, `last_q` is the starting derivative, and the invariant `Valid` holds |
| EulerIter.CubicToEulerIter.AtEnd | flatten/src/euler.rs:386-389 | under `Valid`, a start of 1 means `last_p == c.p3`. That `t0 == 1` and `dt == 1` then hold needs an odd counter, which `Valid` does not carry; `Emitted` and `Advance` state it after an accept |
| EulerIter.CubicToEulerIter.Accept | flatten/src/euler.rs:403-417 | for cubic parameters `cp = from_points_derivs(last_p, p1, last_q, q1, t1 - last_t)` that passed `err · chord <= tolerance`: the result is `Emit`, `Diverged` or `Overflow`. An emitted segment starts at the old `last_p`, ends at `p1`, passed that error test (`Emitted`), and keeps `cp`'s `th0` and `th1`; `last_q` and `last_t` become `q1` and `t1`. Otherwise `last_*` are unchanged, and an overflow changes nothing |
| EulerIter.CubicToEulerIter.Advance | flatten/src/euler.rs:408-411 | the start grows by `dt` to the old end, strictly, and stays at most 1. The new `t0` is odd, within `2^j` and within its word. `t1` is the new start or `eps` before it. At start 1, `t0 == 1`, `dt == 1`, `t1 == 1` and `p1 == c.p3` |
| EulerIter.CubicToEulerIter.Attempt | flatten/src/euler.rs:390-421 | one turn of the subdivision loop. A candidate is emitted (`Emit`, or `Diverged` when the fit fails) only after `from_points_derivs` of the piece passed `est_err · chord <= tolerance` (`Emitted`, `PassedTest`); a rejected one doubles `t0` and increments `j`, which keeps the start, and the loop goes on; `Overflow` when `2 t0` leaves the word |
| EulerIter.CubicToEulerIter.Next | flatten/src/euler.rs:385-422 | `Done` iff the start is 1, with nothing changed. An emitted segment starts at the old `last_p` and ends at the cubic's point at the new `last_t`. Its parameters are the fit of the angles of `from_points_derivs(old last_p, new last_p, old last_q, new last_q, new last_t - old last_t)`, whose estimate times the chord is at most the tolerance. The start strictly increases and stays at most 1. At start 1 the segment ends at `c.p3`. `Valid` is kept unless the fit diverged |
| EulerIter.TestedPiecesStart | flatten/src/euler.rs:426-441 | before any piece the iterator is at parameter 0 with the start derivative, an empty run of tested pieces |
| EulerIter.CubicToEulerIter.EmittedPiece | flatten/src/euler.rs:403-417 | a segment `next` emitted from `last_p` at `last_t` is a tested piece of the cubic over `[last_t, new last_t]`: on the cubic at both ends, passing the error test with the carried derivatives, and the precision's fit |
| EulerIter.TestedPiecesSnoc | flatten/src/euler.rs:385-422 | a tested piece starting at the last parameter and derivative extends the run of tested pieces |
| EulerIter.TestedPiecesJoin | flatten/src/euler.rs:385-422 | tested pieces leave no gaps: each ends where the next begins, the first begins at `c.p0` and the last ends at the cubic's point at the last parameter |
| EulerIter.AsWrittenDtFactorAgreesBelow31 | flatten/src/euler.rs:411 | the written factor `(1 << shift) as f64` equals `2^shift` for `shift < 31` and differs from it for `shift >= 31` |
| EulerIter.AcceptLastPiece | flatten/src/euler.rs:407-411 | accepting the last piece `t0 = 2^k - 1` at depth `k` with the intended factor gives `t0 == 1`, `dt == 1`, a start of 1, and the iteration ends |
| EulerIter.AsWrittenDtFactorAtDepth31 | flatten/src/euler.rs:411 | at depth 31 the written factor is `-2^31`, so the new `dt` is -1 and the start becomes -1 instead of 1 |
| Evolute.SampleTUniform | flatten/src/evolute.rs:15-23 | the eleven sample parameters are `i/10`: from 0 to 1, strictly increasing |
| Evolute.Polyline | flatten/src/evolute.rs:17-21 | a `MoveTo` at the first point and a `LineTo` at each later one, the same length as the points |
| Evolute.PolylineSnoc | flatten/src/evolute.rs:17-21 | one more point appends a `MoveTo` to an empty polyline and a `LineTo` otherwise |
| Evolute.FlattenEsEvolute | flatten/src/evolute.rs:11-25 | the result is the polyline through `eval_evolute(i/10)`, `i = 0..10`, whatever `tol` is |
| Evolute.FlattenEs | flatten/src/evolute.rs:30-44 | the result is the polyline through `eval(i/10)`, `i = 0..10`, whatever `tol` is |
| Evolute.EvolutePathShape | flatten/src/evolute.rs:11-25 | exactly eleven elements: a `MoveTo` at sample 0, then ten `LineTo`s at samples `1..10` |
| Evolute.SpiralPathShape | flatten/src/evolute.rs:30-44 | exactly eleven elements: a `MoveTo` at `p0`, then `LineTo`s at `t = i/10`, the last at `t = 1` |
| Flatten.EspcIntApprox | flatten/src/flatten.rs:177-192 | the branch is chosen by `|x|` with breakpoints 0.8, 1.25 and 2.1, and the result carries the sign of `x` |
| Flatten.EspcIntApproxByMagnitude | flatten/src/flatten.rs:177-192 | the approximation depends only on `|x|` and the sign of `x` |
| Flatten.EspcIntApproxOdd | flatten/src/flatten.rs:177-192 | `espc_int_approx(-x) == -espc_int_approx(x)` |
| Flatten.EspcIntInvApprox | flatten/src/flatten.rs:194-213 | the branch is chosen by `|x|` with breakpoints 0.701…, 0.903… and 2.0388…, and the result carries the sign of `x` |
| Flatten.EspcIntInvApproxMagnitudeEven | flatten/src/flatten.rs:194-213 | before the sign is copied, the value for `-x` has the same magnitude as the value for `x` |
| Flatten.EspcIntInvApproxOdd | flatten/src/flatten.rs:194-213 | `espc_int_inv_approx(-x) == -espc_int_inv_approx(x)` |
| Flatten.EspcIntegralOdd | flatten/src/flatten.rs:103-112 | `espc_integral(-x) == -espc_integral(x)` |
| Flatten.Corrections | flatten/src/flatten.rs:119-130 | the number of Newton corrections the loop makes is at most the rounds available |
| Flatten.EspcIntegralInvIterStops | flatten/src/flatten.rs:119-130 | the loop makes `k` corrections, at most the rounds available. Every iterate before the `k`-th had a residual of at least `1e-15`. The loop stops at the first iterate under `1e-15`, or when the rounds run out, and returns the `k`-th iterate |
| Flatten.EspcIntegralInv | flatten/src/flatten.rs:118-131 | the result is the `k`-th Newton iterate from `espc_int_inv_approx(x)` with `k <= 5`; earlier iterates had a residual of at least `1e-15`, and an early stop means a residual below `1e-15` |
| Flatten.NSubdivAnalyticArcNonNeg | flatten/src/flatten.rs:137-143 | for `k1 = 0` (a circular arc) the analytic subdivision count is never negative |
| Flatten.NSubdivAnalytic | flatten/src/flatten.rs:137-152 | definition of `n_subdiv_analytic` (no contract of its own): the arc case and the exact-integral case; related to the flattener's count by Flatten.NSubdivAnalyticMatchesPlan |
| Flatten.NSubdivAnalyticMatchesPlan | flatten/src/flatten.rs:137-152 | a reference for the flattener's count: when `|k1|` and `|dist / scale|` reach the thresholds, `flatten_offset` takes the normal regime with the same `a` and `b` as `n_subdiv_analytic`; both counts apply the same scaling to the integral, the analytic one to `espc_integral(a + b) - espc_integral(b)` and the plan to the same difference of `espc_int_approx`; so where the approximation agrees with the integral, the analytic count is `0.5 · FRAC_1_SQRT_2 · sqrt(scale / tol)` times the plan's `n_frac` |
| Flatten.FlattenPlan | flatten/src/flatten.rs:27-66 | `LowK1` iff `|k1| < 1e-3`; `LowDist` iff not and `|dist_scaled| < 1e-3`; otherwise `Normal`. In `LowK1` the locals `a`, `b`, `integral`, `int0` are 0, and otherwise `integral + int0` is the antiderivative at `a + b` |
| Flatten.PlanArcCount | flatten/src/flatten.rs:41-44 | in `LowK1` the unrounded count is `sqrt(|k (k · dist_scaled + 1)|)` with `k = k0 + k1/2` |
| Flatten.SubdivCount | flatten/src/flatten.rs:67-68 | `ceil(x).max(1) as usize` is the least whole number that is at least `x` and at least 1 |
| Flatten.PointCount | flatten/src/flatten.rs:67 | a segment's point count is `max(1, ceil(n_frac · scale_multiplier))` |
| Flatten.OffsetPlan | flatten/src/flatten.rs:27-66 | the regime and locals of `flatten_offset` are `FlattenPlan` of the segment's start curvature, `k1` and scaled offset |
| Flatten.FlattenOffset | flatten/src/flatten.rs:26-86 | the points handed to the callback are, in order, the offset curve at the interior parameters and then at `t = 1` |
| Flatten.OffsetPointsEnd | flatten/src/flatten.rs:67-85 | the callback runs exactly `max(1, ceil(n_frac · scale_multiplier))` times, and its last point is `eval_with_offset(1, offset)` |
| Flatten.FractionsInside | flatten/src/flatten.rs:68-69 | the fractions `(i + 1)/n` for `i < n - 1` increase strictly and lie strictly inside `(0, 1)` |
| Flatten.LowK1Uniform | flatten/src/flatten.rs:68-71 | in `LowK1` the interior points are the offset curve at `(i + 1)/n`, strictly inside `(0, 1)`, so the start point is never emitted |
| Flatten.LinesShape | flatten/src/flatten.rs:97 | one `LineTo` per point, each at that point |
| Flatten.TotalAtLeast | flatten/src/flatten.rs:93-98 | when each segment has at least one point there are at least as many points as segments |
| Flatten.OpenPathShape | flatten/src/flatten.rs:88-100 | no segments give an empty path; otherwise the path has exactly one `MoveTo`, at its head, followed only by `LineTo`s, at least one per segment |
| Flatten.OpenPathSnoc | flatten/src/flatten.rs:93-98 | one more segment appends its lines, preceded by the `MoveTo` only for the first segment |
| Flatten.SegPointsSnoc | flatten/src/flatten.rs:93-98 | one more segment adds its points at the end |
| Flatten.FlattenOffsetIter | flatten/src/flatten.rs:88-100 | the path is a `MoveTo` at the first segment's offset start, followed by the `LineTo`s of every segment's points at tolerance 1 |
| Flatten32.SegPoints32Snoc | flatten/src/flatten32.rs:35-95 | one more segment adds its points at the end |
| Flatten32.FlattenOffset32 | flatten/src/flatten32.rs:30-97 | the path is empty for no segments. Otherwise it is a `MoveTo` at the first segment's offset start, followed by `LineTo`s at every segment's points |
| Flatten32.SegmentPoints32 | flatten/src/flatten32.rs:37-94 | a segment's points are the offset curve at the `n = max(1, ceil(n_frac · scale_multiplier))` parameters of the chosen regime, for fractions `(i + 1)/n` |
| Flatten32.FractionLast | flatten/src/flatten32.rs:79 | the last fraction is `n/n = 1` |
| Flatten32.OffsetPoints32End | flatten/src/flatten32.rs:77-94 | a segment has `max(1, ceil(n_frac · scale_multiplier))` points. The last one is at the whole integral (`t = 1`), and in `LowK1` it is at `s = 1`, the segment's end |
| Flatten32.LowK1Uniform32 | flatten/src/flatten32.rs:78-82 | in `LowK1` the points are the offset curve at `(i + 1)/n`, within `(0, 1]` |
| Flatten32.NSubdivRobustMatchesPlan | flatten/src/flatten32.rs:163-190 | `n_subdiv_robust` is the flattener's count for a unit chord whenever testing `dist` or `dist_scaled` picks the same regime, which always holds when `|k1| < 1e-3` or `scale = 1` |
| Flatten32.NSubdivRobustArcNonNeg | flatten/src/flatten32.rs:171-175 | for `|k1| < 1e-3` the count is never negative |
| Lowering.Prim.Reverse | flatten/src/stroke.rs:140-142 | a reversed line swaps its ends. A reversed arc swaps its ends and negates `k0`. Its end point is the original start |
| Lowering.MakeLine | flatten/src/stroke.rs:136-138 | `L::line` gives a line of the backend's kind from `p0` to `p1`: a `Line`, or an `Arc` with `k0 = 0` |
| Lowering.ReverseInvolution | flatten/src/stroke.rs:140-142 | reversing twice gives the primitive back, reversing keeps the kind, and a reversed backend line is the line the other way |
| Lowering.RunsAppend | flatten/src/stroke.rs:60-63 | two runs, the second starting where the first ends, form one run |
| Lowering.TracksAppend | flatten/src/stroke.rs:60-63 | appending a run that starts at the cursor keeps the path chained to the cursor, which moves to the run's end |
| Lowering.ReversedAll | flatten/src/stroke.rs:399-401 | the backward path reversed, each primitive reversed, with the same length |
| Lowering.ReversedAllProps | flatten/src/stroke.rs:399-401 | reversing a path twice gives it back; a run from `a` to `b` reversed is a run from `b` to `a`; kinds are kept |
| Lowering.LinesThroughSnoc | flatten/src/stroke.rs:60-63 | one more `line_to` appends one line from the previous point (or the cursor) to the new point |
| Lowering.LinesThroughRuns | flatten/src/stroke.rs:60-63 | repeated `line_to` calls from `from` through a nonempty list of points push a run from `from` to the last point, of the backend's kind |
| Lowering.ArcPrimsShape | flatten/src/stroke.rs:111-134 | `lower_arc` pushes a run from `arc.p0` to `arc.p1`. For arcs it is the arc unchanged. For lines it is one chord when `n_frac <= 1`, and otherwise exactly `ceil(n_frac)` chained lines (at least two) |
| Lowering.ArcPointEnds | flatten/src/stroke.rs:122-133 | the chord sample formula gives `arc.p0` at fraction 0 and `arc.p1` at fraction 1 (when the half-angle sine is not 0) |
| Lowering.EspcArcCount | flatten/src/stroke.rs:190-195 | `n = max(1, ceil(cbrt(est_err)))`, so `n >= 1` |
| Lowering.EspcArcAngleIsThChange | flatten/src/stroke.rs:201-209 | arc `i` turns through `(k0 + (t_mid - 0.5) k1) dt`, which is exactly the change of the spiral's tangent angle over its interval |
| Lowering.EspcArcsTurningPrefix | flatten/src/stroke.rs:201-209 | the first `k` arcs together turn through the tangent change over `[0, k dt]` |
| Lowering.EspcArcsTurning | flatten/src/stroke.rs:189-211 | the `n` arcs together turn through `k0`, the tangent change from `t = 0` to `t = 1` |
| Lowering.EspcArcLastEnd | flatten/src/stroke.rs:201-209 | the last arc ends at the offset curve at `t = 1` |
| Lowering.EspcArcsRuns | flatten/src/stroke.rs:197-210 | the arcs form a run of arcs, each starting where the previous one ended, from the first arc's start to the last arc's end |
| Lowering.EspcLoweredShape | flatten/src/stroke.rs:104-109 | `lower_espc` only appends. What it appends is a nonempty run of the backend's kind, from `last_pt` (or the offset start when the path is empty) to the offset end. The offset end becomes `last_pt` |
| Lowering.EspcLoweredAllShape | flatten/src/stroke.rs:548-551 | lowering a sequence of segments keeps the path chained, only appends, and ends at the last segment's offset end |
| Lowering.PrimSvgCounts | flatten/src/stroke.rs:97-102 | a primitive renders as one drawing command, preceded by a move exactly when it does not start at the previous end |
| Lowering.PathSvgCounts | flatten/src/stroke.rs:74-82 | a path renders as one drawing command per primitive; a chained nonempty path has exactly one move, as its first command, at its start |
| Lowering.EspcArcStep | flatten/src/stroke.rs:201-209 | step `i` of the arc loop has `t0 = i/n`, ends at the offset curve at `t0 + 1/n`, and takes its angle at the midpoint |
| Lowering.LoweredPath.constructor | flatten/src/stroke.rs:47-52 | an empty path with the cursor at the origin |
| Lowering.LoweredPath.MoveTo | flatten/src/stroke.rs:56-58 | `last_pt := p`, and `path` is unchanged |
| Lowering.LoweredPath.LineTo | flatten/src/stroke.rs:60-63 | appends exactly one line, from the old `last_pt` to `p`, and sets `last_pt := p` |
| Lowering.LoweredPath.LowerArc | flatten/src/stroke.rs:111-134 | appends `lower_arc`'s primitives and leaves `last_pt` alone |
| Lowering.LoweredPath.PushArcLines | flatten/src/stroke.rs:119-133 | for `n >= 2` it appends the lines through the samples at `1/n … (n - 1)/n` and on to `arc.p1` |
| Lowering.LoweredPath.LowerEspc | flatten/src/stroke.rs:104-109 | the new `path` and `last_pt` are those `EspcLowered` gives for the old ones |
| Lowering.LoweredPath.LowerEspcArcs | flatten/src/stroke.rs:189-211 | for the arc backend it returns `n = EspcArcCount`, appends the `n` arcs from the cursor or offset start, and leaves `last_pt` at the last arc's end |
| Lowering.LoweredPath.ToSvg | flatten/src/stroke.rs:74-82 | the SVG commands are those of each primitive in turn, each told the previous primitive's end |
| Stroke.NormPerpendicular | flatten/src/stroke.rs:433-434 | the join normal is perpendicular to the tangent |
| Stroke.TangentsReverse | flatten/src/stroke.rs:231-271 | the tangents of a reversed segment are the original ones, exchanged and negated |
| Stroke.PathSegTangents | flatten/src/stroke.rs:231-271 | definition of `pathseg_tangents` (no contract of its own): a line's chord, and for curves the first nonzero of the control offsets, then the derivative at 1e-6, then the chord; properties in Stroke.TangentsReverse and Stroke.CubicStartTangent |
| Stroke.CubicStartTangent | flatten/src/stroke.rs:245-269 | a cubic's start tangent is `p1 - p0` when that is longer than `1e-6`; otherwise it is `p2 - p0` or, failing that, the chord |
| Stroke.RaiseSameCurve | flatten/src/stroke.rs:326-334 | raising a quadratic to a cubic keeps its ends and gives the same point at every `t` |
| Stroke.Raise | flatten/src/stroke.rs:331 | kurbo's `QuadBez::raise`: the cubic starts at `q0` and ends at `q2`; Stroke.RaiseSameCurve proves it is the same curve |
| Stroke.SquareCorners | flatten/src/stroke.rs:376-381 | the square cap's corners lie at `c + n + perp(n)` and `c - n + perp(n)`, and it returns to `c - n` |
| Stroke.CapShape | flatten/src/stroke.rs:392-398 | a cap is a run from the cursor to `center - norm`, of the backend's kind; a butt cap is one line and a square cap three |
| Stroke.RoundJoinTo | flatten/src/stroke.rs:363-374 | a round join lowers one arc from the cursor to `center - norm`, turning by `-angle`, and moves the cursor to its end |
| Stroke.RoundCapTo | flatten/src/stroke.rs:359-361 | a round cap is a round join through a half turn |
| Stroke.SquareCapTo | flatten/src/stroke.rs:376-381 | a square cap is three `line_to` calls, ending at `center - norm` |
| Stroke.MiterOnBothEdges | flatten/src/stroke.rs:459-471 | for non-parallel tangents, the miter point lies on the forward edge through the previous cursor along `ab` and on the edge through `p0 - norm` along `cd` |
| Stroke.JoinAddedShape | flatten/src/stroke.rs:436-489 | an elided join adds nothing. Otherwise each side gets a run to `p0 ∓ norm`, and a bevel is one line per side. A miter inserts its point on the forward side iff it fits the limit and `cross > 0`, and on the backward side iff it fits and `cross < 0` |
| Stroke.FinishRunShape | flatten/src/stroke.rs:385-416 | on nonempty chained sides `finish` appends one run: the forward side, the end cap, the backward side reversed, and the start cap, from the forward start to `start_pt - start_norm` |
| Stroke.ClosedRunShape | flatten/src/stroke.rs:419-430 | `finish_closed` appends the forward side with its closing join, then the reversed backward side with its join, each a chained run. Which of these are closed loops is stated by StrokeShape.ElRunsLoop |
| Stroke.JoinStepValid | flatten/src/stroke.rs:432-489 | a join only appends and keeps the sides valid. On nonempty sides it keeps the recorded start. A join that is not elided grows both sides and leaves the cursors at `p0 ∓ norm` |
| Stroke.JoinStep | flatten/src/stroke.rs:432-489 | definition of `do_join` on the sides (no contract of its own); Stroke.JoinStepValid and Stroke.JoinAddedShape state what it appends, and StrokeShape.JoinFrom where the sides then begin |
| Stroke.LineStepValid | flatten/src/stroke.rs:491-497 | `do_line` keeps the sides valid, appends exactly one primitive to each side, and leaves the cursors at `p1 ∓` its normal |
| Stroke.CubicStepValid | flatten/src/stroke.rs:548-551 | lowering Euler segments keeps the sides valid and only appends; each segment adds to both sides, and the cursors end at the last segment's two offset ends |
| Stroke.ChordRef | flatten/src/stroke.rs:505-517 | the reference direction is the chord `p3 - p0` or one of the arms `p1 - p0`, `p3 - p2`, and it is at least as long as each of the three |
| Stroke.LinearTestFields | flatten/src/stroke.rs:519-542 | a passing linear test passes the collinearity bound and records the projections of the control points |
| Stroke.NearLinePositive | flatten/src/stroke.rs:519-542 | a reference direction that passes the test is not zero |
| Stroke.LinearMapInverse | flatten/src/stroke.rs:519-542 | when the test passes, the reference direction is not zero and the projections are the control points'. The map back is a right inverse of the projection, and it sends the mean of the projected ends to the chord's midpoint |
| Stroke.LinearTest | flatten/src/stroke.rs:505-542 | definition of the linear test at the start of `do_cubic` (no contract of its own): the projections onto the chord reference and the distance bound; properties in Stroke.LinearTestFields, Stroke.NearLinePositive and Stroke.LinearMapInverse |
| Stroke.CuspFilter | flatten/src/stroke.rs:579-581 | every kept root lies in `(1e-6, 1 - 1e-6)` |
| Stroke.CuspFilterMembers | flatten/src/stroke.rs:579-581 | every kept value is a root, and every root in the interval is kept |
| Stroke.CuspCoeffsAreDerivative | flatten/src/stroke.rs:574-577 | the power-basis coefficients give the derivative of the projected Bernstein cubic at every `t` |
| Stroke.CuspsAreStationary | flatten/src/stroke.rs:574-581 | with a lawful root finder every cusp parameter lies in `(0, 1)` and the projected cubic's derivative vanishes there |
| Stroke.CuspPointOnCurve | flatten/src/stroke.rs:582-584 | the vertex at a cusp projects onto the reference direction exactly as the cubic's point at that `t` does |
| Stroke.WalkStepValid | flatten/src/stroke.rs:585-594 | a vertex only appends and keeps the sides valid. It adds at least one primitive to each side, and keeps the recorded start once the sides are nonempty |
| Stroke.LinearWalkValid | flatten/src/stroke.rs:580-594 | the polyline walk only appends and keeps the sides valid; it adds at least one primitive per vertex to each side, and ends at the last vertex |
| Stroke.LinearSidesValid | flatten/src/stroke.rs:560-596 | `do_linear` keeps the sides valid and only appends. Each side gets at least one primitive per cusp plus one for the end |
| Stroke.OpenFinishValid | flatten/src/stroke.rs:385-416 | `finish` adds nothing iff the forward side is empty. Otherwise it adds one run of the backend's kind from the forward start to the end of the start cap. The sides are left empty |
| Stroke.OpenFinish | flatten/src/stroke.rs:385-416 | definition of `finish` (no contract of its own); Stroke.OpenFinishValid, Stroke.FinishRunShape and StrokeShape.FinishLoop state its run and where it closes |
| Stroke.ClosedFinishValid | flatten/src/stroke.rs:419-430 | `finish_closed` adds nothing iff the sides are empty, and leaves them empty and valid. Otherwise it adds the forward side with the closing join, a run from the forward start to the forward cursor, and then the reversed backward side with its join, a run from the backward cursor back to the backward start. Unless the closing join is elided, the cursors are `p0 ∓ norm(start_tan)` |
| Stroke.ClosedFinish | flatten/src/stroke.rs:419-430 | definition of `finish_closed` (no contract of its own); Stroke.ClosedFinishValid and StrokeShape.ElRunsLoop state its two runs and when they close |
| Stroke.PushReversed | flatten/src/stroke.rs:399-401 | the output gains the backward primitives reversed, last first |
| Stroke.CapTo | flatten/src/stroke.rs:403-412 | the start cap: butt, round or square from the cursor to `start_pt - start_norm` |
| Stroke.LinearWalkSnocRoot | flatten/src/stroke.rs:580-590 | one more root adds one vertex when it lies inside the interval, and nothing otherwise |
| Stroke.ElStepValid | flatten/src/stroke.rs:310-355 | every path element keeps the stroker state valid |
| Stroke.ElStep | flatten/src/stroke.rs:310-355 | definition of one turn of the element loop of `stroke_undashed` (no contract of its own); Stroke.ElStepValid, StrokeShape.ElRunsOut and StrokeShape.ElRunsLoop are about it, and Stroke.StrokeCtx.StrokeEl is proved against it |
| Stroke.StrokeFold | flatten/src/stroke.rs:310-355 | definition of the element loop (no contract of its own): `ElStep` over the elements in order; StrokeShape.RunsFoldOut splits its output into runs |
| Stroke.StrokeOutput | flatten/src/stroke.rs:293-357 | definition of `stroke_undashed`'s result (no contract of its own): the element loop followed by the last `finish`; Stroke.StrokeUndashed is proved against it, and Stroke.StrokeOutputBuiltBy and StrokeShape.StrokeOutputRuns are about it |
| Stroke.StrokeOutputBuiltBy | flatten/src/stroke.rs:293-357 | the outline consists only of primitives of the backend's kind |
| Stroke.StrokeFoldIdle | flatten/src/stroke.rs:313-317 | `MoveTo` and `ClosePath` on an idle state leave it idle |
| Stroke.StrokeOutputNoDrawing | flatten/src/stroke.rs:310-355 | a path of only `MoveTo` and `ClosePath` strokes to nothing |
| Stroke.LineStrokeIsRectangle | flatten/src/stroke.rs:293-357 | an open one-line subpath from `p` to `q` with butt caps strokes to the rectangle `p - n`, `q - n`, `q + n`, `p + n`, closed back to `p - n` |
| Stroke.LineFromStart | flatten/src/stroke.rs:318-325 | a subpath's first line puts one line on each side, half a width either way, and records its normal and direction as the start |
| Stroke.RectangleFinish | flatten/src/stroke.rs:385-416 | `finish` on one line's sides with butt caps gives the forward line, the cap across, the backward line reversed and the start cap |
| Stroke.StrokeCtx.constructor | flatten/src/stroke.rs:298-309 | all three paths are empty, all points and vectors are zero, and `join_thresh = 2 · tolerance / width` |
| Stroke.StrokeCtx.DoJoin | flatten/src/stroke.rs:432-489 | the new sides are `JoinStep` of the old ones; `start_pt`, `last_pt` and `last_tan` are unchanged |
| Stroke.StrokeCtx.JoinSides | flatten/src/stroke.rs:441-489 | each side gains `JoinAdded`'s primitives; an elided join leaves the cursors, otherwise they become `p0 ∓ norm` |
| Stroke.StrokeCtx.MiterSides | flatten/src/stroke.rs:454-475 | the miter branch adds `JoinAdded`'s primitives and leaves the cursors at `p0 ∓ norm` |
| Stroke.StrokeCtx.DoLine | flatten/src/stroke.rs:491-497 | the new sides are `LineStep` of the old ones, and `last_pt := p1` |
| Stroke.StrokeCtx.DoLinear | flatten/src/stroke.rs:560-596 | the new sides and `last_tan` are `LinearSides` of the old ones; `last_pt := c.p3`, the end of the walk |
| Stroke.StrokeCtx.Vertex | flatten/src/stroke.rs:585-588 | the new sides, `last_pt` and `last_tan` are `WalkStep` of the old ones, with `last_pt == p` |
| Stroke.StrokeCtx.DoCubic | flatten/src/stroke.rs:499-553 | the new sides and `last_tan` are `CubicSides` of the old ones, and `last_pt := c.p3`. A cubic that passes the linear test lowers no Euler segments and reports success. Otherwise success is `LowerCubic`'s `complete`, and then the segments satisfy `CurveSegsOk`: nonempty, chained from `c.p0` to `c.p3`, and each a tested piece the f64 iterator emitted at the stroker's tolerance |
| Stroke.StrokeCtx.LowerCubic | flatten/src/stroke.rs:545-552 | the new sides are `CubicStep` over the lowered segments, and `last_pt := c.p3`. Every lowered segment is a tested piece of `c` (`TestedPieces` with the parameters `ts` and derivatives `qs` the iterator carried): it runs between the cubic's points at its two parameters, passed `err · chord <= tolerance` on `from_points_derivs` of that piece, and carries `from_angles` of its angles with `k0 = th0 + th1`. When `complete`, the segments are nonempty, chain from `c.p0` to `c.p3`, and the last ends at parameter 1. An incomplete run is not characterised further |
| Stroke.CurveSegsTested | flatten/src/stroke.rs:545-551 | every Euler segment of a curve lowered without fault has `k0 = th0 + th1`, is `from_angles` of its angles, and passed `err · chord <= tolerance` on `from_points_derivs` over the parameters and derivatives it returns |
| Stroke.StrokeCtx.StepSeg | flatten/src/stroke.rs:548-551 | one more segment extends `CubicStep` by that segment |
| Stroke.StrokeCtx.LowerSeg | flatten/src/stroke.rs:549-550 | the segment is lowered onto the forward side at `-w/2` and onto the backward side at `+w/2` |
| Stroke.StrokeCtx.Finish | flatten/src/stroke.rs:385-416 | the output gains `OpenFinish`'s primitives and the sides become its new sides; the output cursor stays when the forward side was empty, and is `start_pt - start_norm` otherwise |
| Stroke.StrokeCtx.FinishRunTo | flatten/src/stroke.rs:390-412 | the output gains `FinishRun`: forward side, end cap, reversed backward side, start cap; its cursor ends at `start_pt - start_norm` |
| Stroke.StrokeCtx.FinishBody | flatten/src/stroke.rs:390-401 | the output gains the forward side, the end cap and the reversed backward side, and its cursor is the last end point |
| Stroke.StrokeCtx.EndCapTo | flatten/src/stroke.rs:392-398 | the output gains the end cap around `last_pt`, and its cursor becomes the backward cursor |
| Stroke.StrokeCtx.FinishClosed | flatten/src/stroke.rs:419-430 | the output gains `ClosedFinish`'s primitives and the sides become its new sides; the output cursor and the context's points are unchanged |
| Stroke.StrokeCtx.MoveToEl | flatten/src/stroke.rs:313-317 | the state becomes `ElStep` of `MoveTo(p)` |
| Stroke.StrokeCtx.LineToEl | flatten/src/stroke.rs:318-325 | the state becomes `LineEl` of `p1`: nothing for a line to the current point, otherwise a join and a line |
| Stroke.StrokeCtx.CurveToEl | flatten/src/stroke.rs:326-343 | the state becomes `CurveEl` of the (raised) cubic. A cubic through the linear test lowers no Euler segments. On success the segments of a curved cubic satisfy `CurveSegsOk`: nonempty, chained from its start to its end, and each a tested piece the iterator emitted |
| Stroke.StrokeCtx.ClosePathEl | flatten/src/stroke.rs:344-352 | the state becomes `ElStep` of `ClosePath`: a closing line only when `last_pt != start_pt`, then `finish_closed` |
| Stroke.StrokeCtx.StrokeEl | flatten/src/stroke.rs:310-355 | the state becomes `ElStep` of the element. On success its segments satisfy `ElSegsOk`: none for lines, moves, closes, degenerate curves and curves through the linear test, and otherwise a nonempty chain of tested pieces from the old `last_pt` to the curve's end. Only a quadratic or cubic can fail |
| Stroke.StrokeUndashed | flatten/src/stroke.rs:293-357 | `None` means the loop stopped at the element after the last one whose segments are returned, and that element is a quadratic or cubic whose lowering did not complete; every earlier element's segments satisfy `ElSegsOk`. `Some(out)` gives the segments of every element, each with `ElSegsOk` from the point the fold has reached, so every curve's segments are tested pieces of that curve; `out` is `StrokeOutput` of those segments (the fold of `ElStep` followed by the last `finish`), and consists only of primitives of the backend's kind |
| StrokeShape.ElRunsOut | flatten/src/stroke.rs:310-355 | each element appends its runs to the output and changes nothing already there; every run is nonempty, chained and of the backend's kind; a `MoveTo` adds at most one run, a `ClosePath` none or two, and a drawing element none |
| StrokeShape.RunsFoldOut | flatten/src/stroke.rs:310-354 | after any prefix of the elements the state is valid and the output is the concatenation of the elements' runs, each nonempty, chained and of the backend's kind |
| StrokeShape.StrokeOutputRuns | flatten/src/stroke.rs:293-357 | the whole outline is the concatenation of `StrokeRuns`: one run per `finish` of a nonempty open subpath, two per nonempty closed subpath, each nonempty, chained and of the backend's kind |
| StrokeShape.JoinFrom | flatten/src/stroke.rs:432-489 | a join on sides that begin at `P` leaves them beginning at `P`; the first join of a subpath at `P` leaves the cursors at `P ∓ norm(tan)`, with `start_norm` that normal |
| StrokeShape.LineFrom | flatten/src/stroke.rs:491-497 | a line on primed sides, or on sides that begin at `P`, leaves sides that begin at `P`: the forward side at `P - start_norm`, the backward side at `P + start_norm` |
| StrokeShape.WalkFrom | flatten/src/stroke.rs:585-594 | a vertex of the near-linear walk, from `P` on empty sides or on sides that begin at `P`, leaves sides that begin at `P` |
| StrokeShape.LinearWalkFrom | flatten/src/stroke.rs:580-594 | the whole near-linear walk keeps the sides beginning at `P` |
| StrokeShape.LinearSidesFrom | flatten/src/stroke.rs:560-596 | `do_linear` keeps the sides beginning at `P` |
| StrokeShape.LineElAnchored | flatten/src/stroke.rs:318-325 | a `LineTo` keeps the state anchored at its subpath's start |
| StrokeShape.CurveElAnchored | flatten/src/stroke.rs:326-343 | a curve (its join, then `do_linear` or the Euler segments, which only append to sides that begin at the start point) keeps the state anchored unless it is the first drawing of its subpath and goes through Euler segments |
| StrokeShape.ElStepAnchored | flatten/src/stroke.rs:310-355 | every element keeps the state anchored (sides empty with `last_pt = start_pt`, or sides beginning at `start_pt ∓ start_norm`), except a curve drawn first in its subpath through Euler segments |
| StrokeShape.FinishLoop | flatten/src/stroke.rs:385-416 | `finish` on an anchored nonempty subpath gives a run that ends where it starts |
| StrokeShape.ElRunsLoop | flatten/src/stroke.rs:419-430 | in an anchored state the runs an element adds end where they start: the `finish` run of a `MoveTo`, and both runs of a `ClosePath` whose closing join is drawn |
| StrokeShape.RunsFoldLoop | flatten/src/stroke.rs:310-354 | when every element is `Closable` (not a curve drawn first in its subpath through Euler segments, and no elided closing join), every run of the elements ends where it starts, and the state stays anchored |
| StrokeShape.StrokeRunsLoop | flatten/src/stroke.rs:293-357 | under the same condition every run of the whole outline, the final `finish` included, ends where it starts |
| StrokeShape.PolylineRunsLoop | flatten/src/stroke.rs:293-357 | a path of moves, lines and closes whose closing joins are drawn strokes to closed runs only |
| Svg.Span | flatten/src/svg.rs:49-84 | the end `r` of a run from `i`, with `i <= r <= len`: every character in `[i, r)` satisfies the predicate, and the one at `r`, if any, fails it |
| Svg.ScanNum | flatten/src/svg.rs:49-84 | for nonempty input `scan_num` returns `NumLen` |
| Svg.SpanUnique | flatten/src/svg.rs:49-84 | a run that ends where the predicate first fails is the one `Span` finds |
| Svg.NumLenLongest | flatten/src/svg.rs:49-84 | `scan_num`'s prefix is in the number language, and no longer prefix is; an exponent letter is taken even when no digit follows |
| Svg.IdentLen | flatten/src/svg.rs:86-101 | the length is at least 1, and for nonempty input at most `len`: the first character, then the longest run of `[_0-9a-zA-Z]` |
| Svg.ScanIdent | flatten/src/svg.rs:86-101 | `scan_ident` returns `IdentLen` |
| Svg.SkipSpaces | flatten/src/svg.rs:134-138 | the remaining input is a suffix that does not start with `' '`, with only `' '` before it |
| Svg.LexToken | flatten/src/svg.rs:106-126 | no token exactly on empty input. What is left is a suffix of the input, and strictly shorter after a token |
| Svg.Lex | flatten/src/svg.rs:106-126 | `next` skips the leading spaces and takes one token; what is left is a suffix, strictly shorter after a token |
| Svg.Lexer.Peek | flatten/src/svg.rs:130-132 | `peek` is the first remaining character, none at the end |
| Svg.Lexer.SkipWhitespace | flatten/src/svg.rs:134-138 | the remaining input loses its leading `' '` characters and nothing else |
| Svg.Lexer.Next | flatten/src/svg.rs:106-126 | the token and the remaining input are `Lex` of the old input |
| Svg.Lexer.NextToken | flatten/src/svg.rs:107-125 | after the spaces, the token and the remaining input are `LexToken` of the old input |
| Svg.LexSkipsSpace | flatten/src/svg.rs:106-107 | leading spaces do not change the lexer's result |
| Svg.LexEnd | flatten/src/svg.rs:106-126 | the lexer yields no token exactly on input made of spaces |
| Svg.LexIdent | flatten/src/svg.rs:115-120 | an identifier starts with a character in `a-z` or `'A'..='z'` (which admits `[ \ ] ^ _` and backtick), runs over `[_0-9a-zA-Z]*`, and the lexer continues right after it |
| Svg.LexPlusPanics | flatten/src/svg.rs:109-113 | a token starting with `+` hands the empty text to the number parser, so the lexer panics |
| Svg.LexNumber | flatten/src/svg.rs:109-113 | a number token is the parse of the longest prefix in `scan_num`'s language, and the lexer continues right after it |
| Svg.ScaleStep | flatten/src/svg.rs:144-172 | one turn of the loop takes a token, then for `scale` or `matrix` the call after it; going on always means input was consumed |
| Svg.CallStep | flatten/src/svg.rs:147-168 | after `( n` the scale is multiplied by `n`; a `scale` call goes on only past a `)` right after `n`, and a `matrix` call skips to the next `)` |
| Svg.SkipPastClose | flatten/src/svg.rs:161-165 | the input after the next `)` (empty when there is none), or a panic of the lexer |
| Svg.GetTransformScale | flatten/src/svg.rs:142-174 | the loop returns `TransformScale` of the attribute; a panic of the lexer is `None` |
| Svg.Step | flatten/src/svg.rs:144-172 | one turn of the loop on the lexer: whether it stops, its result and the new scale and input are `ScaleStep`'s |
| Svg.ScaleArgs | flatten/src/svg.rs:147-156 | the `scale` branch on the lexer does what `CallStep` does for a `scale` call |
| Svg.MatrixArgs | flatten/src/svg.rs:157-168 | the `matrix` branch on the lexer does what `CallStep` does for a `matrix` call |
| Svg.SkipToClose | flatten/src/svg.rs:161-165 | the skip to `)` leaves the input `SkipPastClose` gives, or reports the lexer's panic |
| Svg.ScaleFromTokens | flatten/src/svg.rs:142-174 | when the whole attribute lexes, the scale is the reading of its token stream |
| Svg.TokScaleCall | flatten/src/svg.rs:147-168 | a call with an argument (exactly one for `scale`) multiplies the scale by its first argument, and reading goes on after it |
| Svg.TransformProduct | flatten/src/svg.rs:142-174 | for calls that each have an argument (and `scale` calls exactly one) the scale is the product of the first arguments of the `scale` and `matrix` calls; other transforms contribute nothing |
| Svg.TwoArgScaleStops | flatten/src/svg.rs:147-156 | `scale(n, …)` multiplies by `n` and stops reading: everything after the comma is ignored |
| Svg.TransformScaleOfCalls | flatten/src/svg.rs:142-174 | the attribute text of a uniform transform list scales by the product of the list's factors |
| Svg.SvgScene.ParseRec | flatten/src/svg.rs:176-217 | `paths` gains exactly what the walk `ParseNode` pushes, and the status is the walk's |
| Svg.SvgScene.ParseChildrenOf | flatten/src/svg.rs:178-187 | `paths` gains what the walk of the children pushes, stopping at the first child whose walk is not `Ok` |
| Svg.SvgScene.Expand | flatten/src/svg.rs:220-225 | `None` means the walk stopped at the path after those whose segments are returned, and that path has a quadratic or cubic, the only elements whose stroking can fault; otherwise one outline per styled path, in order, each `StrokedWith` the path, its style and `tolerance / scale`, as `StrokeUndashed` states, and of the backend's kind |
| Svg.Load | flatten/src/svg.rs:29-37 | a fresh scene holding what the walk of the root's children at scale 1 pushes; `Ok` iff every child is accepted, and then every element reached was pushed in document order |
| Svg.StyleOfAttrs | flatten/src/svg.rs:195-212 | the width is 4.0 when absent and 1.0 when unparsable. Caps are round or square iff written so, butt otherwise. The join is round or bevel iff written so, miter otherwise. The miter limit is 4.0 |
| Svg.ParseNodeOk | flatten/src/svg.rs:176-217 | a walk ends `Ok` iff the node is accepted: a `g` with a readable transform and accepted children, a `path` with a readable `d`, or any other tag (skipped with its children). It then pushes every path reached, in document order, with its style |
| Svg.ParseChildrenOk | flatten/src/svg.rs:178-187 | the loop over the children ends `Ok` iff every child from the `i`-th on is accepted, and then it pushes the paths they reach |
| Svg.ParseNodeLinear | flatten/src/svg.rs:178-187 | starting a walk from `k` times the scale multiplies the scale of every pushed path by `k` and changes nothing else, so a `g` multiplies its children's scale |
| Svg.ParseNode | flatten/src/svg.rs:176-217 | definition of `parse_rec` of one node (no contract of its own): `g` multiplies the scale, `path` pushes the styled path, other elements are passed over; Svg.ParseNodeOk, Svg.ParseNodeLinear and Svg.SvgScene.ParseRec are about it |
| ToRvg.CoordsCount | flatten/src/to_rvg.rs:25-35 | `M`, `L`, `Q`, `C` and `Z` carry 2, 2, 4, 6 and 0 coordinates |
| ToRvg.ToRvgPath | flatten/src/to_rvg.rs:21-39 | the loop's string is `RvgPath` of the elements |
| ToRvg.FieldsConcat | flatten/src/to_rvg.rs:25-35 | the fields of two runs of numbers are the fields of each, one after the other |
| ToRvg.RvgPathAppend | flatten/src/to_rvg.rs:21-39 | the empty path gives `""`, and the text of `a + b` is the text of `a` followed by the text of `b` |
| ToRvg.RvgEndsWithComma | flatten/src/to_rvg.rs:25-35 | every element's text ends with `','`, and so does any nonempty path's |
| ToRvg.SplitFieldsAppend | flatten/src/to_rvg.rs:25-35 | splitting the fields of formatted numbers at commas gives back the numbers, followed by whatever came after |
| ToRvg.RvgRoundTrip | flatten/src/to_rvg.rs:21-39 | when no formatted number contains a comma, splitting the text at its commas gives back, element by element, the tag and then the formatted coordinates |
| ToRvg.RvgHead | flatten/src/to_rvg.rs:21-39 | a path's text is its first element's tag, a comma, that element's fields, then the text of the rest |
| ToRvg.RvgElFields | flatten/src/to_rvg.rs:25-35 | an element's text is its tag, a comma, and the fields of its coordinates in order |
| ToRvg.AffineSuffix | flatten/src/to_rvg.rs:57-61 | the suffix is empty iff `scale == 1.0` |

## Left out

- Floating point. `f64` and `f32` are exact reals. Rounding, `-0.0` (so
  `copysign` of a negative zero), NaN, infinities and the difference between
  the f32 and f64 twins' precision are not modelled. A division by zero gives
  0 (`Numeric.Div`), for example `tolerance / scale` in `expand` when the
  scale is 0.
- The transcendental functions (`sin`, `cos`, `atan2`, `hypot`, `sqrt`,
  `cbrt`, `asin`, `ln`, `powf`) and kurbo's `solve_quadratic` are
  uninterpreted. No numerical accuracy is claimed: not that `est_euler_err`
  bounds the fitting error, not that flattened points lie within the
  tolerance, and not the convergence of `from_angles`, `espc_integral_inv` or
  the `integ_euler` series.
- EulerIter.CubicToEulerIter.Next: the source's inner loop has no bound (it
  loops until the error test accepts). The model takes a `fuel` count and
  reports `OutOfFuel` when it runs out. The counter overflowing its `u64` or
  `u32` is reported as `Overflow`, where the source would panic in a debug
  build or wrap in a release build.
- Stroke.StrokeUndashed: where the source panics (a diverging f64 fit at
  euler.rs:136, a counter overflow) the model returns `None` and stops at
  that element; running out of the iterator's `fuel` also returns `None`,
  where the source would loop on. The contract does not say why an element
  failed: only that it is a quadratic or cubic whose lowering did not
  complete.
- Svg.SvgScene.Expand: returns `None` when stroking any path returns
  `None`, where the source panics. The contract names the path that failed
  and that it has a curve, not why its stroking failed.
- StrokeShape.StrokeRunsLoop: two cases where the source itself does not
  close a run exactly are excluded by its condition. (1) A subpath whose
  first drawing is a curve lowered through Euler segments: its sides begin
  at `eval_with_offset(0, ∓w/2)` of the first segment (stroke.rs:105-107,
  196-200), not at `start_pt ∓ start_norm`. The two agree only through
  trigonometric identities and the fit's tangent accuracy, which the
  uninterpreted mathematics does not carry. (2) A closing join elided as
  nearly straight (stroke.rs:423, `do_join`'s threshold): the gap is bounded
  by the tolerance by design, which is not proved. Between runs the outline
  is not contiguous: each run starts where its subpath's sides start.
- Flatten.NSubdivAnalyticArcNonNeg: states only non-negativity for an arc
  (`k1 = 0`). Relating the arc case, or the case below the thresholds, to the
  flattener's count would need `sqrt(x · y) = sqrt(x) · sqrt(y)`, which the
  uninterpreted `sqrt` does not carry; the normal regime is related by
  Flatten.NSubdivAnalyticMatchesPlan.
- The `Lowering::to_bez` methods and `LoweredPath::to_bez` (stroke.rs:25,
  66-72, 86-95, 151-166) build a kurbo `BezPath` for display. They are not
  modelled; `to_svg` is modelled as a sequence of commands
  (`Lowering.LoweredPath.ToSvg`) rather than a formatted string.
- `n_subdiv_approx` (flatten.rs:154-164, flatten32.rs:151-161) is not called
  by the kernel and is not modelled. `est_flatten_err`,
  `exact_flatten_err`, `numeric_flatten_err`, `cubic_euler_err`,
  `EulerSeg::to_cubic`/`from_cubic` and the `from_f64` conversions are not
  part of this model.
- kurbo's `Affine`, `BezPath::from_svg` (a parameter), `Arc::from_svg_arc`
  and `append_iter` are not modelled. roxmltree's `Document::parse` and its
  errors are not modelled either: the document is given as a `Node` tree.
- Svg.LexNumber: `f64::from_str` is a parameter that is only assumed to
  reject the empty text. The numbers it accepts are not modelled.
- Svg.GetTransformScale: the panic of `unwrap` on an unparsable number is
  the result `None`, and in `parse_rec` the status `Panic`.
- The SVG text is a sequence of characters, not UTF-8 bytes; `scan_num` and
  `scan_ident` look at ASCII characters only, so the results agree.
- I/O and printing: `svg_main`, `stroke_main`, `to_rvg_main` and
  `SvgScene::to_svg`'s file writing are not modelled. The `println!` tracing
  in `espc_integral_inv` and in the f32 `CubicToEulerIter::next` is also left
  out. In `to_rvg.rs` only the element rendering and the affine suffix are
  modelled; `Display` of numbers is a parameter.
- Flatten.EspcIntInvApprox: the breakpoints and polynomial coefficients are
  the source's constants; nothing is claimed about how well they approximate
  the inverse.
- EulerIter.FitAngles: the f64 fit's residual test is stated on the
  uninterpreted mathematics; whether ten secant rounds suffice is not
  claimed.

## Findings

| source | as written | input that shows it | evidently intended | confidence | as-written member | corrected member |
|---|---|---|---|---|---|---|
| flatten/src/euler.rs:411 (also flatten/src/euler32.rs:242) | `self.dt *= (1 << shift) as f64`: the literal `1` is an `i32`, so `1 << 31` is `-2^31` and a shift of 32 or more overflows | accepting the last piece at depth 31 (`t0 = 2^31 - 1`, `dt = 2^-31`): `t0 + 1` has 31 trailing zeros, so `dt` becomes `2^-31 · -2^31 = -1` and the start `t0 · dt` becomes -1, not 1, so the end test `t0 == 1.0` is missed | `dt *= 2^shift` (for example `(1u64 << shift) as f64`), which makes `dt = 1` and the start 1, ending the iteration | not executed | EulerIter.AsWrittenDtFactorAtDepth31 | EulerIter.AcceptLastPiece |
