/**
 * The stroker (stroke.rs): a path of lines and curves is expanded into the
 * outline of its stroke. Each subpath is walked once, building a forward
 * side (offset by -w/2 along the normal) and a backward side (offset by
 * +w/2); joins go between consecutive segments, and at the end of a
 * subpath the forward side, the end cap, the backward side reversed and the
 * start cap go to the output (or, for a closed subpath, a closing join and
 * the two sides).
 */
module Stroke {
  import opened Numeric
  import opened Geom
  import opened Euler
  import opened ArcSegments
  import opened EulerIter
  import opened Lowering

  /** kurbo's `Join`. */
  datatype Join = BevelJoin | MiterJoin | RoundJoin

  /** kurbo's `Cap`. */
  datatype Cap = ButtCap | SquareCap | RoundCap

  /** The fields of kurbo's `Stroke` the stroker reads (dashes are not
      handled by `stroke_undashed`). */
  datatype Style = Style(width: real, join: Join, miterLimit: real, startCap: Cap, endCap: Cap)

  /** `Stroke::new(width).with_join(Join::Round)`: kurbo's defaults are a
      miter limit of 4 and round caps. */
  function RoundStyle(width: real): (r: Style)
  {
    Style(width, RoundJoin, 4.0, RoundCap, RoundCap)
  }

  /** The normal of half the stroke width for the tangent `tan`: the tangent
      turned a quarter to the left, scaled to w / 2. */
  function Norm(m: MathLib, width: real, tan: Point): (r: Point)
  {
    var scale := Div(0.5 * width, Hypot(m, tan));
    Point(scale * -tan.y, scale * tan.x)
  }

  /** The normal is perpendicular to the tangent. */
  lemma NormPerpendicular(m: MathLib, width: real, tan: Point)
    ensures Dot(Norm(m, width, tan), tan) == 0.0
  {
    var scale := Div(0.5 * width, Hypot(m, tan));
    assert Dot(Norm(m, width, tan), tan) == scale * (-tan.y * tan.x + tan.x * tan.y);
  }

  // ---------------------------------------------------------------------
  // `pathseg_tangents`

  /** kurbo's `PathSeg`. */
  datatype PathSeg = SegLine(p0: Point, p1: Point) | SegQuad(q0: Point, q1: Point, q2: Point) | SegCubic(c: Cubic)

  /** Squared lengths up to this count as zero. */
  const TAN_EPS: real := 1e-12

  /** The first of the arms whose squared length exceeds 1e-12, or `last`. */
  function FirstArm(a: Point, b: Point, last: Point): (r: Point)
  {
    if Hypot2(a) > TAN_EPS then a else if Hypot2(b) > TAN_EPS then b else last
  }

  /** `pathseg_tangents`: the start and end tangents. A line has its
      direction at both ends; a quadratic or cubic uses its first (last)
      control arm, falling back to the next arm when it is shorter than
      1e-6, and finally to the chord. */
  function PathSegTangents(seg: PathSeg): (r: (Point, Point))
  {
    match seg
    case SegLine(p0, p1) => (Sub(p1, p0), Sub(p1, p0))
    case SegQuad(q0, q1, q2) =>
      (FirstArm(Sub(q1, q0), Sub(q2, q0), Sub(q2, q0)), FirstArm(Sub(q2, q1), Sub(q2, q0), Sub(q2, q0)))
    case SegCubic(c) =>
      (FirstArm(Sub(c.p1, c.p0), Sub(c.p2, c.p0), Sub(c.p3, c.p0)),
       FirstArm(Sub(c.p3, c.p2), Sub(c.p3, c.p1), Sub(c.p3, c.p0)))
  }

  /** The same segment traversed backwards. */
  function ReverseSeg(seg: PathSeg): (r: PathSeg)
  {
    match seg
    case SegLine(p0, p1) => SegLine(p1, p0)
    case SegQuad(q0, q1, q2) => SegQuad(q2, q1, q0)
    case SegCubic(c) => SegCubic(Cubic(c.p3, c.p2, c.p1, c.p0))
  }

  lemma ReverseSub(a: Point, b: Point)
    ensures Sub(b, a) == Neg(Sub(a, b)) && Hypot2(Sub(b, a)) == Hypot2(Sub(a, b))
  {
  }

  /** The tangents do not depend on the direction of travel: those of the
      reversed segment are the original ones negated and exchanged. */
  lemma TangentsReverse(seg: PathSeg)
    ensures PathSegTangents(ReverseSeg(seg)) == (Neg(PathSegTangents(seg).1), Neg(PathSegTangents(seg).0))
  {
    match seg
    case SegLine(p0, p1) =>
      ReverseSub(p1, p0);
    case SegQuad(q0, q1, q2) =>
      ReverseSub(q1, q0);
      ReverseSub(q2, q0);
      ReverseSub(q2, q1);
    case SegCubic(c) =>
      ReverseSub(c.p1, c.p0);
      ReverseSub(c.p2, c.p0);
      ReverseSub(c.p3, c.p0);
      ReverseSub(c.p3, c.p2);
      ReverseSub(c.p3, c.p1);
  }

  /** The start tangent of a cubic is `p1 - p0` whenever that arm is longer
      than 1e-6, and otherwise is the arm to `p2` or the chord. */
  lemma CubicStartTangent(c: Cubic)
    ensures var t := PathSegTangents(SegCubic(c)).0;
      && (Hypot2(Sub(c.p1, c.p0)) > TAN_EPS ==> t == Sub(c.p1, c.p0))
      && (t == Sub(c.p1, c.p0) || t == Sub(c.p2, c.p0) || t == Sub(c.p3, c.p0))
      && (Hypot2(t) > TAN_EPS || t == Sub(c.p3, c.p0))
  {
  }

  /** kurbo's `QuadBez::raise`: the cubic with the same curve. */
  function Raise(q0: Point, q1: Point, q2: Point): (r: Cubic)
    ensures r.p0 == q0 && r.p3 == q2
  {
    Cubic(q0, Add(q0, Scale(Sub(q1, q0), 2.0 / 3.0)), Add(q2, Scale(Sub(q1, q2), 2.0 / 3.0)), q2)
  }

  /** One coordinate of a quadratic Bézier in Bernstein form. */
  function QuadValue(w0: real, w1: real, w2: real, t: real): (r: real)
  {
    var mt := 1.0 - t;
    w0 * (mt * mt) + w1 * (2.0 * mt * t) + w2 * (t * t)
  }

  lemma RaiseCoordinate(w0: real, w1: real, w2: real, t: real)
    ensures BernsteinValue(w0, w0 + (w1 - w0) * (2.0 / 3.0), w2 + (w1 - w2) * (2.0 / 3.0), w2, t) == QuadValue(w0, w1, w2, t)
  {
    var mt := 1.0 - t;
    var a, b := w0 + (w1 - w0) * (2.0 / 3.0), w2 + (w1 - w2) * (2.0 / 3.0);
    assert 3.0 * a == w0 + 2.0 * w1;
    assert 3.0 * b == w2 + 2.0 * w1;
    calc {
      BernsteinValue(w0, a, b, w2, t);
      w0 * (mt * mt * mt) + (a * (3.0 * (mt * mt)) + b * (3.0 * (mt * t)) + w2 * (t * t)) * t;
      w0 * (mt * mt * mt) + ((w0 + 2.0 * w1) * (mt * mt) + (w2 + 2.0 * w1) * (mt * t) + w2 * (t * t)) * t;
      w0 * (mt * mt) * (mt + t) + w1 * (2.0 * mt * t) * (mt + t) + w2 * (t * t) * (mt + t);
      QuadValue(w0, w1, w2, t);
    }
  }

  /** Raising a quadratic keeps its end points and traces the same curve:
      at every t the cubic's point is the quadratic's. */
  lemma RaiseSameCurve(q0: Point, q1: Point, q2: Point, t: real)
    ensures Raise(q0, q1, q2).p0 == q0 && Raise(q0, q1, q2).p3 == q2
    ensures EvalAndDeriv(Raise(q0, q1, q2), t).0 == Point(QuadValue(q0.x, q1.x, q2.x, t), QuadValue(q0.y, q1.y, q2.y, t))
  {
    RaiseCoordinate(q0.x, q1.x, q2.x, t);
    RaiseCoordinate(q0.y, q1.y, q2.y, t);
  }

  // ---------------------------------------------------------------------
  // Caps

  /** kurbo's `Affine::new([n.x, n.y, -n.y, n.x, c.x, c.y])` applied to `p`:
      the frame with first axis `n` and second axis `n` turned a quarter to
      the left, centred at `c`. */
  function CapFrame(center: Point, norm: Point, p: Point): (r: Point)
  {
    Point(norm.x * p.x + -norm.y * p.y + center.x, norm.y * p.x + norm.x * p.y + center.y)
  }

  /** The three points `square_cap` draws lines to. */
  function SquarePoints(center: Point, norm: Point): (r: seq<Point>)
  {
    [CapFrame(center, norm, Point(1.0, 1.0)), CapFrame(center, norm, Point(-1.0, 1.0)), Sub(center, norm)]
  }

  /** `n` turned a quarter to the left. */
  function Perp(n: Point): Point
  {
    Point(-n.y, n.x)
  }

  /** The square cap's corners lie half a width beyond the end, on either
      side: at c + n + perp(n) and at c - n + perp(n); it then returns to
      c - n. */
  lemma SquareCorners(center: Point, norm: Point)
    ensures SquarePoints(center, norm) == [Add(Add(center, norm), Perp(norm)), Add(Sub(center, norm), Perp(norm)), Sub(center, norm)]
  {
  }

  /** What a cap pushes, starting from the cursor `from`: a butt cap is the
      line to `center - norm`; a round cap is the half turn lowered by
      `lower_arc`; a square cap is three lines. Every cap ends at
      `center - norm`. */
  function CapPrims(m: MathLib, b: Backend, cap: Cap, tol: real, from: Point, center: Point, norm: Point): (r: seq<Prim>)
  {
    match cap
    case ButtCap => [MakeLine(b, from, Sub(center, norm))]
    case RoundCap => ArcPrims(m, b, ArcSegment(from, Sub(center, norm), -PI), tol)
    case SquareCap => LinesThrough(b, from, SquarePoints(center, norm))
  }

  /** A cap is a run from the cursor to `center - norm`, of the backend's
      kind: one line for butt, three for square. */
  lemma CapShape(m: MathLib, b: Backend, cap: Cap, tol: real, from: Point, center: Point, norm: Point)
    ensures Runs(CapPrims(m, b, cap, tol, from, center, norm), from, Sub(center, norm))
    ensures AllBuiltBy(CapPrims(m, b, cap, tol, from, center, norm), b)
    ensures cap == ButtCap ==> |CapPrims(m, b, cap, tol, from, center, norm)| == 1
    ensures cap == SquareCap ==> |CapPrims(m, b, cap, tol, from, center, norm)| == 3
  {
    match cap
    case ButtCap =>
    case RoundCap =>
      ArcPrimsShape(m, b, ArcSegment(from, Sub(center, norm), -PI), tol);
    case SquareCap =>
      LinesThroughRuns(b, from, SquarePoints(center, norm));
  }

  /** `round_join`: an arc from the cursor to `center - norm` turning by
      -angle, lowered; the cursor moves to its end. */
  method RoundJoinTo(out: LoweredPath, m: MathLib, tol: real, center: Point, norm: Point, angle: real)
    modifies out
    ensures out.path == old(out.path) + ArcPrims(m, out.backend, ArcSegment(old(out.lastPt), Sub(center, norm), -angle), tol)
    ensures out.lastPt == Sub(center, norm)
  {
    var p1 := Sub(center, norm);
    var arc := ArcSegment(out.lastPt, p1, -angle);
    out.LowerArc(m, arc, tol);
    out.lastPt := p1;
  }

  /** `round_cap`: a round join through a half turn. */
  method RoundCapTo(out: LoweredPath, m: MathLib, tol: real, center: Point, norm: Point)
    modifies out
    ensures out.path == old(out.path) + CapPrims(m, out.backend, RoundCap, tol, old(out.lastPt), center, norm)
    ensures out.lastPt == Sub(center, norm)
  {
    RoundJoinTo(out, m, tol, center, norm, PI);
  }

  /** `square_cap`: three `line_to` calls. */
  method SquareCapTo(out: LoweredPath, center: Point, norm: Point)
    modifies out
    ensures out.path == old(out.path) + LinesThrough(out.backend, old(out.lastPt), SquarePoints(center, norm))
    ensures out.lastPt == Sub(center, norm)
  {
    hide CapFrame;
    ghost var from := out.lastPt;
    ghost var pts := SquarePoints(center, norm);
    out.LineTo(CapFrame(center, norm, Point(1.0, 1.0)));
    out.LineTo(CapFrame(center, norm, Point(-1.0, 1.0)));
    out.LineTo(Sub(center, norm));
    LinesThroughSnoc(out.backend, from, [], pts[0]);
    LinesThroughSnoc(out.backend, from, [pts[0]], pts[1]);
    LinesThroughSnoc(out.backend, from, [pts[0], pts[1]], pts[2]);
    assert [pts[0], pts[1], pts[2]] == pts;
  }

  // ---------------------------------------------------------------------
  // Joins

  /** The join between the previous tangent `ab` and the next one `cd` is
      left out when the turn is small: dot > 0 and |cross| below
      hypot(cross, dot) times the threshold 2 tol / w. */
  predicate JoinElided(m: MathLib, ab: Point, cd: Point, joinThresh: real)
  {
    var cross, dot := Cross(ab, cd), Dot(ab, cd);
    !(dot <= 0.0 || Abs(cross) >= m.hypot(cross, dot) * joinThresh)
  }

  /** The miter limit test: 2 hypot < (hypot + dot) limit^2. */
  predicate MiterFits(m: MathLib, style: Style, ab: Point, cd: Point)
  {
    var cross, dot := Cross(ab, cd), Dot(ab, cd);
    var hypot := m.hypot(cross, dot);
    2.0 * hypot < (hypot + dot) * Powi(style.miterLimit, 2)
  }

  /** The miter point: from the start `fpThis` of the next offset edge, go
      back along `cd` to where the previous offset edge (through `fpLast`,
      direction `ab`) crosses it. */
  function MiterPoint(ab: Point, cd: Point, fpLast: Point, fpThis: Point): (r: Point)
  {
    var h := Div(Cross(ab, Sub(fpThis, fpLast)), Cross(ab, cd));
    Sub(fpThis, Scale(cd, h))
  }

  lemma CrossLinear(a: Point, u: Point, v: Point, h: real)
    ensures Cross(a, Sub(u, Scale(v, h))) == Cross(a, u) - h * Cross(a, v)
    ensures Cross(v, Scale(v, h)) == 0.0
  {
  }

  /** The miter point lies on both offset edges: on the line through
      `fpLast` along `ab` and on the line through `fpThis` along `cd`
      (when the tangents are not parallel). */
  lemma MiterOnBothEdges(ab: Point, cd: Point, fpLast: Point, fpThis: Point)
    requires Cross(ab, cd) != 0.0
    ensures Cross(ab, Sub(MiterPoint(ab, cd, fpLast, fpThis), fpLast)) == 0.0
    ensures Cross(cd, Sub(MiterPoint(ab, cd, fpLast, fpThis), fpThis)) == 0.0
  {
    var x := Cross(ab, cd);
    var d := Sub(fpThis, fpLast);
    var h := Cross(ab, d) / x;
    var mp := MiterPoint(ab, cd, fpLast, fpThis);
    assert mp == Sub(fpThis, Scale(cd, h));
    assert Sub(mp, fpLast) == Sub(d, Scale(cd, h));
    CrossLinear(ab, d, cd, h);
    assert h * x == Cross(ab, d);
    assert Sub(mp, fpThis) == Neg(Scale(cd, h));
    CrossLinear(cd, Origin, cd, h);
  }

  /** What a join pushes onto the forward and the backward side. `p0` is
      the point being joined at, `fLast` and `bLast` the two cursors, `ab`
      the previous tangent and `cd` the next one. An elided join pushes
      nothing; otherwise both sides end at p0 -/+ norm (the normal of `cd`),
      with a bevel line, a miter point and then the bevel line, or the
      round arc on the outer side. */
  function JoinAdded(m: MathLib, b: Backend, style: Style, tol: real, joinThresh: real,
                     ab: Point, cd: Point, p0: Point, fLast: Point, bLast: Point): (r: (seq<Prim>, seq<Prim>))
  {
    var norm := Norm(m, style.width, cd);
    var cross, dot := Cross(ab, cd), Dot(ab, cd);
    var bevel := ([MakeLine(b, fLast, Sub(p0, norm))], [MakeLine(b, bLast, Add(p0, norm))]);
    if JoinElided(m, ab, cd, joinThresh) then ([], [])
    else match style.join
      case BevelJoin => bevel
      case MiterJoin =>
        var lastNorm := Norm(m, style.width, ab);
        if MiterFits(m, style, ab, cd) && cross > 0.0 then
          (LinesThrough(b, fLast, [MiterPoint(ab, cd, Sub(p0, lastNorm), Sub(p0, norm)), Sub(p0, norm)]), bevel.1)
        else if MiterFits(m, style, ab, cd) && cross < 0.0 then
          (bevel.0, LinesThrough(b, bLast, [MiterPoint(ab, cd, Add(p0, lastNorm), Add(p0, norm)), Add(p0, norm)]))
        else bevel
      case RoundJoin =>
        var angle := m.atan2(cross, dot);
        if angle > 0.0 then
          (ArcPrims(m, b, ArcSegment(fLast, Sub(p0, norm), -angle), tol), bevel.1)
        else
          (bevel.0, ArcPrims(m, b, ArcSegment(bLast, Sub(p0, Neg(norm)), -angle), tol))
  }

  /** A join pushes nothing exactly when it is elided. Otherwise each side
      gets a run from its cursor to p0 -/+ norm; a bevel is one line on each
      side; a miter adds its point on the forward side exactly when it fits
      and cross > 0, on the backward side exactly when it fits and
      cross < 0, and at most one line besides. */
  lemma JoinAddedShape(m: MathLib, b: Backend, style: Style, tol: real, joinThresh: real,
                       ab: Point, cd: Point, p0: Point, fLast: Point, bLast: Point)
    ensures var r := JoinAdded(m, b, style, tol, joinThresh, ab, cd, p0, fLast, bLast);
      var norm := Norm(m, style.width, cd);
      && (r.0 == [] <==> JoinElided(m, ab, cd, joinThresh))
      && (r.1 == [] <==> JoinElided(m, ab, cd, joinThresh))
      && (!JoinElided(m, ab, cd, joinThresh) ==>
            Runs(r.0, fLast, Sub(p0, norm)) && Runs(r.1, bLast, Add(p0, norm))
            && AllBuiltBy(r.0, b) && AllBuiltBy(r.1, b))
      && (!JoinElided(m, ab, cd, joinThresh) && style.join == BevelJoin ==> |r.0| == 1 && |r.1| == 1)
      && (!JoinElided(m, ab, cd, joinThresh) && style.join == MiterJoin ==>
            && (|r.0| == 2 <==> MiterFits(m, style, ab, cd) && Cross(ab, cd) > 0.0)
            && (|r.1| == 2 <==> MiterFits(m, style, ab, cd) && Cross(ab, cd) < 0.0)
            && 1 <= |r.0| <= 2 && 1 <= |r.1| <= 2)
  {
    hide ArcPrims, Norm, MiterPoint;
    var norm := Norm(m, style.width, cd);
    var angle := m.atan2(Cross(ab, cd), Dot(ab, cd));
    var lastNorm := Norm(m, style.width, ab);
    if !JoinElided(m, ab, cd, joinThresh) {
      match style.join
      case BevelJoin =>
      case MiterJoin =>
        LinesThroughRuns(b, fLast, [MiterPoint(ab, cd, Sub(p0, lastNorm), Sub(p0, norm)), Sub(p0, norm)]);
        LinesThroughRuns(b, bLast, [MiterPoint(ab, cd, Add(p0, lastNorm), Add(p0, norm)), Add(p0, norm)]);
      case RoundJoin =>
        ArcPrimsShape(m, b, ArcSegment(fLast, Sub(p0, norm), -angle), tol);
        ArcPrimsShape(m, b, ArcSegment(bLast, Sub(p0, Neg(norm)), -angle), tol);
        assert Sub(p0, Neg(norm)) == Add(p0, norm);
    }
  }

  // ---------------------------------------------------------------------
  // End of a subpath

  /** What `finish` appends for an open subpath: the forward side, the end
      cap (from the forward cursor around `lastPt` to the backward cursor),
      the backward side reversed, and the start cap around `startPt`. */
  function FinishRun(m: MathLib, b: Backend, style: Style, tol: real, fwd: seq<Prim>, fLast: Point,
                     bwd: seq<Prim>, bLast: Point, lastPt: Point, startPt: Point, startNorm: Point): (r: seq<Prim>)
  {
    var endCap := CapPrims(m, b, style.endCap, tol, fLast, lastPt, Sub(lastPt, bLast));
    var body := fwd + endCap + ReversedAll(bwd);
    body + CapPrims(m, b, style.startCap, tol, body[|body| - 1].EndPoint(), startPt, startNorm)
  }

  /** For two nonempty chained sides, `finish` appends one run from the
      forward side's start to startPt - startNorm: the forward side
      unchanged, an end cap from the forward cursor to the backward cursor,
      the backward side reversed, and the start cap. */
  lemma FinishRunShape(m: MathLib, b: Backend, style: Style, tol: real, fwd: seq<Prim>, fLast: Point,
                       bwd: seq<Prim>, bLast: Point, lastPt: Point, startPt: Point, startNorm: Point)
    requires fwd != [] && Tracks(fwd, fLast) && AllBuiltBy(fwd, b)
    requires bwd != [] && Tracks(bwd, bLast) && AllBuiltBy(bwd, b)
    ensures var r := FinishRun(m, b, style, tol, fwd, fLast, bwd, bLast, lastPt, startPt, startNorm);
      && Runs(r, fwd[0].StartPoint(), Sub(startPt, startNorm)) && AllBuiltBy(r, b)
      && r[..|fwd|] == fwd
      && Runs(CapPrims(m, b, style.endCap, tol, fLast, lastPt, Sub(lastPt, bLast)), fLast, bLast)
  {
    hide CapPrims, ReversedAll;
    var endCap := CapPrims(m, b, style.endCap, tol, fLast, lastPt, Sub(lastPt, bLast));
    CapShape(m, b, style.endCap, tol, fLast, lastPt, Sub(lastPt, bLast));
    assert Sub(lastPt, Sub(lastPt, bLast)) == bLast;
    var back := ReversedAll(bwd);
    ReversedAllProps(bwd, bwd[0].StartPoint(), bLast, b);
    RunsAppend(fwd, fwd[0].StartPoint(), fLast, endCap, bLast);
    TracksAppend(fwd + endCap, bLast, back, bwd[0].StartPoint(), b);
    var body := fwd + endCap + back;
    var startCap := CapPrims(m, b, style.startCap, tol, body[|body| - 1].EndPoint(), startPt, startNorm);
    CapShape(m, b, style.startCap, tol, body[|body| - 1].EndPoint(), startPt, startNorm);
    TracksAppend(body, body[|body| - 1].EndPoint(), startCap, Sub(startPt, startNorm), b);
    assert body[0] == fwd[0];
    assert (body + startCap)[..|fwd|] == fwd;
  }

  lemma FinishRunUnfold(m: MathLib, b: Backend, style: Style, tol: real, fwd: seq<Prim>, fLast: Point,
                        bwd: seq<Prim>, bLast: Point, lastPt: Point, startPt: Point, startNorm: Point)
    ensures var body := fwd + CapPrims(m, b, style.endCap, tol, fLast, lastPt, Sub(lastPt, bLast)) + ReversedAll(bwd);
      FinishRun(m, b, style, tol, fwd, fLast, bwd, bLast, lastPt, startPt, startNorm)
        == body + CapPrims(m, b, style.startCap, tol, body[|body| - 1].EndPoint(), startPt, startNorm)
  {
    hide CapPrims, ReversedAll;
  }

  /** What `finish_closed` appends: the forward side, then the backward
      side reversed (both already carrying the closing join). */
  function ClosedRun(fwd: seq<Prim>, bwd: seq<Prim>): (r: seq<Prim>)
  {
    fwd + ReversedAll(bwd)
  }

  lemma ClosedRunUnfold(fwd: seq<Prim>, bwd: seq<Prim>)
    ensures ClosedRun(fwd, bwd) == fwd + ReversedAll(bwd)
  {
    hide ReversedAll;
  }

  /** For a closed subpath each of the two halves of `finish_closed`'s
      output is a chained run: the forward side with its closing join, and
      the backward side with its closing join reversed, which runs back to
      the backward side's start. */
  lemma ClosedRunShape(m: MathLib, b: Backend, style: Style, tol: real, joinThresh: real,
                       ab: Point, cd: Point, p0: Point, fwd: seq<Prim>, fLast: Point, bwd: seq<Prim>, bLast: Point)
    requires fwd != [] && Tracks(fwd, fLast) && AllBuiltBy(fwd, b)
    requires bwd != [] && Tracks(bwd, bLast) && AllBuiltBy(bwd, b)
    ensures var added := JoinAdded(m, b, style, tol, joinThresh, ab, cd, p0, fLast, bLast);
      var f, k := fwd + added.0, bwd + added.1;
      && ClosedRun(f, k)[..|f|] == f
      && Runs(f, fwd[0].StartPoint(), f[|f| - 1].EndPoint())
      && Runs(ReversedAll(k), k[|k| - 1].EndPoint(), bwd[0].StartPoint())
      && AllBuiltBy(ClosedRun(f, k), b)
  {
    hide JoinAdded, ReversedAll;
    var added := JoinAdded(m, b, style, tol, joinThresh, ab, cd, p0, fLast, bLast);
    JoinAddedShape(m, b, style, tol, joinThresh, ab, cd, p0, fLast, bLast);
    var norm := Norm(m, style.width, cd);
    var f, k := fwd + added.0, bwd + added.1;
    if added.0 == [] {
      assert f == fwd && k == bwd;
    } else {
      TracksAppend(fwd, fLast, added.0, Sub(p0, norm), b);
      TracksAppend(bwd, bLast, added.1, Add(p0, norm), b);
    }
    assert f[0] == fwd[0] && k[0] == bwd[0];
    ReversedAllProps(k, bwd[0].StartPoint(), k[|k| - 1].EndPoint(), b);
    assert AllBuiltBy(f, b) && AllBuiltBy(ReversedAll(k), b);
    assert forall i :: 0 <= i < |ClosedRun(f, k)| ==> ClosedRun(f, k)[i] == if i < |f| then f[i] else ReversedAll(k)[i - |f|];
  }

  // ---------------------------------------------------------------------
  // The two sides of the subpath being stroked

  /** The primitives and the cursor of `forward_path` and of
      `backward_path`, with the normal and the tangent recorded at the start
      of the subpath. */
  datatype Sides = Sides(fwd: seq<Prim>, fLast: Point, bwd: seq<Prim>, bLast: Point, startNorm: Point, startTan: Point)

  /** Each side is chained and ends at its cursor, both are of the
      backend's kind, and they are empty together. */
  ghost predicate SidesValid(s: Sides, b: Backend)
  {
    && Tracks(s.fwd, s.fLast) && AllBuiltBy(s.fwd, b)
    && Tracks(s.bwd, s.bLast) && AllBuiltBy(s.bwd, b)
    && (s.fwd == [] <==> s.bwd == [])
  }

  /** `do_join` at `p0` from the tangent `ab` to `cd`. While the sides are
      empty it only moves the two cursors to p0 -/+ norm and records the
      normal and the tangent as the subpath's start; otherwise it appends
      the join, and unless the join is elided the cursors move to
      p0 -/+ norm. */
  function JoinStep(m: MathLib, b: Backend, style: Style, tol: real, joinThresh: real,
                    s: Sides, p0: Point, ab: Point, cd: Point): (r: Sides)
  {
    var norm := Norm(m, style.width, cd);
    if s.fwd == [] then Sides(s.fwd, Sub(p0, norm), s.bwd, Add(p0, norm), norm, cd)
    else
      var added := JoinAdded(m, b, style, tol, joinThresh, ab, cd, p0, s.fLast, s.bLast);
      var elided := JoinElided(m, ab, cd, joinThresh);
      Sides(s.fwd + added.0, if elided then s.fLast else Sub(p0, norm),
            s.bwd + added.1, if elided then s.bLast else Add(p0, norm), s.startNorm, s.startTan)
  }

  /** A join keeps the sides valid and only appends to them; it leaves the
      recorded start alone once the sides are nonempty, and when it is not
      elided it grows both sides and leaves the cursors half a width either
      side of `p0`, along the normal of `cd`. */
  lemma JoinStepValid(m: MathLib, b: Backend, style: Style, tol: real, joinThresh: real,
                      s: Sides, p0: Point, ab: Point, cd: Point)
    requires SidesValid(s, b)
    ensures var r := JoinStep(m, b, style, tol, joinThresh, s, p0, ab, cd);
      var norm := Norm(m, style.width, cd);
      && SidesValid(r, b)
      && r.fwd[..|s.fwd|] == s.fwd && r.bwd[..|s.bwd|] == s.bwd
      && (r.fwd == [] <==> s.fwd == [])
      && (s.fwd != [] ==> r.startNorm == s.startNorm && r.startTan == s.startTan)
      && (s.fwd != [] && !JoinElided(m, ab, cd, joinThresh) ==>
            |r.fwd| > |s.fwd| && |r.bwd| > |s.bwd| && r.fLast == Sub(p0, norm) && r.bLast == Add(p0, norm))
      && (s.fwd != [] && JoinElided(m, ab, cd, joinThresh) ==> r == s)
  {
    hide JoinAdded, Norm;
    if s.fwd != [] {
      var added := JoinAdded(m, b, style, tol, joinThresh, ab, cd, p0, s.fLast, s.bLast);
      var norm := Norm(m, style.width, cd);
      JoinAddedShape(m, b, style, tol, joinThresh, ab, cd, p0, s.fLast, s.bLast);
      if !JoinElided(m, ab, cd, joinThresh) {
        TracksAppend(s.fwd, s.fLast, added.0, Sub(p0, norm), b);
        TracksAppend(s.bwd, s.bLast, added.1, Add(p0, norm), b);
      } else {
        assert s.fwd + added.0 == s.fwd && s.bwd + added.1 == s.bwd;
      }
      assert (s.fwd + added.0)[..|s.fwd|] == s.fwd;
      assert (s.bwd + added.1)[..|s.bwd|] == s.bwd;
    }
  }

  /** `do_line` to `p1` along `tangent`: one line on each side, to
      p1 -/+ norm. */
  function LineStep(m: MathLib, b: Backend, width: real, s: Sides, tangent: Point, p1: Point): (r: Sides)
  {
    var norm := Norm(m, width, tangent);
    Sides(s.fwd + [MakeLine(b, s.fLast, Sub(p1, norm))], Sub(p1, norm),
          s.bwd + [MakeLine(b, s.bLast, Add(p1, norm))], Add(p1, norm), s.startNorm, s.startTan)
  }

  /** A line keeps the sides valid, appends exactly one primitive to each
      and leaves the cursors on either side of `p1`, each offset
      perpendicular to the tangent. */
  lemma LineStepValid(m: MathLib, b: Backend, width: real, s: Sides, tangent: Point, p1: Point)
    requires SidesValid(s, b)
    ensures var r := LineStep(m, b, width, s, tangent, p1);
      && SidesValid(r, b) && r.fwd != []
      && |r.fwd| == |s.fwd| + 1 && |r.bwd| == |s.bwd| + 1
      && r.fwd[..|s.fwd|] == s.fwd && r.bwd[..|s.bwd|] == s.bwd
      && r.startNorm == s.startNorm && r.startTan == s.startTan
      && Dot(Sub(p1, r.fLast), tangent) == 0.0 && Dot(Sub(r.bLast, p1), tangent) == 0.0
      && Sub(r.bLast, p1) == Sub(p1, r.fLast)
  {
    hide Norm;
    var norm := Norm(m, width, tangent);
    NormPerpendicular(m, width, tangent);
    TracksAppend(s.fwd, s.fLast, [MakeLine(b, s.fLast, Sub(p1, norm))], Sub(p1, norm), b);
    TracksAppend(s.bwd, s.bLast, [MakeLine(b, s.bLast, Add(p1, norm))], Add(p1, norm), b);
    assert Sub(p1, Sub(p1, norm)) == norm && Sub(Add(p1, norm), p1) == norm;
    assert (s.fwd + [MakeLine(b, s.fLast, Sub(p1, norm))])[..|s.fwd|] == s.fwd;
    assert (s.bwd + [MakeLine(b, s.bLast, Add(p1, norm))])[..|s.bwd|] == s.bwd;
  }

  /** The loop of `do_cubic`: every Euler segment is lowered onto the
      forward side at offset -w/2 and onto the backward side at +w/2. */
  function CubicStep(m: MathLib, b: Backend, width: real, tol: real, s: Sides, segs: seq<EulerSeg>): (r: Sides)
  {
    var f := EspcLoweredAll(m, b, segs, -0.5 * width, tol, s.fwd, s.fLast);
    var k := EspcLoweredAll(m, b, segs, 0.5 * width, tol, s.bwd, s.bLast);
    Sides(f.0, f.1, k.0, k.1, s.startNorm, s.startTan)
  }

  /** Lowering the Euler segments keeps the sides valid and only appends;
      each segment adds to both sides, and after at least one the cursors are
      the two offset curves' ends of the last segment. */
  lemma CubicStepValid(m: MathLib, b: Backend, width: real, tol: real, s: Sides, segs: seq<EulerSeg>)
    requires SidesValid(s, b)
    ensures var r := CubicStep(m, b, width, tol, s, segs);
      && SidesValid(r, b)
      && |r.fwd| >= |s.fwd| + |segs| && |r.bwd| >= |s.bwd| + |segs|
      && r.fwd[..|s.fwd|] == s.fwd && r.bwd[..|s.bwd|] == s.bwd
      && r.startNorm == s.startNorm && r.startTan == s.startTan
      && (segs == [] ==> r == s)
      && (segs != [] ==>
            && r.fLast == segs[|segs| - 1].EvalWithOffset(m, 1.0, -0.5 * width)
            && r.bLast == segs[|segs| - 1].EvalWithOffset(m, 1.0, 0.5 * width))
  {
    hide EspcLowered, EulerSeg.EvalWithOffset;
    EspcLoweredAllShape(m, b, segs, -0.5 * width, tol, s.fwd, s.fLast);
    EspcLoweredAllShape(m, b, segs, 0.5 * width, tol, s.bwd, s.bLast);
    if segs != [] {
      var init := segs[..|segs| - 1];
      var f := EspcLoweredAll(m, b, init, -0.5 * width, tol, s.fwd, s.fLast);
      var k := EspcLoweredAll(m, b, init, 0.5 * width, tol, s.bwd, s.bLast);
      EspcLoweredAllShape(m, b, init, -0.5 * width, tol, s.fwd, s.fLast);
      EspcLoweredAllShape(m, b, init, 0.5 * width, tol, s.bwd, s.bLast);
      EspcLoweredShape(m, b, segs[|segs| - 1], -0.5 * width, tol, f.0, f.1);
      EspcLoweredShape(m, b, segs[|segs| - 1], 0.5 * width, tol, k.0, k.1);
    }
  }

  /** The Euler segments join up, from `from` to `to`. */
  ghost predicate SegsChain(segs: seq<EulerSeg>, from: Point, to: Point)
  {
    if segs == [] then from == to
    else
      && segs[0].p0 == from && segs[|segs| - 1].p1 == to
      && forall i :: 0 < i < |segs| ==> segs[i - 1].p1 == segs[i].p0
  }

  /** The Euler segments lowered for the cubic `c` by a `do_cubic` whose
      segment iteration ran to its end: none when the cubic takes the
      nearly straight branch, otherwise at least one, chaining from the
      cubic's start to its end, and each a piece the f64 iterator emitted
      at tolerance `tol`: it passed the error test and carries the fit of
      its angles. */
  ghost predicate CurveSegsOk(m: MathLib, c: Cubic, tol: real, segs: seq<EulerSeg>)
  {
    if LinearTest(c, tol).Some? then segs == []
    else
      && segs != [] && SegsChain(segs, c.p0, c.p3)
      && exists qs, ts :: TestedPieces(m, c, tol, F64, segs, qs, ts)
  }

  /** Each Euler segment of a curve lowered without fault is a spiral the
      iterator fitted and tested: `k0 = th0 + th1`, the f64 fit of its
      angles, and its cubic's error estimate times its chord within the
      tolerance, over the parameters `ts` with the derivatives `qs` the
      iterator carried between the pieces. */
  lemma CurveSegsTested(m: MathLib, c: Cubic, tol: real, segs: seq<EulerSeg>) returns (qs: seq<Point>, ts: seq<real>)
    requires CurveSegsOk(m, c, tol, segs)
    ensures |qs| == |segs| + 1 && |ts| == |segs| + 1
    ensures forall i :: 0 <= i < |segs| ==>
      && segs[i].params.k0 == segs[i].params.th0 + segs[i].params.th1
      && IsFit(m, segs[i].params.th0, segs[i].params.th1, segs[i].params)
      && PassedTest(m, F64, tol, segs[i].p0, segs[i].p1, qs[i], qs[i + 1], ts[i + 1] - ts[i], segs[i].params)
  {
    hide IsFit, PassedTest;
    if segs == [] {
      qs, ts := [StartDeriv(c)], [0.0];
    } else {
      qs, ts :| TestedPieces(m, c, tol, F64, segs, qs, ts);
      forall i | 0 <= i < |segs|
        ensures segs[i].params.k0 == segs[i].params.th0 + segs[i].params.th1
        ensures IsFit(m, segs[i].params.th0, segs[i].params.th1, segs[i].params)
        ensures PassedTest(m, F64, tol, segs[i].p0, segs[i].p1, qs[i], qs[i + 1], ts[i + 1] - ts[i], segs[i].params)
      {
        assert TestedPiece(m, c, tol, F64, segs[i], qs[i], qs[i + 1], ts[i], ts[i + 1]);
      }
    }
  }

  /** The Euler segments lowered for the element `el` drawn from `p0`, when
      nothing faulted: a curve's as `CurveSegsOk` says, and none for a
      degenerate curve or any other element. */
  ghost predicate ElSegsOk(m: MathLib, p0: Point, el: PathEl, tol: real, segs: seq<EulerSeg>)
  {
    match el
    case QuadTo(p1, p2) => if p1 == p0 && p2 == p0 then segs == [] else CurveSegsOk(m, Raise(p0, p1, p2), tol, segs)
    case CurveTo(p1, p2, p3) => if p1 == p0 && p2 == p0 && p3 == p0 then segs == [] else CurveSegsOk(m, Cubic(p0, p1, p2, p3), tol, segs)
    case _ => segs == []
  }

  // ---------------------------------------------------------------------
  // The nearly straight cubic

  /** The reference direction of the linear test: the chord, or a control
      arm that is strictly longer than the longest candidate before it. */
  function ChordRef(c: Cubic): (r: Point)
    ensures r == Sub(c.p3, c.p0) || r == Sub(c.p1, c.p0) || r == Sub(c.p3, c.p2)
    ensures Hypot2(r) >= Hypot2(Sub(c.p3, c.p0))
    ensures Hypot2(r) >= Hypot2(Sub(c.p1, c.p0)) && Hypot2(r) >= Hypot2(Sub(c.p3, c.p2))
  {
    var chord, d01, d23 := Sub(c.p3, c.p0), Sub(c.p1, c.p0), Sub(c.p3, c.p2);
    var r1 := if Hypot2(d01) > Hypot2(chord) then d01 else chord;
    if Hypot2(d23) > Hypot2(r1) then d23 else r1
  }

  /** The control points projected onto the reference direction, and the
      map `z -> refPt + z refVec` back to the plane. */
  datatype LinearMap = LinearMap(q0: real, q1: real, q2: real, q3: real, refPt: Point, refVec: Point)

  /** The projected end points may not be closer than 1% of the projected
      chord to the inner control points. */
  const ENDPOINT_D: real := 0.01

  function Midpoint(a: Point, b: Point): (r: Point)
  {
    Point(0.5 * (a.x + b.x), 0.5 * (a.y + b.y))
  }

  /** The order test of `do_cubic` on the projected control points: the
      projection may double back (the end is not past the start, the
      inner control points are out of order, or one of them lies within 1%
      of the projected chord of its end point or beyond it). */
  predicate MayDoubleBack(q0: real, q1: real, q2: real, q3: real)
  {
    q3 <= q0 || q1 > q2 || q1 < q0 + ENDPOINT_D * (q3 - q0) || q2 > q3 - ENDPOINT_D * (q3 - q0)
  }

  /** The collinearity test of `do_cubic`: both control arms and the chord
      make a cross product with the reference direction whose square is
      below tol^2 |ref|^2. */
  predicate NearLine(c: Cubic, cr: Point, tol: real)
  {
    var thresh := Powi(tol, 2) * Hypot2(cr);
    var x01, x23, x03 := Cross(Sub(c.p1, c.p0), cr), Cross(Sub(c.p3, c.p2), cr), Cross(Sub(c.p3, c.p0), cr);
    x01 * x01 < thresh && x23 * x23 < thresh && x03 * x03 < thresh
  }

  /** The inverse map of the projection onto `cr`: `refVec` is cr / |cr|^2
      and `refPt` is the chord's midpoint moved back along it by the mean of
      the projected ends. */
  function MapBack(c: Cubic, cr: Point, q0: real, q3: real): (r: (Point, Point))
  {
    var h2 := Hypot2(cr);
    var refVec := Point(Div(cr.x, h2), Div(cr.y, h2));
    (Sub(Midpoint(c.p0, c.p3), Scale(refVec, 0.5 * (q0 + q3))), refVec)
  }

  /** The test at the start of `do_cubic`: a cubic whose projection onto
      the reference direction may double back (so there may be a cusp) and
      whose control arms and chord all lie within the tolerance of that
      direction is drawn as a polyline; the result is the projection and
      the map back. */
  function LinearTest(c: Cubic, tol: real): (r: Option<LinearMap>)
  {
    var cr := ChordRef(c);
    var q0, q1, q2, q3 := Dot(c.p0, cr), Dot(c.p1, cr), Dot(c.p2, cr), Dot(c.p3, cr);
    if MayDoubleBack(q0, q1, q2, q3) && NearLine(c, cr, tol) then
      var mb := MapBack(c, cr, q0, q3);
      Some(LinearMap(q0, q1, q2, q3, mb.0, mb.1))
    else None
  }

  lemma SquareNonNeg(x: real)
    ensures x * x >= 0.0
  {
    if x < 0.0 {
      assert x * x == (-x) * (-x);
      MulNonNeg(-x, -x);
    } else {
      MulNonNeg(x, x);
    }
  }

  /** What a successful linear test computed. */
  lemma LinearTestFields(c: Cubic, tol: real)
    requires LinearTest(c, tol).Some?
    ensures var lm, cr := LinearTest(c, tol).value, ChordRef(c);
      && lm.q0 == Dot(c.p0, cr) && lm.q1 == Dot(c.p1, cr) && lm.q2 == Dot(c.p2, cr) && lm.q3 == Dot(c.p3, cr)
      && NearLine(c, cr, tol)
      && (lm.refPt, lm.refVec) == MapBack(c, cr, lm.q0, lm.q3)
  {
    hide MayDoubleBack, NearLine, MapBack, Dot, ChordRef;
  }

  lemma PositiveRef(x: real, tol2: real, h2: real)
    requires x * x < tol2 * h2 && h2 >= 0.0
    ensures h2 > 0.0
  {
    SquareNonNeg(x);
  }

  /** A reference direction that passes the collinearity test is not zero. */
  lemma NearLinePositive(c: Cubic, cr: Point, tol: real)
    requires NearLine(c, cr, tol)
    ensures Hypot2(cr) > 0.0
    ensures Cross(Sub(c.p3, c.p0), cr) * Cross(Sub(c.p3, c.p0), cr) < Powi(tol, 2) * Hypot2(cr)
  {
    hide Powi, Cross;
    SquareNonNeg(cr.x);
    SquareNonNeg(cr.y);
    PositiveRef(Cross(Sub(c.p1, c.p0), cr), Powi(tol, 2), Hypot2(cr));
  }

  lemma DivSelf(x: real, y: real, h: real)
    requires h > 0.0 && h == x * x + y * y
    ensures Div(x, h) * x + Div(y, h) * y == 1.0
  {
    assert Div(x, h) * x + Div(y, h) * y == (x * x + y * y) / h;
  }

  lemma RefVecDot(cr: Point, h2: real)
    requires h2 > 0.0 && h2 == Hypot2(cr)
    ensures Dot(Point(Div(cr.x, h2), Div(cr.y, h2)), cr) == 1.0
  {
    DivSelf(cr.x, cr.y, h2);
  }

  lemma DotLinear(p: Point, v: Point, z: real, cr: Point)
    ensures Dot(Add(p, Scale(v, z)), cr) == Dot(p, cr) + z * Dot(v, cr)
    ensures Dot(Sub(p, Scale(v, z)), cr) == Dot(p, cr) - z * Dot(v, cr)
  {
  }

  lemma MidpointDot(a: Point, b: Point, cr: Point)
    ensures Dot(Midpoint(a, b), cr) == 0.5 * (Dot(a, cr) + Dot(b, cr))
  {
  }

  /** When the test succeeds the reference direction is not zero, the
      projections are those of the control points, the chord makes a cross
      product with the reference direction below tol |ref|, and the map
      back is a right inverse of the projection: the point it gives for z
      projects to z, and the mean of the projected ends maps to the
      midpoint of the chord. */
  lemma LinearMapInverse(c: Cubic, tol: real, z: real)
    requires LinearTest(c, tol).Some?
    ensures var lm, cr := LinearTest(c, tol).value, ChordRef(c);
      && Hypot2(cr) > 0.0
      && lm.q0 == Dot(c.p0, cr) && lm.q1 == Dot(c.p1, cr) && lm.q2 == Dot(c.p2, cr) && lm.q3 == Dot(c.p3, cr)
      && Cross(Sub(c.p3, c.p0), cr) * Cross(Sub(c.p3, c.p0), cr) < Powi(tol, 2) * Hypot2(cr)
      && Dot(Add(lm.refPt, Scale(lm.refVec, z)), cr) == z
      && Add(lm.refPt, Scale(lm.refVec, 0.5 * (lm.q0 + lm.q3))) == Midpoint(c.p0, c.p3)
  {
    hide LinearTest, Powi, Dot, Midpoint, ChordRef, NearLine, Hypot2, Cross;
    var lm, cr := LinearTest(c, tol).value, ChordRef(c);
    var h2 := Hypot2(cr);
    LinearTestFields(c, tol);
    NearLinePositive(c, cr, tol);
    var v := lm.refVec;
    RefVecDot(cr, h2);
    var a := 0.5 * (lm.q0 + lm.q3);
    MidpointDot(c.p0, c.p3, cr);
    DotLinear(Midpoint(c.p0, c.p3), v, a, cr);
    DotLinear(lm.refPt, v, z, cr);
  }

  /** Cusps closer than this to an end (in t) are dropped. */
  const CUSP_EPS: real := 1e-6

  /** The roots strictly inside (1e-6, 1 - 1e-6), in order. */
  function CuspFilter(roots: seq<real>): (r: seq<real>)
    ensures forall i :: 0 <= i < |r| ==> CUSP_EPS < r[i] < 1.0 - CUSP_EPS
    ensures |r| <= |roots|
  {
    if roots == [] then []
    else
      var init := CuspFilter(roots[..|roots| - 1]);
      var t := roots[|roots| - 1];
      if CUSP_EPS < t < 1.0 - CUSP_EPS then init + [t] else init
  }

  /** The filter keeps exactly the roots inside the interval: each kept
      value is one of the roots, and each root inside is kept. */
  lemma {:induction false} CuspFilterMembers(roots: seq<real>)
    ensures forall i :: 0 <= i < |CuspFilter(roots)| ==> CuspFilter(roots)[i] in roots
    ensures forall i :: 0 <= i < |roots| && CUSP_EPS < roots[i] < 1.0 - CUSP_EPS ==> roots[i] in CuspFilter(roots)
  {
    if roots != [] {
      var init := roots[..|roots| - 1];
      var t := roots[|roots| - 1];
      CuspFilterMembers(init);
      assert roots == init + [t];
      forall i | 0 <= i < |roots| && CUSP_EPS < roots[i] < 1.0 - CUSP_EPS
        ensures roots[i] in CuspFilter(roots)
      {
        if i < |init| {
          assert roots[i] == init[i];
        }
      }
    }
  }

  /** The projected cubic's derivative divided by three, in the power
      basis: c0 + c1 t + c2 t^2. */
  function CuspCoeffs(lm: LinearMap): (r: (real, real, real))
  {
    (lm.q1 - lm.q0, 2.0 * lm.q2 - 4.0 * lm.q1 + 2.0 * lm.q0, lm.q3 - 3.0 * lm.q2 + 3.0 * lm.q1 - lm.q0)
  }

  /** The cusp parameters: the roots of the derivative kept by the filter. */
  function CuspTs(m: MathLib, lm: LinearMap): (r: seq<real>)
  {
    var k := CuspCoeffs(lm);
    CuspFilter(m.solveQuadratic(k.0, k.1, k.2))
  }

  /** The quadratic with coefficients c0, c1, c2 at x. */
  function Quad(c0: real, c1: real, c2: real, x: real): real
  {
    c0 + c1 * x + c2 * x * x
  }

  /** The power-basis coefficients are those of the Bernstein derivative. */
  lemma CuspCoeffsAreDerivative(lm: LinearMap, t: real)
    ensures var k := CuspCoeffs(lm);
      Quad(k.0, k.1, k.2, t) == BernsteinThirdDeriv(lm.q0, lm.q1, lm.q2, lm.q3, t)
  {
    QuadraticForm(lm.q0, lm.q1, lm.q2, lm.q3, t, 1.0 - t);
  }

  lemma QuadraticForm(q0: real, q1: real, q2: real, q3: real, t: real, mt: real)
    requires mt == 1.0 - t
    ensures (q1 - q0) + (2.0 * q2 - 4.0 * q1 + 2.0 * q0) * t + (q3 - 3.0 * q2 + 3.0 * q1 - q0) * t * t
      == (q1 - q0) * (mt * mt) + (q2 - q1) * (2.0 * (mt * t)) + (q3 - q2) * (t * t)
  {
    assert mt * mt == 1.0 - 2.0 * t + t * t;
    assert mt * t == t - t * t;
  }

  lemma RootSolves(m: MathLib, c0: real, c1: real, c2: real, j: nat)
    requires Lawful(m)
    requires j < |m.solveQuadratic(c0, c1, c2)|
    ensures Quad(c0, c1, c2, m.solveQuadratic(c0, c1, c2)[j]) == 0.0
  {
    assert SolvesQuadratic(c0, c1, c2, m.solveQuadratic(c0, c1, c2));
  }

  /** With a lawful root finder every cusp parameter lies inside (0, 1)
      and is a stationary point of the projected cubic: the derivative of
      the projection vanishes there. */
  lemma CuspsAreStationary(m: MathLib, lm: LinearMap, i: nat)
    requires Lawful(m)
    requires i < |CuspTs(m, lm)|
    ensures var t := CuspTs(m, lm)[i];
      && 0.0 < t < 1.0
      && BernsteinThirdDeriv(lm.q0, lm.q1, lm.q2, lm.q3, t) == 0.0
  {
    hide CuspCoeffs, BernsteinThirdDeriv, Lawful, Quad;
    var k := CuspCoeffs(lm);
    var roots := m.solveQuadratic(k.0, k.1, k.2);
    var t := CuspTs(m, lm)[i];
    CuspFilterMembers(roots);
    assert t in roots;
    var j :| 0 <= j < |roots| && roots[j] == t;
    RootSolves(m, k.0, k.1, k.2, j);
    CuspCoeffsAreDerivative(lm, roots[j]);
  }

  /** The point `do_linear` draws for the cusp at t: the projected cubic
      evaluated at t, mapped back. */
  function CuspPoint(lm: LinearMap, t: real): (r: Point)
  {
    var mt := 1.0 - t;
    var z := mt * (mt * mt * lm.q0 + 3.0 * t * (mt * lm.q1 + t * lm.q2)) + t * t * t * lm.q3;
    Add(lm.refPt, Scale(lm.refVec, z))
  }

  /** The cubic Bernstein basis at t. */
  function Basis(t: real): (r: (real, real, real, real))
  {
    var mt := 1.0 - t;
    (mt * mt * mt, 3.0 * (mt * mt) * t, 3.0 * (mt * t) * t, t * t * t)
  }

  lemma BernsteinBasis(w0: real, w1: real, w2: real, w3: real, t: real)
    ensures var b := Basis(t);
      BernsteinValue(w0, w1, w2, w3, t) == w0 * b.0 + w1 * b.1 + w2 * b.2 + w3 * b.3
  {
  }

  lemma Combine4(a0: real, a1: real, a2: real, a3: real, c0: real, c1: real, c2: real, c3: real,
                 b0: real, b1: real, b2: real, b3: real, u: real, v: real)
    ensures (a0 * b0 + a1 * b1 + a2 * b2 + a3 * b3) * u + (c0 * b0 + c1 * b1 + c2 * b2 + c3 * b3) * v
      == (a0 * u + c0 * v) * b0 + (a1 * u + c1 * v) * b1 + (a2 * u + c2 * v) * b2 + (a3 * u + c3 * v) * b3
  {
  }

  lemma DotBernstein(c: Cubic, cr: Point, t: real)
    ensures Dot(EvalAndDeriv(c, t).0, cr)
      == BernsteinValue(Dot(c.p0, cr), Dot(c.p1, cr), Dot(c.p2, cr), Dot(c.p3, cr), t)
  {
    hide BernsteinValue, Basis, BernsteinThirdDeriv;
    var b := Basis(t);
    var X := BernsteinValue(c.p0.x, c.p1.x, c.p2.x, c.p3.x, t);
    var Y := BernsteinValue(c.p0.y, c.p1.y, c.p2.y, c.p3.y, t);
    BernsteinBasis(c.p0.x, c.p1.x, c.p2.x, c.p3.x, t);
    BernsteinBasis(c.p0.y, c.p1.y, c.p2.y, c.p3.y, t);
    BernsteinBasis(Dot(c.p0, cr), Dot(c.p1, cr), Dot(c.p2, cr), Dot(c.p3, cr), t);
    Combine4(c.p0.x, c.p1.x, c.p2.x, c.p3.x, c.p0.y, c.p1.y, c.p2.y, c.p3.y, b.0, b.1, b.2, b.3, cr.x, cr.y);
    calc {
      Dot(EvalAndDeriv(c, t).0, cr);
      Dot(Point(X, Y), cr);
      X * cr.x + Y * cr.y;
      (c.p0.x * b.0 + c.p1.x * b.1 + c.p2.x * b.2 + c.p3.x * b.3) * cr.x
        + (c.p0.y * b.0 + c.p1.y * b.1 + c.p2.y * b.2 + c.p3.y * b.3) * cr.y;
      (c.p0.x * cr.x + c.p0.y * cr.y) * b.0 + (c.p1.x * cr.x + c.p1.y * cr.y) * b.1
        + (c.p2.x * cr.x + c.p2.y * cr.y) * b.2 + (c.p3.x * cr.x + c.p3.y * cr.y) * b.3;
      Dot(c.p0, cr) * b.0 + Dot(c.p1, cr) * b.1 + Dot(c.p2, cr) * b.2 + Dot(c.p3, cr) * b.3;
      BernsteinValue(Dot(c.p0, cr), Dot(c.p1, cr), Dot(c.p2, cr), Dot(c.p3, cr), t);
    }
  }

  lemma ZForm(q0: real, q1: real, q2: real, q3: real, t: real, mt: real)
    ensures mt * (mt * mt * q0 + 3.0 * t * (mt * q1 + t * q2)) + t * t * t * q3
      == q0 * (mt * mt * mt) + (q1 * (3.0 * (mt * mt)) + q2 * (3.0 * (mt * t)) + q3 * (t * t)) * t
  {
  }

  /** The cusp point lies on the line of the map back, where the curve at
      t projects to: its projection onto the reference direction is that of
      the cubic's point at t. */
  lemma CuspPointOnCurve(c: Cubic, tol: real, t: real)
    requires LinearTest(c, tol).Some?
    ensures Dot(CuspPoint(LinearTest(c, tol).value, t), ChordRef(c)) == Dot(EvalAndDeriv(c, t).0, ChordRef(c))
  {
    hide LinearTest;
    var lm := LinearTest(c, tol).value;
    var mt := 1.0 - t;
    var z := mt * (mt * mt * lm.q0 + 3.0 * t * (mt * lm.q1 + t * lm.q2)) + t * t * t * lm.q3;
    assert CuspPoint(lm, t) == Add(lm.refPt, Scale(lm.refVec, z));
    ZForm(lm.q0, lm.q1, lm.q2, lm.q3, t, mt);
    assert BernsteinValue(lm.q0, lm.q1, lm.q2, lm.q3, t)
      == lm.q0 * (mt * mt * mt) + (lm.q1 * (3.0 * (mt * mt)) + lm.q2 * (3.0 * (mt * t)) + lm.q3 * (t * t)) * t;
    assert z == BernsteinValue(lm.q0, lm.q1, lm.q2, lm.q3, t);
    LinearMapInverse(c, tol, z);
    assert Dot(CuspPoint(lm, t), ChordRef(c)) == z;
    DotBernstein(c, ChordRef(c), t);
    assert BernsteinValue(lm.q0, lm.q1, lm.q2, lm.q3, t)
      == BernsteinValue(Dot(c.p0, ChordRef(c)), Dot(c.p1, ChordRef(c)), Dot(c.p2, ChordRef(c)), Dot(c.p3, ChordRef(c)), t);
  }

  /** One vertex of the polyline `do_linear` draws: a round join and a line
      from the previous vertex `st.1` to p, along p - st.1, which becomes
      the last tangent `st.2`. */
  function WalkStep(m: MathLib, b: Backend, width: real, tol: real, joinThresh: real,
                    st: (Sides, Point, Point), p: Point): (r: (Sides, Point, Point))
  {
    var tan := Sub(p, st.1);
    (LineStep(m, b, width, JoinStep(m, b, RoundStyle(width), tol, joinThresh, st.0, st.1, st.2, tan), tan, p), p, tan)
  }

  /** The vertices at the cusp parameters ts, in order. */
  function LinearWalk(m: MathLib, b: Backend, width: real, tol: real, joinThresh: real, lm: LinearMap,
                      st: (Sides, Point, Point), ts: seq<real>): (r: (Sides, Point, Point))
  {
    if ts == [] then st
    else WalkStep(m, b, width, tol, joinThresh, LinearWalk(m, b, width, tol, joinThresh, lm, st, ts[..|ts| - 1]), CuspPoint(lm, ts[|ts| - 1]))
  }

  /** `do_linear` on the sides `s` with the cursor at `last`: the last
      tangent becomes the cubic's start tangent, then a vertex at each cusp
      and one at the end point, and a round join into the cubic's end
      tangent. The result is the sides and the last tangent. */
  function LinearSides(m: MathLib, b: Backend, width: real, tol: real, joinThresh: real, c: Cubic, lm: LinearMap,
                       s: Sides, last: Point): (r: (Sides, Point))
  {
    var tans := PathSegTangents(SegCubic(c));
    var w := WalkStep(m, b, width, tol, joinThresh, LinearWalk(m, b, width, tol, joinThresh, lm, (s, last, tans.0), CuspTs(m, lm)), c.p3);
    (JoinStep(m, b, RoundStyle(width), tol, joinThresh, w.0, c.p3, w.2, tans.1), w.2)
  }

  /** A vertex keeps the sides valid, only appends, adds at least one
      primitive to each side and keeps the recorded start once the sides
      are nonempty. */
  lemma WalkStepValid(m: MathLib, b: Backend, width: real, tol: real, joinThresh: real,
                      st: (Sides, Point, Point), p: Point)
    requires SidesValid(st.0, b)
    ensures var r := WalkStep(m, b, width, tol, joinThresh, st, p);
      && SidesValid(r.0, b) && r.1 == p && r.0.fwd != []
      && |r.0.fwd| > |st.0.fwd| && r.0.fwd[..|st.0.fwd|] == st.0.fwd
      && |r.0.bwd| > |st.0.bwd| && r.0.bwd[..|st.0.bwd|] == st.0.bwd
      && (st.0.fwd != [] ==> r.0.startNorm == st.0.startNorm && r.0.startTan == st.0.startTan)
  {
    hide JoinStep, LineStep;
    var tan := Sub(p, st.1);
    var j := JoinStep(m, b, RoundStyle(width), tol, joinThresh, st.0, st.1, st.2, tan);
    JoinStepValid(m, b, RoundStyle(width), tol, joinThresh, st.0, st.1, st.2, tan);
    LineStepValid(m, b, width, j, tan, p);
    var r := LineStep(m, b, width, j, tan, p);
    assert r.fwd[..|st.0.fwd|] == r.fwd[..|j.fwd|][..|st.0.fwd|];
    assert r.bwd[..|st.0.bwd|] == r.bwd[..|j.bwd|][..|st.0.bwd|];
  }

  /** The walk keeps the sides valid, only appends, adds at least one
      primitive per vertex to each side, and ends at the last vertex. */
  lemma {:induction false} LinearWalkValid(m: MathLib, b: Backend, width: real, tol: real, joinThresh: real, lm: LinearMap,
                                          st: (Sides, Point, Point), ts: seq<real>)
    requires SidesValid(st.0, b)
    ensures var r := LinearWalk(m, b, width, tol, joinThresh, lm, st, ts);
      && SidesValid(r.0, b)
      && |r.0.fwd| >= |st.0.fwd| + |ts| && r.0.fwd[..|st.0.fwd|] == st.0.fwd
      && |r.0.bwd| >= |st.0.bwd| + |ts| && r.0.bwd[..|st.0.bwd|] == st.0.bwd
      && r.1 == (if ts == [] then st.1 else CuspPoint(lm, ts[|ts| - 1]))
      && (st.0.fwd != [] ==> r.0.startNorm == st.0.startNorm && r.0.startTan == st.0.startTan)
  {
    hide WalkStep;
    if ts != [] {
      var init := ts[..|ts| - 1];
      var w := LinearWalk(m, b, width, tol, joinThresh, lm, st, init);
      LinearWalkValid(m, b, width, tol, joinThresh, lm, st, init);
      WalkStepValid(m, b, width, tol, joinThresh, w, CuspPoint(lm, ts[|ts| - 1]));
      var r := WalkStep(m, b, width, tol, joinThresh, w, CuspPoint(lm, ts[|ts| - 1]));
      assert r.0.fwd[..|st.0.fwd|] == r.0.fwd[..|w.0.fwd|][..|st.0.fwd|];
      assert r.0.bwd[..|st.0.bwd|] == r.0.bwd[..|w.0.bwd|][..|st.0.bwd|];
    }
  }

  /** `do_linear` keeps the sides valid and only appends: at least one
      primitive per cusp and one for the end point goes onto each side, the
      polyline's last vertex is the cubic's end point, and the recorded start
      is kept once the sides are nonempty. */
  lemma LinearSidesValid(m: MathLib, b: Backend, width: real, tol: real, joinThresh: real, c: Cubic, lm: LinearMap,
                         s: Sides, last: Point)
    requires SidesValid(s, b)
    ensures var r := LinearSides(m, b, width, tol, joinThresh, c, lm, s, last);
      && SidesValid(r.0, b) && r.0.fwd != []
      && |r.0.fwd| > |s.fwd| + |CuspTs(m, lm)| && r.0.fwd[..|s.fwd|] == s.fwd
      && |r.0.bwd| > |s.bwd| + |CuspTs(m, lm)| && r.0.bwd[..|s.bwd|] == s.bwd
      && (s.fwd != [] ==> r.0.startNorm == s.startNorm && r.0.startTan == s.startTan)
  {
    hide WalkStep, LinearWalk, JoinStep, CuspTs;
    var tans := PathSegTangents(SegCubic(c));
    var lw := LinearWalk(m, b, width, tol, joinThresh, lm, (s, last, tans.0), CuspTs(m, lm));
    LinearWalkValid(m, b, width, tol, joinThresh, lm, (s, last, tans.0), CuspTs(m, lm));
    var w := WalkStep(m, b, width, tol, joinThresh, lw, c.p3);
    WalkStepValid(m, b, width, tol, joinThresh, lw, c.p3);
    var r := JoinStep(m, b, RoundStyle(width), tol, joinThresh, w.0, c.p3, w.2, tans.1);
    JoinStepValid(m, b, RoundStyle(width), tol, joinThresh, w.0, c.p3, w.2, tans.1);
    assert r.fwd[..|s.fwd|] == r.fwd[..|w.0.fwd|][..|lw.0.fwd|][..|s.fwd|];
    assert r.bwd[..|s.bwd|] == r.bwd[..|w.0.bwd|][..|lw.0.bwd|][..|s.bwd|];
  }

  /** What `do_cubic` does to the sides and the last tangent: a cubic that
      passes the linear test is drawn by `do_linear`; any other is lowered
      Euler segment by Euler segment and leaves the last tangent alone. */
  function CubicSides(m: MathLib, b: Backend, width: real, tol: real, joinThresh: real, c: Cubic,
                      s: Sides, last: Point, lastTan: Point, segs: seq<EulerSeg>): (r: (Sides, Point))
  {
    match LinearTest(c, tol)
    case Some(lm) => LinearSides(m, b, width, tol, joinThresh, c, lm, s, last)
    case None => (CubicStep(m, b, width, tol, s, segs), lastTan)
  }

  /** `finish` on the sides `s`: what goes to the output, and the sides
      left (both emptied, cursors kept). Nothing happens while the sides are
      empty. */
  function OpenFinish(m: MathLib, b: Backend, style: Style, tol: real, s: Sides, lastPt: Point, startPt: Point): (r: (seq<Prim>, Sides))
  {
    if s.fwd == [] then ([], s)
    else (FinishRun(m, b, style, tol, s.fwd, s.fLast, s.bwd, s.bLast, lastPt, startPt, s.startNorm), s.(fwd := [], bwd := []))
  }

  /** `finish_closed` on the sides `s` at `p0`, last tangent `ab`: the
      closing join into the recorded start tangent, then the forward side
      and the backward side reversed go to the output and both sides are
      emptied. Nothing happens while the sides are empty. */
  function ClosedFinish(m: MathLib, b: Backend, style: Style, tol: real, joinThresh: real, s: Sides, p0: Point, ab: Point): (r: (seq<Prim>, Sides))
  {
    if s.fwd == [] then ([], s)
    else
      var j := JoinStep(m, b, style, tol, joinThresh, s, p0, ab, s.startTan);
      (ClosedRun(j.fwd, j.bwd), j.(fwd := [], bwd := []))
  }

  /** `finish` leaves empty valid sides and adds primitives of the
      backend's kind, nothing exactly when the sides were empty, and
      otherwise one run from the start of the forward side to the end of the
      start cap. */
  lemma OpenFinishValid(m: MathLib, b: Backend, style: Style, tol: real, s: Sides, lastPt: Point, startPt: Point)
    requires SidesValid(s, b)
    ensures var o := OpenFinish(m, b, style, tol, s, lastPt, startPt);
      && SidesValid(o.1, b) && o.1.fwd == [] && AllBuiltBy(o.0, b)
      && (o.0 == [] <==> s.fwd == [])
      && (s.fwd != [] ==> Runs(o.0, s.fwd[0].StartPoint(), Sub(startPt, s.startNorm)))
  {
    hide FinishRun;
    if s.fwd != [] {
      FinishRunShape(m, b, style, tol, s.fwd, s.fLast, s.bwd, s.bLast, lastPt, startPt, s.startNorm);
    }
  }

  /** `finish_closed` leaves empty valid sides and adds primitives of the
      backend's kind, nothing exactly when the sides were empty, and
      otherwise two runs: the forward side with its closing join, from the
      forward side's start to the forward cursor, then the backward side
      with its closing join reversed, from the backward cursor back to the
      backward side's start. Unless the closing join is elided the two
      cursors are p0 -/+ the normal of the recorded start tangent. */
  lemma ClosedFinishValid(m: MathLib, b: Backend, style: Style, tol: real, joinThresh: real, s: Sides, p0: Point, ab: Point)
    requires SidesValid(s, b)
    ensures var k := ClosedFinish(m, b, style, tol, joinThresh, s, p0, ab);
      && SidesValid(k.1, b) && k.1.fwd == [] && AllBuiltBy(k.0, b)
      && (k.0 == [] <==> s.fwd == [])
      && (s.fwd != [] ==> |k.0| >= |s.fwd| && k.0[..|s.fwd|] == s.fwd)
    ensures s.fwd != [] ==>
      var j := JoinStep(m, b, style, tol, joinThresh, s, p0, ab, s.startTan);
      var norm := Norm(m, style.width, s.startTan);
      && ClosedFinish(m, b, style, tol, joinThresh, s, p0, ab).0 == j.fwd + ReversedAll(j.bwd)
      && Runs(j.fwd, s.fwd[0].StartPoint(), j.fLast)
      && Runs(ReversedAll(j.bwd), j.bLast, s.bwd[0].StartPoint())
      && (!JoinElided(m, ab, s.startTan, joinThresh) ==> j.fLast == Sub(p0, norm) && j.bLast == Add(p0, norm))
  {
    hide ClosedRun, JoinAdded, Norm, JoinElided;
    if s.fwd != [] {
      var j := JoinStep(m, b, style, tol, joinThresh, s, p0, ab, s.startTan);
      JoinStepValid(m, b, style, tol, joinThresh, s, p0, ab, s.startTan);
      ClosedRunUnfold(j.fwd, j.bwd);
      ClosedRunShape(m, b, style, tol, joinThresh, ab, s.startTan, p0, s.fwd, s.fLast, s.bwd, s.bLast);
      assert ClosedRun(j.fwd, j.bwd)[..|s.fwd|] == ClosedRun(j.fwd, j.bwd)[..|j.fwd|][..|s.fwd|];
      assert j.fwd[0] == j.fwd[..|s.fwd|][0] && j.bwd[0] == j.bwd[..|s.bwd|][0];
      ReversedAllProps(j.bwd, s.bwd[0].StartPoint(), j.bLast, b);
    }
  }

  lemma AllBuiltByAppend(a: seq<Prim>, c: seq<Prim>, b: Backend)
    requires AllBuiltBy(a, b) && AllBuiltBy(c, b)
    ensures AllBuiltBy(a + c, b)
  {
  }

  /** Pushes the primitives of `s` onto `out` reversed, last first. */
  method PushReversed(out: LoweredPath, s: seq<Prim>)
    modifies out
    ensures out.path == old(out.path) + ReversedAll(s) && out.lastPt == old(out.lastPt)
  {
    ghost var before := out.path;
    var i := |s|;
    while i > 0
      invariant 0 <= i <= |s|
      invariant out.path == before + ReversedAll(s)[..|s| - i]
      invariant out.lastPt == old(out.lastPt)
    {
      i := i - 1;
      out.path := out.path + [s[i].Reverse()];
      assert ReversedAll(s)[..|s| - i] == ReversedAll(s)[..|s| - i - 1] + [s[i].Reverse()];
    }
    assert ReversedAll(s)[..|s|] == ReversedAll(s);
  }

  /** The cap of the start of a subpath (the `match style.start_cap` of
      `finish`). */
  method CapTo(out: LoweredPath, m: MathLib, cap: Cap, tol: real, center: Point, norm: Point)
    modifies out
    ensures out.path == old(out.path) + CapPrims(m, out.backend, cap, tol, old(out.lastPt), center, norm)
    ensures out.lastPt == Sub(center, norm)
  {
    match cap
    case ButtCap => out.LineTo(Sub(center, norm));
    case RoundCap => RoundCapTo(out, m, tol, center, norm);
    case SquareCap => SquareCapTo(out, center, norm);
  }

  lemma LinesThroughTwo(b: Backend, from: Point, p: Point, q: Point)
    ensures LinesThrough(b, from, [p, q]) == [MakeLine(b, from, p), MakeLine(b, p, q)]
  {
  }

  /** One more Euler segment lowers onto both sides after the others. */
  lemma CubicStepSnoc(m: MathLib, b: Backend, width: real, tol: real, s: Sides, segs: seq<EulerSeg>, seg: EulerSeg)
    ensures var r := CubicStep(m, b, width, tol, s, segs);
      var f := EspcLowered(m, b, seg, -0.5 * width, tol, r.fwd, r.fLast);
      var k := EspcLowered(m, b, seg, 0.5 * width, tol, r.bwd, r.bLast);
      CubicStep(m, b, width, tol, s, segs + [seg]) == Sides(f.0, f.1, k.0, k.1, s.startNorm, s.startTan)
  {
    hide EspcLowered;
    assert (segs + [seg])[..|segs|] == segs;
  }

  /** A segment from the end of a chain extends it. */
  lemma SegsChainSnoc(segs: seq<EulerSeg>, from: Point, seg: EulerSeg)
    requires SegsChain(segs, from, seg.p0)
    ensures SegsChain(segs + [seg], from, seg.p1)
  {
    var r := segs + [seg];
    forall i | 0 < i < |r|
      ensures r[i - 1].p1 == r[i].p0
    {
      if i < |segs| {
        assert r[i - 1] == segs[i - 1] && r[i] == segs[i];
      }
    }
  }

  /** Before any root there is no vertex. */
  lemma LinearWalkNoRoots(m: MathLib, b: Backend, width: real, tol: real, joinThresh: real, lm: LinearMap,
                          st: (Sides, Point, Point), roots: seq<real>)
    ensures LinearWalk(m, b, width, tol, joinThresh, lm, st, CuspFilter(roots[..0])) == st
  {
    assert roots[..0] == [];
  }

  /** One more root is one more vertex when it is inside the interval, and
      nothing otherwise. */
  lemma LinearWalkSnocRoot(m: MathLib, b: Backend, width: real, tol: real, joinThresh: real, lm: LinearMap,
                           st: (Sides, Point, Point), roots: seq<real>, i: nat)
    requires i < |roots|
    ensures var w := LinearWalk(m, b, width, tol, joinThresh, lm, st, CuspFilter(roots[..i]));
      var t := roots[i];
      LinearWalk(m, b, width, tol, joinThresh, lm, st, CuspFilter(roots[..i + 1]))
        == if CUSP_EPS < t < 1.0 - CUSP_EPS then WalkStep(m, b, width, tol, joinThresh, w, CuspPoint(lm, t)) else w
  {
    hide WalkStep, CuspPoint;
    assert roots[..i + 1][..i] == roots[..i];
    var ts := CuspFilter(roots[..i]);
    assert (ts + [roots[i]])[..|ts|] == ts;
  }

  // ---------------------------------------------------------------------
  // The element loop of `stroke_undashed`

  /** Everything the element loop reads and writes: the output, the two
      sides, the subpath's start point, the last point and the last
      tangent. */
  datatype StrokeState = StrokeState(out: seq<Prim>, sides: Sides, startPt: Point, lastPt: Point, lastTan: Point)

  /** The state `stroke_undashed` starts from: nothing drawn, all points
      and vectors zero. */
  function InitState(): (r: StrokeState)
  {
    StrokeState([], Sides([], Origin, [], Origin, Origin, Origin), Origin, Origin, Origin)
  }

  /** `join_thresh`, 2 tol / w. */
  function JoinThresh(style: Style, tol: real): (r: real)
  {
    Div(2.0 * tol, style.width)
  }

  /** A line from the last point to `p1` (`LineTo`, and the closing line
      of `ClosePath`): a join into its direction, then the line, whose
      direction becomes the last tangent. Nothing happens when `p1` is the
      last point. */
  function LineEl(m: MathLib, b: Backend, style: Style, tol: real, joinThresh: real, st: StrokeState, p1: Point): (r: StrokeState)
  {
    var p0 := st.lastPt;
    if p1 == p0 then st
    else
      var tan := Sub(p1, p0);
      var j := JoinStep(m, b, style, tol, joinThresh, st.sides, p0, st.lastTan, tan);
      st.(sides := LineStep(m, b, style.width, j, tan, p1), lastPt := p1, lastTan := tan)
  }

  /** A quadratic or cubic segment `c` from the last point (`QuadTo` raised
      to a cubic, and `CurveTo`) whose tangents are `tans`: a join into its
      start tangent, then `do_cubic` with the Euler segments `segs`, and the
      end tangent becomes the last tangent. */
  function CurveEl(m: MathLib, b: Backend, style: Style, tol: real, joinThresh: real, st: StrokeState,
                   c: Cubic, tans: (Point, Point), segs: seq<EulerSeg>): (r: StrokeState)
  {
    var j := JoinStep(m, b, style, tol, joinThresh, st.sides, st.lastPt, st.lastTan, tans.0);
    var cs := CubicSides(m, b, style.width, tol, joinThresh, c, j, st.lastPt, st.lastTan, segs);
    st.(sides := cs.0, lastPt := c.p3, lastTan := tans.1)
  }

  /** One element of the path; `segs` are the Euler segments the iterator
      produced for it (only a curve that is not nearly straight has any). */
  function ElStep(m: MathLib, b: Backend, style: Style, tol: real, joinThresh: real, st: StrokeState, el: PathEl, segs: seq<EulerSeg>): (r: StrokeState)
  {
    var p0 := st.lastPt;
    match el
    case MoveTo(p) =>
      var f := OpenFinish(m, b, style, tol, st.sides, st.lastPt, st.startPt);
      st.(out := st.out + f.0, sides := f.1, startPt := p, lastPt := p)
    case LineTo(p1) => LineEl(m, b, style, tol, joinThresh, st, p1)
    case QuadTo(p1, p2) =>
      if p1 == p0 && p2 == p0 then st
      else CurveEl(m, b, style, tol, joinThresh, st, Raise(p0, p1, p2), PathSegTangents(SegQuad(p0, p1, p2)), segs)
    case CurveTo(p1, p2, p3) =>
      if p1 == p0 && p2 == p0 && p3 == p0 then st
      else
        var c := Cubic(p0, p1, p2, p3);
        CurveEl(m, b, style, tol, joinThresh, st, c, PathSegTangents(SegCubic(c)), segs)
    case ClosePath =>
      var l := LineEl(m, b, style, tol, joinThresh, st, st.startPt);
      var k := ClosedFinish(m, b, style, tol, joinThresh, l.sides, l.lastPt, l.lastTan);
      l.(out := l.out + k.0, sides := k.1)
  }

  /** The elements in order, the i-th with the Euler segments `segs[i]`. */
  function StrokeFold(m: MathLib, b: Backend, style: Style, tol: real, st: StrokeState,
                      path: seq<PathEl>, segs: seq<seq<EulerSeg>>): (r: StrokeState)
    requires |segs| == |path|
  {
    if path == [] then st
    else
      var k := |path| - 1;
      ElStep(m, b, style, tol, JoinThresh(style, tol), StrokeFold(m, b, style, tol, st, path[..k], segs[..k]), path[k], segs[k])
  }

  /** `stroke_undashed`: the elements from the initial state, then a final
      `finish`. */
  function StrokeOutput(m: MathLib, b: Backend, style: Style, tol: real, path: seq<PathEl>, segs: seq<seq<EulerSeg>>): (r: seq<Prim>)
    requires |segs| == |path|
  {
    var st := StrokeFold(m, b, style, tol, InitState(), path, segs);
    st.out + OpenFinish(m, b, style, tol, st.sides, st.lastPt, st.startPt).0
  }

  /** The well-formedness the loop keeps: valid sides, and an output of
      the backend's kind. */
  ghost predicate StateValid(st: StrokeState, b: Backend)
  {
    SidesValid(st.sides, b) && AllBuiltBy(st.out, b)
  }

  lemma LineElValid(m: MathLib, b: Backend, style: Style, tol: real, joinThresh: real, st: StrokeState, p1: Point)
    requires StateValid(st, b)
    ensures var r := LineEl(m, b, style, tol, joinThresh, st, p1);
      StateValid(r, b) && r.out == st.out && r.startPt == st.startPt && r.lastPt == p1
  {
    hide JoinStep, LineStep;
    if p1 != st.lastPt {
      var tan := Sub(p1, st.lastPt);
      JoinStepValid(m, b, style, tol, joinThresh, st.sides, st.lastPt, st.lastTan, tan);
      LineStepValid(m, b, style.width, JoinStep(m, b, style, tol, joinThresh, st.sides, st.lastPt, st.lastTan, tan), tan, p1);
    }
  }

  lemma CurveElValid(m: MathLib, b: Backend, style: Style, tol: real, joinThresh: real, st: StrokeState,
                     c: Cubic, tans: (Point, Point), segs: seq<EulerSeg>)
    requires StateValid(st, b)
    ensures var r := CurveEl(m, b, style, tol, joinThresh, st, c, tans, segs);
      StateValid(r, b) && r.out == st.out && r.startPt == st.startPt
  {
    hide JoinStep, LinearSides, CubicStep;
    var j := JoinStep(m, b, style, tol, joinThresh, st.sides, st.lastPt, st.lastTan, tans.0);
    JoinStepValid(m, b, style, tol, joinThresh, st.sides, st.lastPt, st.lastTan, tans.0);
    match LinearTest(c, tol)
    case Some(lm) => LinearSidesValid(m, b, style.width, tol, joinThresh, c, lm, j, st.lastPt);
    case None => CubicStepValid(m, b, style.width, tol, j, segs);
  }

  /** Every element keeps the state valid. */
  lemma ElStepValid(m: MathLib, b: Backend, style: Style, tol: real, joinThresh: real, st: StrokeState, el: PathEl, segs: seq<EulerSeg>)
    requires StateValid(st, b)
    ensures StateValid(ElStep(m, b, style, tol, joinThresh, st, el, segs), b)
  {
    hide LineEl, CurveEl, OpenFinish, ClosedFinish, SidesValid;
    match el
    case MoveTo(p) =>
      OpenFinishValid(m, b, style, tol, st.sides, st.lastPt, st.startPt);
      AllBuiltByAppend(st.out, OpenFinish(m, b, style, tol, st.sides, st.lastPt, st.startPt).0, b);
    case LineTo(p1) => LineElValid(m, b, style, tol, joinThresh, st, p1);
    case QuadTo(p1, p2) =>
      CurveElValid(m, b, style, tol, joinThresh, st, Raise(st.lastPt, p1, p2), PathSegTangents(SegQuad(st.lastPt, p1, p2)), segs);
    case CurveTo(p1, p2, p3) =>
      var c := Cubic(st.lastPt, p1, p2, p3);
      CurveElValid(m, b, style, tol, joinThresh, st, c, PathSegTangents(SegCubic(c)), segs);
    case ClosePath =>
      var l := LineEl(m, b, style, tol, joinThresh, st, st.startPt);
      LineElValid(m, b, style, tol, joinThresh, st, st.startPt);
      ClosedFinishValid(m, b, style, tol, joinThresh, l.sides, l.lastPt, l.lastTan);
      AllBuiltByAppend(l.out, ClosedFinish(m, b, style, tol, joinThresh, l.sides, l.lastPt, l.lastTan).0, b);
  }

  lemma {:induction false} StrokeFoldValid(m: MathLib, b: Backend, style: Style, tol: real, st: StrokeState,
                                          path: seq<PathEl>, segs: seq<seq<EulerSeg>>)
    requires |segs| == |path| && StateValid(st, b)
    ensures StateValid(StrokeFold(m, b, style, tol, st, path, segs), b)
  {
    hide ElStep, StateValid;
    if path != [] {
      var k := |path| - 1;
      StrokeFoldValid(m, b, style, tol, st, path[..k], segs[..k]);
      ElStepValid(m, b, style, tol, JoinThresh(style, tol), StrokeFold(m, b, style, tol, st, path[..k], segs[..k]), path[k], segs[k]);
    }
  }

  /** The outline is made only of primitives of the backend's kind: lines
      for the line backend, arcs for the arc backend. */
  lemma StrokeOutputBuiltBy(m: MathLib, b: Backend, style: Style, tol: real, path: seq<PathEl>, segs: seq<seq<EulerSeg>>)
    requires |segs| == |path|
    ensures AllBuiltBy(StrokeOutput(m, b, style, tol, path, segs), b)
  {
    assert StateValid(InitState(), b);
    hide StrokeFold, OpenFinish, SidesValid;
    var st := StrokeFold(m, b, style, tol, InitState(), path, segs);
    StrokeFoldValid(m, b, style, tol, InitState(), path, segs);
    OpenFinishValid(m, b, style, tol, st.sides, st.lastPt, st.startPt);
    AllBuiltByAppend(st.out, OpenFinish(m, b, style, tol, st.sides, st.lastPt, st.startPt).0, b);
  }

  /** Nothing drawn and nothing pending, with the cursor at the subpath's
      start. */
  predicate Idle(st: StrokeState)
  {
    st.out == [] && st.sides.fwd == [] && st.lastPt == st.startPt
  }

  /** `MoveTo` and `ClosePath` on an idle state leave it idle. */
  lemma {:induction false} StrokeFoldIdle(m: MathLib, b: Backend, style: Style, tol: real, st: StrokeState,
                                         path: seq<PathEl>, segs: seq<seq<EulerSeg>>)
    requires |segs| == |path| && Idle(st)
    requires forall i :: 0 <= i < |path| ==> path[i].MoveTo? || path[i].ClosePath?
    ensures Idle(StrokeFold(m, b, style, tol, st, path, segs))
  {
    hide JoinStep, LineStep, CubicSides, FinishRun;
    if path != [] {
      var k := |path| - 1;
      StrokeFoldIdle(m, b, style, tol, st, path[..k], segs[..k]);
      var w := StrokeFold(m, b, style, tol, st, path[..k], segs[..k]);
      assert w.out + [] == w.out;
    }
  }

  /** A path of nothing but `MoveTo` and `ClosePath` strokes to nothing. */
  lemma StrokeOutputNoDrawing(m: MathLib, b: Backend, style: Style, tol: real, path: seq<PathEl>, segs: seq<seq<EulerSeg>>)
    requires |segs| == |path|
    requires forall i :: 0 <= i < |path| ==> path[i].MoveTo? || path[i].ClosePath?
    ensures StrokeOutput(m, b, style, tol, path, segs) == []
  {
    hide StrokeFold;
    StrokeFoldIdle(m, b, style, tol, InitState(), path, segs);
  }

  /** An open one-line subpath from p to q with butt caps is stroked as the
      rectangle p - n, q - n, q + n, p + n, closed back to p - n, where n is
      the normal of half the width to q - p: the forward side, the end cap,
      the backward side reversed and the start cap. */
  lemma LineStrokeIsRectangle(m: MathLib, b: Backend, style: Style, tol: real, p: Point, q: Point)
    requires p != q && style.startCap == ButtCap && style.endCap == ButtCap
    ensures var n := Norm(m, style.width, Sub(q, p));
      StrokeOutput(m, b, style, tol, [MoveTo(p), LineTo(q)], [[], []])
        == [MakeLine(b, Sub(p, n), Sub(q, n)), MakeLine(b, Sub(q, n), Add(q, n)),
            MakeLine(b, Add(q, n), Add(p, n)), MakeLine(b, Add(p, n), Sub(p, n))]
  {
    hide Norm, ElStep, OpenFinish;
    var path: seq<PathEl> := [MoveTo(p), LineTo(q)];
    var segs: seq<seq<EulerSeg>> := [[], []];
    var st1 := InitState().(startPt := p, lastPt := p);
    assert path[..1] == [MoveTo(p)] && segs[..1] == [[]];
    assert path[..1][..0] == [] && segs[..1][..0] == [];
    FirstMove(m, b, style, tol, p);
    assert StrokeFold(m, b, style, tol, InitState(), path[..1], segs[..1]) == st1;
    var st2 := LineFromStart(m, b, style, tol, p, q);
    RectangleFinish(m, b, style, tol, p, q);
  }

  /** The first `MoveTo` only sets the start and the last point. */
  lemma FirstMove(m: MathLib, b: Backend, style: Style, tol: real, p: Point)
    ensures ElStep(m, b, style, tol, JoinThresh(style, tol), InitState(), MoveTo(p), []) == InitState().(startPt := p, lastPt := p)
  {
  }

  /** The first line of a subpath: one line on each side, half a width
      either side, with its normal and direction recorded as the start. */
  lemma LineFromStart(m: MathLib, b: Backend, style: Style, tol: real, p: Point, q: Point) returns (st2: StrokeState)
    requires p != q
    ensures var n := Norm(m, style.width, Sub(q, p));
      && st2 == ElStep(m, b, style, tol, JoinThresh(style, tol), InitState().(startPt := p, lastPt := p), LineTo(q), [])
      && st2.out == [] && st2.startPt == p && st2.lastPt == q
      && st2.sides == Sides([MakeLine(b, Sub(p, n), Sub(q, n))], Sub(q, n), [MakeLine(b, Add(p, n), Add(q, n))], Add(q, n), n, Sub(q, p))
  {
    hide Norm;
    st2 := ElStep(m, b, style, tol, JoinThresh(style, tol), InitState().(startPt := p, lastPt := p), LineTo(q), []);
  }

  /** `finish` on the sides of one line, with butt caps: the forward line,
      the end cap across, the backward line reversed and the start cap
      back. */
  lemma RectangleFinish(m: MathLib, b: Backend, style: Style, tol: real, p: Point, q: Point)
    requires style.startCap == ButtCap && style.endCap == ButtCap
    ensures var n := Norm(m, style.width, Sub(q, p));
      var sides := Sides([MakeLine(b, Sub(p, n), Sub(q, n))], Sub(q, n), [MakeLine(b, Add(p, n), Add(q, n))], Add(q, n), n, Sub(q, p));
      OpenFinish(m, b, style, tol, sides, q, p).0
        == [MakeLine(b, Sub(p, n), Sub(q, n)), MakeLine(b, Sub(q, n), Add(q, n)),
            MakeLine(b, Add(q, n), Add(p, n)), MakeLine(b, Add(p, n), Sub(p, n))]
  {
    hide Norm;
    var n := Norm(m, style.width, Sub(q, p));
    assert Sub(q, Sub(q, Add(q, n))) == Add(q, n);
    assert ReversedAll([MakeLine(b, Add(p, n), Add(q, n))]) == [MakeLine(b, Add(p, n), Add(q, n)).Reverse()];
    ReverseInvolution(MakeLine(b, Add(p, n), Add(q, n)), b, Add(p, n), Add(q, n));
  }

  // ---------------------------------------------------------------------
  // `StrokeCtx`

  /** The stroker's state: the output, the two sides of the current
      subpath, the start and the last point and tangent. */
  class StrokeCtx {
    const backend: Backend
    const output: LoweredPath
    const forwardPath: LoweredPath
    const backwardPath: LoweredPath
    const tolerance: real
    /** 2 tol / w: a join whose turn is below it is left out. */
    const joinThresh: real
    var startPt: Point
    var startNorm: Point
    var startTan: Point
    var lastPt: Point
    var lastTan: Point

    /** The two sides and the recorded start. */
    function Snapshot(): Sides
      reads this, forwardPath, backwardPath
    {
      Sides(forwardPath.path, forwardPath.lastPt, backwardPath.path, backwardPath.lastPt, startNorm, startTan)
    }

    /** The three paths are distinct and of the context's backend, the
        output is of the backend's kind, and the sides are valid. */
    ghost predicate Valid()
      reads this, output, forwardPath, backwardPath
    {
      && output != forwardPath && output != backwardPath && forwardPath != backwardPath
      && output.backend == backend && forwardPath.backend == backend && backwardPath.backend == backend
      && AllBuiltBy(output.path, backend)
      && SidesValid(Snapshot(), backend)
    }

    /** The context `stroke_undashed` starts from: all paths empty, all
        points and vectors zero. */
    constructor(backend: Backend, width: real, tolerance: real)
      ensures Valid() && fresh(output) && fresh(forwardPath) && fresh(backwardPath)
      ensures this.backend == backend && this.tolerance == tolerance && joinThresh == Div(2.0 * tolerance, width)
      ensures output.path == [] && output.lastPt == Origin
      ensures Snapshot() == Sides([], Origin, [], Origin, Origin, Origin)
      ensures startPt == Origin && lastPt == Origin && lastTan == Origin
    {
      this.backend := backend;
      this.tolerance := tolerance;
      joinThresh := Div(2.0 * tolerance, width);
      output := new LoweredPath(backend);
      forwardPath := new LoweredPath(backend);
      backwardPath := new LoweredPath(backend);
      startPt, startNorm, startTan := Origin, Origin, Origin;
      lastPt, lastTan := Origin, Origin;
    }

    /** `do_join`. */
    method DoJoin(m: MathLib, style: Style, tan0: Point)
      requires Valid()
      modifies this, forwardPath, backwardPath
      ensures Valid()
      ensures Snapshot() == JoinStep(m, backend, style, tolerance, joinThresh, old(Snapshot()), old(lastPt), old(lastTan), tan0)
      ensures startPt == old(startPt) && lastPt == old(lastPt) && lastTan == old(lastTan)
    {
      var norm := Norm(m, style.width, tan0);
      var p0 := lastPt;
      JoinStepValid(m, backend, style, tolerance, joinThresh, Snapshot(), p0, lastTan, tan0);
      if forwardPath.path == [] {
        forwardPath.MoveTo(Sub(p0, norm));
        backwardPath.MoveTo(Add(p0, norm));
        startTan := tan0;
        startNorm := norm;
      } else {
        JoinSides(m, style, tan0, norm);
      }
    }

    /** The branch of `do_join` for nonempty sides. */
    method JoinSides(m: MathLib, style: Style, tan0: Point, norm: Point)
      requires Valid() && norm == Norm(m, style.width, tan0)
      modifies forwardPath, backwardPath
      ensures var added := JoinAdded(m, backend, style, tolerance, joinThresh, lastTan, tan0, lastPt, old(forwardPath.lastPt), old(backwardPath.lastPt));
        && forwardPath.path == old(forwardPath.path) + added.0
        && backwardPath.path == old(backwardPath.path) + added.1
      ensures JoinElided(m, lastTan, tan0, joinThresh) ==>
        forwardPath.lastPt == old(forwardPath.lastPt) && backwardPath.lastPt == old(backwardPath.lastPt)
      ensures !JoinElided(m, lastTan, tan0, joinThresh) ==>
        forwardPath.lastPt == Sub(lastPt, norm) && backwardPath.lastPt == Add(lastPt, norm)
    {
      hide ArcPrims, Norm;
      var p0 := lastPt;
      var ab, cd := lastTan, tan0;
      var cross, dot := Cross(ab, cd), Dot(ab, cd);
      var hypot := m.hypot(cross, dot);
      if dot <= 0.0 || Abs(cross) >= hypot * joinThresh {
        match style.join
        case BevelJoin =>
          forwardPath.LineTo(Sub(p0, norm));
          backwardPath.LineTo(Add(p0, norm));
        case MiterJoin =>
          MiterSides(m, style, tan0, norm);
        case RoundJoin =>
          var angle := m.atan2(cross, dot);
          if angle > 0.0 {
            backwardPath.LineTo(Add(p0, norm));
            RoundJoinTo(forwardPath, m, tolerance, p0, norm, angle);
          } else {
            forwardPath.LineTo(Sub(p0, norm));
            RoundJoinTo(backwardPath, m, tolerance, p0, Neg(norm), angle);
            assert Sub(p0, Neg(norm)) == Add(p0, norm);
          }
      }
    }

    /** The miter join of `do_join`: the miter point on the outer side when
        the miter fits the limit, then a line to p0 -/+ norm on each side. */
    method MiterSides(m: MathLib, style: Style, tan0: Point, norm: Point)
      requires Valid() && norm == Norm(m, style.width, tan0)
      requires style.join == MiterJoin && !JoinElided(m, lastTan, tan0, joinThresh)
      modifies forwardPath, backwardPath
      ensures var added := JoinAdded(m, backend, style, tolerance, joinThresh, lastTan, tan0, lastPt, old(forwardPath.lastPt), old(backwardPath.lastPt));
        && forwardPath.path == old(forwardPath.path) + added.0
        && backwardPath.path == old(backwardPath.path) + added.1
      ensures forwardPath.lastPt == Sub(lastPt, norm) && backwardPath.lastPt == Add(lastPt, norm)
    {
      hide Norm, LinesThrough;
      var p0 := lastPt;
      var ab, cd := lastTan, tan0;
      var cross, dot := Cross(ab, cd), Dot(ab, cd);
      var hypot := m.hypot(cross, dot);
      ghost var fLast, bLast := forwardPath.lastPt, backwardPath.lastPt;
      if 2.0 * hypot < (hypot + dot) * Powi(style.miterLimit, 2) {
        var lastNorm := Norm(m, style.width, ab);
        if cross > 0.0 {
          var fpLast, fpThis := Sub(p0, lastNorm), Sub(p0, norm);
          var h := Cross(ab, Sub(fpThis, fpLast)) / cross;
          var miterPt := Sub(fpThis, Scale(cd, h));
          assert miterPt == MiterPoint(ab, cd, fpLast, fpThis);
          forwardPath.LineTo(miterPt);
          LinesThroughTwo(backend, fLast, miterPt, Sub(p0, norm));
        } else if cross < 0.0 {
          var fpLast, fpThis := Add(p0, lastNorm), Add(p0, norm);
          var h := Cross(ab, Sub(fpThis, fpLast)) / cross;
          var miterPt := Sub(fpThis, Scale(cd, h));
          assert miterPt == MiterPoint(ab, cd, fpLast, fpThis);
          backwardPath.LineTo(miterPt);
          LinesThroughTwo(backend, bLast, miterPt, Add(p0, norm));
        }
      }
      forwardPath.LineTo(Sub(p0, norm));
      backwardPath.LineTo(Add(p0, norm));
    }

    /** `do_line`. */
    method DoLine(m: MathLib, style: Style, tangent: Point, p1: Point)
      requires Valid()
      modifies this, forwardPath, backwardPath
      ensures Valid()
      ensures Snapshot() == LineStep(m, backend, style.width, old(Snapshot()), tangent, p1)
      ensures lastPt == p1 && startPt == old(startPt) && lastTan == old(lastTan)
    {
      var norm := Norm(m, style.width, tangent);
      LineStepValid(m, backend, style.width, Snapshot(), tangent, p1);
      forwardPath.LineTo(Sub(p1, norm));
      backwardPath.LineTo(Add(p1, norm));
      lastPt := p1;
    }

    /** `do_linear`: a round-joined polyline through the cusps of the
        projected cubic to its end point, then a round join into the
        cubic's end tangent. */
    method DoLinear(m: MathLib, style: Style, c: Cubic, lm: LinearMap)
      requires Valid()
      modifies this, forwardPath, backwardPath
      ensures Valid()
      ensures (Snapshot(), lastTan) == LinearSides(m, backend, style.width, tolerance, joinThresh, c, lm, old(Snapshot()), old(lastPt))
      ensures lastPt == c.p3 && startPt == old(startPt)
    {
      hide WalkStep, LinearWalk, CuspFilter, SidesValid, AllBuiltBy, PathSegTangents;
      var rstyle := RoundStyle(style.width);
      var tans := PathSegTangents(SegCubic(c));
      lastTan := tans.0;
      ghost var st0 := (Snapshot(), lastPt, lastTan);
      var c0 := lm.q1 - lm.q0;
      var c1 := 2.0 * lm.q2 - 4.0 * lm.q1 + 2.0 * lm.q0;
      var c2 := lm.q3 - 3.0 * lm.q2 + 3.0 * lm.q1 - lm.q0;
      var roots := m.solveQuadratic(c0, c1, c2);
      LinearWalkNoRoots(m, backend, style.width, tolerance, joinThresh, lm, st0, roots);
      for i := 0 to |roots|
        invariant Valid() && startPt == old(startPt)
        invariant (Snapshot(), lastPt, lastTan) == LinearWalk(m, backend, style.width, tolerance, joinThresh, lm, st0, CuspFilter(roots[..i]))
      {
        var t := roots[i];
        LinearWalkSnocRoot(m, backend, style.width, tolerance, joinThresh, lm, st0, roots, i);
        if CUSP_EPS < t < 1.0 - CUSP_EPS {
          var p := CuspPoint(lm, t);
          Vertex(m, style.width, p);
        }
      }
      assert roots[..|roots|] == roots;
      assert CuspTs(m, lm) == CuspFilter(roots);
      assert st0 == (old(Snapshot()), old(lastPt), tans.0);
      Vertex(m, style.width, c.p3);
      ghost var w := (Snapshot(), lastPt, lastTan);
      DoJoin(m, rstyle, tans.1);
      assert Snapshot() == JoinStep(m, backend, rstyle, tolerance, joinThresh, w.0, c.p3, w.2, tans.1);
    }

    /** One vertex of `do_linear`: a round join into the direction from the
        last point to `p`, then a line to `p`, whose direction becomes the
        last tangent. */
    method Vertex(m: MathLib, width: real, p: Point)
      requires Valid()
      modifies this, forwardPath, backwardPath
      ensures Valid() && startPt == old(startPt)
      ensures (Snapshot(), lastPt, lastTan) == WalkStep(m, backend, width, tolerance, joinThresh, old((Snapshot(), lastPt, lastTan)), p)
      ensures lastPt == p
    {
      hide JoinStep, LineStep, SidesValid, AllBuiltBy;
      var rstyle := RoundStyle(width);
      var tan := Sub(p, lastPt);
      DoJoin(m, rstyle, tan);
      DoLine(m, rstyle, tan, p);
      lastTan := tan;
    }

    /** `do_cubic`: a cubic that passes the linear test goes to
        `do_linear`; any other is split into Euler segments, each lowered
        onto both sides. The loop takes at most `fuel` segments and hands
        `fuel` to each `next`; `segs` are the segments lowered, and `ok`
        says nothing faulted: the nearly straight branch cannot fault, and
        the Euler branch is `ok` when the iterator ran to its end, in which
        case the segments chain from the cubic's start to its end. */
    method DoCubic(m: MathLib, style: Style, c: Cubic, fuel: nat) returns (ghost segs: seq<EulerSeg>, ok: bool)
      requires Valid()
      modifies this, forwardPath, backwardPath
      ensures Valid()
      ensures (Snapshot(), lastTan) == CubicSides(m, backend, style.width, tolerance, joinThresh, c, old(Snapshot()), old(lastPt), old(lastTan), segs)
      ensures lastPt == c.p3 && startPt == old(startPt)
      ensures LinearTest(c, tolerance).Some? ==> segs == [] && ok
      ensures ok ==> CurveSegsOk(m, c, tolerance, segs)
    {
      match LinearTest(c, tolerance)
      case Some(lm) =>
        segs, ok := [], true;
        DoLinear(m, style, c, lm);
      case None =>
        ghost var qs, ts;
        segs, qs, ts, ok := LowerCubic(m, style, c, fuel);
        assert ok ==> TestedPieces(m, c, tolerance, F64, segs, qs, ts);
    }

    /** The Euler branch of `do_cubic`: each segment the iterator emits is
        lowered onto the forward side at offset -w/2 and onto the backward
        side at +w/2, and the last point becomes the cubic's end point.
        `complete` says the iterator ran to its end (it returned `None`);
        it is false when `next` faulted (`Diverged`, `Overflow`), ran out of
        fuel, or the segment count reached `fuel`. Every segment lowered is
        one the iterator emitted, a tested piece of `c` whose parameters and
        derivatives are `ts` and `qs`. A complete iteration lowers at least
        one segment, its segments chain from the cubic's start to its end,
        and the last of them ends at parameter 1. */
    method LowerCubic(m: MathLib, style: Style, c: Cubic, fuel: nat)
      returns (ghost segs: seq<EulerSeg>, ghost qs: seq<Point>, ghost ts: seq<real>, complete: bool)
      requires Valid()
      modifies this, forwardPath, backwardPath
      ensures Valid()
      ensures Snapshot() == CubicStep(m, backend, style.width, tolerance, old(Snapshot()), segs)
      ensures lastPt == c.p3 && startPt == old(startPt) && lastTan == old(lastTan)
      ensures TestedPieces(m, c, tolerance, F64, segs, qs, ts)
      ensures complete ==> segs != [] && SegsChain(segs, c.p0, c.p3) && ts[|segs|] == 1.0
    {
      hide CubicStep, EspcLowered, SidesValid, AllBuiltBy, TestedPieces, TestedPiece;
      segs, complete := [], false;
      ghost var s0 := Snapshot();
      var it := new CubicToEulerIter(c, tolerance, F64);
      qs, ts := [it.lastQ], [it.lastT];
      TestedPiecesStart(m, c, tolerance, F64);
      var steps := fuel;
      CubicStepValid(m, backend, style.width, tolerance, s0, segs);
      assert SidesValid(s0, backend);
      while steps > 0
        invariant Valid() && startPt == old(startPt) && lastTan == old(lastTan)
        invariant it.Valid() && it.c == c && it.tolerance == tolerance && it.prec == F64
        invariant !complete && SidesValid(s0, backend)
        invariant Snapshot() == CubicStep(m, backend, style.width, tolerance, s0, segs)
        invariant SegsChain(segs, c.p0, it.lastP)
        invariant segs == [] ==> it.Start() == 0.0
        invariant TestedPieces(m, c, tolerance, F64, segs, qs, ts)
        invariant |qs| == |segs| + 1 && |ts| == |segs| + 1
        invariant qs[|segs|] == it.lastQ && ts[|segs|] == it.lastT
        decreases steps
      {
        steps := steps - 1;
        ghost var p0, q0, t, start := it.lastP, it.lastQ, it.lastT, it.Start();
        var r := it.Next(m, fuel);
        if !r.Emit? {
          if r.Done? {
            it.AtEnd();
            FracOne(it.t0, it.j);
            complete := true;
          }
          break;
        }
        it.EmittedPiece(m, r, p0, q0, t, start);
        TestedPiecesSnoc(m, c, tolerance, F64, segs, qs, ts, r.seg, it.lastQ, it.lastT);
        SegsChainSnoc(segs, c.p0, r.seg);
        StepSeg(m, style.width, r.seg, s0, segs);
        segs, qs, ts := segs + [r.seg], qs + [it.lastQ], ts + [it.lastT];
      }
      lastPt := c.p3;
    }

    /** One more segment of `do_cubic` on the sides `s0` already carrying
        `segs`. */
    method StepSeg(m: MathLib, width: real, seg: EulerSeg, ghost s0: Sides, ghost segs: seq<EulerSeg>)
      requires Valid() && SidesValid(s0, backend) && Snapshot() == CubicStep(m, backend, width, tolerance, s0, segs)
      modifies forwardPath, backwardPath
      ensures Valid() && Snapshot() == CubicStep(m, backend, width, tolerance, s0, segs + [seg])
    {
      hide CubicStep, EspcLowered, SidesValid, AllBuiltBy;
      CubicStepValid(m, backend, width, tolerance, s0, segs);
      CubicStepSnoc(m, backend, width, tolerance, s0, segs, seg);
      CubicStepValid(m, backend, width, tolerance, s0, segs + [seg]);
      LowerSeg(m, width, seg);
    }

    /** The body of the segment loop of `do_cubic`: the segment is lowered
        onto the forward side at offset -w/2 and onto the backward side at
        +w/2. */
    method LowerSeg(m: MathLib, width: real, seg: EulerSeg)
      requires forwardPath != backwardPath && forwardPath.backend == backend && backwardPath.backend == backend
      modifies forwardPath, backwardPath
      ensures var f := EspcLowered(m, backend, seg, -0.5 * width, tolerance, old(forwardPath.path), old(forwardPath.lastPt));
        var k := EspcLowered(m, backend, seg, 0.5 * width, tolerance, old(backwardPath.path), old(backwardPath.lastPt));
        Snapshot() == Sides(f.0, f.1, k.0, k.1, startNorm, startTan)
    {
      hide EspcLowered;
      forwardPath.LowerEspc(m, seg, -0.5 * width, tolerance);
      backwardPath.LowerEspc(m, seg, 0.5 * width, tolerance);
    }

    /** `finish`. */
    method Finish(m: MathLib, style: Style)
      requires Valid()
      modifies output, forwardPath, backwardPath
      ensures Valid()
      ensures var f := OpenFinish(m, backend, style, tolerance, old(Snapshot()), lastPt, startPt);
        output.path == old(output.path) + f.0 && Snapshot() == f.1
      ensures output.lastPt == if old(forwardPath.path) == [] then old(output.lastPt) else Sub(startPt, startNorm)
    {
      if forwardPath.path == [] {
        return;
      }
      ghost var s := Snapshot();
      ghost var before := output.path;
      OpenFinishValid(m, backend, style, tolerance, s, lastPt, startPt);
      hide FinishRun, AllBuiltBy, SidesValid;
      FinishRunTo(m, style);
      forwardPath.path := [];
      backwardPath.path := [];
      AllBuiltByAppend(before, FinishRun(m, backend, style, tolerance, s.fwd, s.fLast, s.bwd, s.bLast, lastPt, startPt, s.startNorm), backend);
    }

    /** The output part of `finish` on non-empty sides: the forward side,
        the end cap, the backward side reversed and the start cap. */
    method FinishRunTo(m: MathLib, style: Style)
      requires output != forwardPath && output != backwardPath && forwardPath.path != []
      requires output.backend == backend
      modifies output
      ensures output.path == old(output.path)
        + FinishRun(m, backend, style, tolerance, forwardPath.path, forwardPath.lastPt, backwardPath.path, backwardPath.lastPt, lastPt, startPt, startNorm)
      ensures output.lastPt == Sub(startPt, startNorm)
    {
      hide CapPrims, ReversedAll, FinishRun;
      ghost var before := output.path;
      ghost var body := FinishBody(m, style);
      ghost var mid := output.lastPt;
      CapTo(output, m, style.startCap, tolerance, startPt, startNorm);
      assert output.path == before + body + CapPrims(m, backend, style.startCap, tolerance, mid, startPt, startNorm);
      FinishRunUnfold(m, backend, style, tolerance, forwardPath.path, forwardPath.lastPt, backwardPath.path, backwardPath.lastPt, lastPt, startPt, startNorm);
    }

    /** The part of `finish` before the start cap: the forward side, the
        end cap and the backward side reversed go to the output, whose
        cursor moves to the last end point. */
    method FinishBody(m: MathLib, style: Style) returns (ghost body: seq<Prim>)
      requires output != forwardPath && output != backwardPath && forwardPath.path != []
      requires output.backend == backend
      modifies output
      ensures body == forwardPath.path
        + CapPrims(m, backend, style.endCap, tolerance, forwardPath.lastPt, lastPt, Sub(lastPt, backwardPath.lastPt))
        + ReversedAll(backwardPath.path)
      ensures output.path == old(output.path) + body && body != []
      ensures output.lastPt == body[|body| - 1].EndPoint()
    {
      hide CapPrims, ReversedAll;
      ghost var before := output.path;
      output.path := output.path + forwardPath.path;
      output.lastPt := forwardPath.lastPt;
      EndCapTo(m, style.endCap);
      PushReversed(output, backwardPath.path);
      body := forwardPath.path
        + CapPrims(m, backend, style.endCap, tolerance, forwardPath.lastPt, lastPt, Sub(lastPt, backwardPath.lastPt))
        + ReversedAll(backwardPath.path);
      assert output.path == before + body;
      output.lastPt := output.path[|output.path| - 1].EndPoint();
    }

    /** The end cap of `finish`, from the forward cursor around `lastPt`
        to the backward cursor. */
    method EndCapTo(m: MathLib, cap: Cap)
      requires output != backwardPath && output.backend == backend
      modifies output
      ensures var returnP := backwardPath.lastPt;
        output.path == old(output.path) + CapPrims(m, backend, cap, tolerance, old(output.lastPt), lastPt, Sub(lastPt, returnP))
      ensures output.lastPt == backwardPath.lastPt
    {
      var returnP := backwardPath.lastPt;
      var d := Sub(lastPt, returnP);
      assert Sub(lastPt, d) == returnP;
      if cap == ButtCap {
        output.LineTo(returnP);
      } else {
        CapTo(output, m, cap, tolerance, lastPt, d);
      }
    }

    /** `finish_closed`. */
    method FinishClosed(m: MathLib, style: Style)
      requires Valid()
      modifies this, output, forwardPath, backwardPath
      ensures Valid()
      ensures var f := ClosedFinish(m, backend, style, tolerance, joinThresh, old(Snapshot()), lastPt, lastTan);
        output.path == old(output.path) + f.0 && Snapshot() == f.1
      ensures output.lastPt == old(output.lastPt)
      ensures startPt == old(startPt) && lastPt == old(lastPt) && lastTan == old(lastTan)
    {
      if forwardPath.path == [] {
        return;
      }
      ghost var s := Snapshot();
      ghost var before := output.path;
      ClosedFinishValid(m, backend, style, tolerance, joinThresh, s, lastPt, lastTan);
      hide JoinStep, ClosedRun, ReversedAll, AllBuiltBy, SidesValid;
      DoJoin(m, style, startTan);
      ghost var j := Snapshot();
      output.path := output.path + forwardPath.path;
      PushReversed(output, backwardPath.path);
      forwardPath.path := [];
      backwardPath.path := [];
      assert output.path == before + ClosedRun(j.fwd, j.bwd) by {
        ClosedRunUnfold(j.fwd, j.bwd);
      }
      AllBuiltByAppend(before, ClosedRun(j.fwd, j.bwd), backend);
    }

    /** The state the element loop reads and writes. */
    function State(): StrokeState
      reads this, output, forwardPath, backwardPath
    {
      StrokeState(output.path, Snapshot(), startPt, lastPt, lastTan)
    }

    /** The `MoveTo` arm: finish the subpath, then start a new one at `p`. */
    method MoveToEl(m: MathLib, style: Style, p: Point)
      requires Valid()
      modifies this, output, forwardPath, backwardPath
      ensures Valid() && State() == ElStep(m, backend, style, tolerance, joinThresh, old(State()), MoveTo(p), [])
    {
      hide OpenFinish, SidesValid, AllBuiltBy;
      Finish(m, style);
      startPt := p;
      lastPt := p;
    }

    /** The `LineTo` arm, and the closing line of the `ClosePath` arm. */
    method LineToEl(m: MathLib, style: Style, p1: Point)
      requires Valid()
      modifies this, forwardPath, backwardPath
      ensures Valid() && State() == LineEl(m, backend, style, tolerance, joinThresh, old(State()), p1)
    {
      hide JoinStep, LineStep, SidesValid, AllBuiltBy;
      var p0 := lastPt;
      if p1 != p0 {
        var tangent := Sub(p1, p0);
        DoJoin(m, style, tangent);
        lastTan := tangent;
        DoLine(m, style, tangent, p1);
      }
    }

    /** The `QuadTo` and `CurveTo` arms for the (raised) cubic `c` with the
        tangents `tans`. */
    method CurveToEl(m: MathLib, style: Style, c: Cubic, tans: (Point, Point), fuel: nat) returns (ghost segs: seq<EulerSeg>, ok: bool)
      requires Valid() && c.p0 == lastPt
      modifies this, forwardPath, backwardPath
      ensures Valid() && State() == CurveEl(m, backend, style, tolerance, joinThresh, old(State()), c, tans, segs)
      ensures LinearTest(c, tolerance).Some? ==> segs == [] && ok
      ensures ok ==> CurveSegsOk(m, c, tolerance, segs)
    {
      hide JoinStep, CubicSides, SidesValid, AllBuiltBy, CurveSegsOk, LinearTest;
      DoJoin(m, style, tans.0);
      segs, ok := DoCubic(m, style, c, fuel);
      lastTan := tans.1;
    }

    /** The `ClosePath` arm: a closing line back to the start when the last
        point is elsewhere, then `finish_closed`. */
    method ClosePathEl(m: MathLib, style: Style)
      requires Valid()
      modifies this, output, forwardPath, backwardPath
      ensures Valid() && State() == ElStep(m, backend, style, tolerance, joinThresh, old(State()), ClosePath, [])
    {
      hide LineEl, ClosedFinish, SidesValid, AllBuiltBy;
      LineToEl(m, style, startPt);
      FinishClosed(m, style);
    }

    /** One element of the loop of `stroke_undashed`; `segs` are the Euler
        segments lowered for it, and `ok` is false exactly when it is a curve
        whose segment iteration did not run to its end, where the source
        panics or does not return. */
    method StrokeEl(m: MathLib, style: Style, el: PathEl, fuel: nat) returns (ghost segs: seq<EulerSeg>, ok: bool)
      requires Valid()
      modifies this, output, forwardPath, backwardPath
      ensures Valid() && State() == ElStep(m, backend, style, tolerance, joinThresh, old(State()), el, segs)
      ensures ok ==> ElSegsOk(m, old(lastPt), el, tolerance, segs)
      ensures !ok ==> el.QuadTo? || el.CurveTo?
    {
      hide LineEl, CurveEl, OpenFinish, ClosedFinish, SidesValid, AllBuiltBy, PathSegTangents, Raise, CurveSegsOk;
      var p0 := lastPt;
      segs, ok := [], true;
      match el
      case MoveTo(p) =>
        MoveToEl(m, style, p);
      case LineTo(p1) =>
        LineToEl(m, style, p1);
      case QuadTo(p1, p2) =>
        if p1 != p0 || p2 != p0 {
          var tans := PathSegTangents(SegQuad(p0, p1, p2));
          var q := Raise(p0, p1, p2);
          assert q.p0 == p0 && q.p3 == p2;
          segs, ok := CurveToEl(m, style, q, tans, fuel);
        }
      case CurveTo(p1, p2, p3) =>
        if p1 != p0 || p2 != p0 || p3 != p0 {
          var c := Cubic(p0, p1, p2, p3);
          var tans := PathSegTangents(SegCubic(c));
          segs, ok := CurveToEl(m, style, c, tans, fuel);
        }
      case ClosePath =>
        ClosePathEl(m, style);
    }
  }

  /** `segs` are the Euler segments lowered for the elements of `path`, one
      entry per element, each as `ElSegsOk` says for the element drawn from
      the last point reached by the elements before it, and `out` is the
      outline they give. */
  ghost predicate StrokedWith(m: MathLib, backend: Backend, style: Style, tolerance: real, path: seq<PathEl>, segs: seq<seq<EulerSeg>>, out: seq<Prim>)
  {
    && |segs| == |path|
    && out == StrokeOutput(m, backend, style, tolerance, path, segs)
    && forall i :: 0 <= i < |path| ==>
         ElSegsOk(m, StrokeFold(m, backend, style, tolerance, InitState(), path[..i], segs[..i]).lastPt, path[i], tolerance, segs[i])
  }

  /** `stroke_undashed`: the outline of `path`, of the backend's kind, or
      `None` when the Euler iteration of a curve did not run to its end,
      where the source panics (`Diverged`, `Overflow`) or does not return.
      Each curve's iteration takes at most `fuel` segments and `fuel`
      attempts per segment; `segs[i]` are the Euler segments lowered for the
      i-th element, and on `None` the elements lowered up to the one that
      faulted, which is a curve. */
  method StrokeUndashed(m: MathLib, backend: Backend, path: seq<PathEl>, style: Style, tolerance: real, fuel: nat)
    returns (r: Option<seq<Prim>>, ghost segs: seq<seq<EulerSeg>>)
    ensures r.Some? ==> StrokedWith(m, backend, style, tolerance, path, segs, r.value) && AllBuiltBy(r.value, backend)
    ensures r.None? ==> |segs| < |path| && (path[|segs|].QuadTo? || path[|segs|].CurveTo?)
    ensures |segs| <= |path| && forall i :: 0 <= i < |segs| ==>
      ElSegsOk(m, StrokeFold(m, backend, style, tolerance, InitState(), path[..i], segs[..i]).lastPt, path[i], tolerance, segs[i])
  {
    hide ElStep, OpenFinish, SidesValid, AllBuiltBy, ElSegsOk;
    var ctx := new StrokeCtx(backend, style.width, tolerance);
    segs := [];
    assert path[..0] == [];
    for i := 0 to |path|
      invariant ctx.Valid() && ctx.backend == backend && ctx.tolerance == tolerance && ctx.joinThresh == JoinThresh(style, tolerance)
      invariant fresh(ctx) && fresh(ctx.output) && fresh(ctx.forwardPath) && fresh(ctx.backwardPath)
      invariant |segs| == i && ctx.State() == StrokeFold(m, backend, style, tolerance, InitState(), path[..i], segs)
      invariant forall j :: 0 <= j < i ==>
        ElSegsOk(m, StrokeFold(m, backend, style, tolerance, InitState(), path[..j], segs[..j]).lastPt, path[j], tolerance, segs[j])
    {
      var s, ok := ctx.StrokeEl(m, style, path[i], fuel);
      if !ok {
        return None, segs;
      }
      assert path[..i + 1][..i] == path[..i] && (segs + [s])[..i] == segs;
      assert forall j :: 0 <= j <= i ==> (segs + [s])[..j] == segs[..j];
      segs := segs + [s];
    }
    assert path[..|path|] == path;
    ghost var st := ctx.State();
    ctx.Finish(m, style);
    var out := ctx.output.path;
    assert out == st.out + OpenFinish(m, backend, style, tolerance, st.sides, st.lastPt, st.startPt).0;
    StrokeOutputBuiltBy(m, backend, style, tolerance, path, segs);
    r := Some(out);
  }
}
