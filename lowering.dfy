/**
 * The two lowerings of the stroker (the `Lowering` implementations of
 * stroke.rs): an outline is built either from straight lines or from
 * circular arc segments. A `LoweredPath` holds the primitives pushed so far
 * and a cursor, the point the next `line_to` starts from.
 */
module Lowering {
  import opened Numeric
  import opened Geom
  import opened Euler
  import opened ArcSegments
  import opened Flatten

  /** Which `Lowering` implementation a path is built with. */
  datatype Backend = Lines | Arcs

  /** One lowered primitive: a kurbo `Line` or an `ArcSegment`. */
  datatype Prim = Line(p0: Point, p1: Point) | Arc(arc: ArcSegment)
  {
    function StartPoint(): Point
    {
      match this
      case Line(p0, _) => p0
      case Arc(a) => a.p0
    }

    /** `end_point`. */
    function EndPoint(): Point
    {
      match this
      case Line(_, p1) => p1
      case Arc(a) => a.p1
    }

    /** `reverse`: a line swaps its ends; an arc swaps its ends and turns
        the other way. */
    function Reverse(): (r: Prim)
      ensures r.StartPoint() == EndPoint() && r.EndPoint() == StartPoint()
      ensures r.Line? == Line?
    {
      match this
      case Line(p0, p1) => Line(p1, p0)
      case Arc(a) => Arc(ArcSegments.Reverse(a))
    }

    /** The primitive is of the backend's kind. */
    predicate BuiltBy(b: Backend)
    {
      if b == Lines then Line? else Arc?
    }
  }

  /** `L::line`: a line for the line backend, a zero-angle arc for the arc
      backend. */
  function MakeLine(b: Backend, p0: Point, p1: Point): (r: Prim)
    ensures r.StartPoint() == p0 && r.EndPoint() == p1 && r.BuiltBy(b)
  {
    if b == Lines then Line(p0, p1) else Arc(ArcSegment(p0, p1, 0.0))
  }

  /** Reversing twice gives the primitive back, and reversing keeps the
      kind; a reversed line of either backend is the line the other way. */
  lemma ReverseInvolution(s: Prim, b: Backend, p0: Point, p1: Point)
    ensures s.Reverse().Reverse() == s
    ensures s.Reverse().BuiltBy(b) == s.BuiltBy(b)
    ensures MakeLine(b, p0, p1).Reverse() == MakeLine(b, p1, p0)
  {
  }

  /** Each primitive starts where the previous one ends. */
  predicate Chained(s: seq<Prim>)
  {
    forall i :: 0 < i < |s| ==> s[i - 1].EndPoint() == s[i].StartPoint()
  }

  /** A chained run of primitives ending at `last` (any run, when empty). */
  predicate Tracks(s: seq<Prim>, last: Point)
  {
    Chained(s) && (s != [] ==> s[|s| - 1].EndPoint() == last)
  }

  /** A nonempty chained run from `from` to `to`. */
  predicate Runs(s: seq<Prim>, from: Point, to: Point)
  {
    s != [] && Chained(s) && s[0].StartPoint() == from && s[|s| - 1].EndPoint() == to
  }

  predicate AllBuiltBy(s: seq<Prim>, b: Backend)
  {
    forall i :: 0 <= i < |s| ==> s[i].BuiltBy(b)
  }

  /** Two runs where the second starts at the end of the first form one run. */
  lemma RunsAppend(a: seq<Prim>, from: Point, mid: Point, b: seq<Prim>, to: Point)
    requires Runs(a, from, mid) && Runs(b, mid, to)
    ensures Runs(a + b, from, to)
  {
    var s := a + b;
    forall i | 0 < i < |s|
      ensures s[i - 1].EndPoint() == s[i].StartPoint()
    {
      if i < |a| {
        assert s[i - 1] == a[i - 1] && s[i] == a[i];
      } else if i == |a| {
        assert s[i - 1] == a[|a| - 1] && s[i] == b[0];
      } else {
        assert s[i - 1] == b[i - 1 - |a|] && s[i] == b[i - |a|];
      }
    }
  }

  /** Appending a run that starts at the cursor keeps the path chained and
      moves the cursor to the run's end; the kinds are kept. */
  lemma TracksAppend(path: seq<Prim>, last: Point, b: seq<Prim>, to: Point, k: Backend)
    requires Tracks(path, last) && Runs(b, last, to)
    requires AllBuiltBy(path, k) && AllBuiltBy(b, k)
    ensures Tracks(path + b, to) && AllBuiltBy(path + b, k)
  {
    if path == [] {
      assert path + b == b;
    } else {
      RunsAppend(path, path[0].StartPoint(), last, b, to);
    }
    assert forall i :: 0 <= i < |path + b| ==> (path + b)[i] == if i < |path| then path[i] else b[i - |path|];
  }

  /** `backward_path.path.iter().rev()` with every element reversed. */
  function ReversedAll(s: seq<Prim>): (r: seq<Prim>)
    ensures |r| == |s|
  {
    seq(|s|, i requires 0 <= i < |s| => s[|s| - 1 - i].Reverse())
  }

  /** Reversing a path twice gives it back; a run from `from` to `to`
      reversed is a run from `to` to `from`; the kinds are kept. */
  lemma ReversedAllProps(s: seq<Prim>, from: Point, to: Point, b: Backend)
    ensures ReversedAll(ReversedAll(s)) == s
    ensures Runs(s, from, to) ==> Runs(ReversedAll(s), to, from)
    ensures AllBuiltBy(s, b) ==> AllBuiltBy(ReversedAll(s), b)
  {
    var r := ReversedAll(s);
    forall i | 0 <= i < |s|
      ensures ReversedAll(r)[i] == s[i]
    {
      ReverseInvolution(s[i], b, from, to);
    }
    if Runs(s, from, to) {
      forall i | 0 < i < |r|
        ensures r[i - 1].EndPoint() == r[i].StartPoint()
      {
        assert r[i - 1] == s[|s| - i].Reverse() && r[i] == s[|s| - 1 - i].Reverse();
      }
      assert r[0] == s[|s| - 1].Reverse() && r[|r| - 1] == s[0].Reverse();
    }
    if AllBuiltBy(s, b) {
      forall i | 0 <= i < |r|
        ensures r[i].BuiltBy(b)
      {
        ReverseInvolution(s[|s| - 1 - i], b, from, to);
      }
    }
  }

  /** The lines repeated `line_to` calls push, starting at the cursor
      `from` and visiting the points in turn. */
  function LinesThrough(b: Backend, from: Point, pts: seq<Point>): (r: seq<Prim>)
    ensures |r| == |pts|
  {
    seq(|pts|, i requires 0 <= i < |pts| => MakeLine(b, if i == 0 then from else pts[i - 1], pts[i]))
  }

  /** One more point adds one line from the previous point (or `from`). */
  lemma LinesThroughSnoc(b: Backend, from: Point, pts: seq<Point>, p: Point)
    ensures LinesThrough(b, from, pts + [p])
      == LinesThrough(b, from, pts) + [MakeLine(b, if pts == [] then from else pts[|pts| - 1], p)]
  {
    var l, r := LinesThrough(b, from, pts + [p]), LinesThrough(b, from, pts) + [MakeLine(b, if pts == [] then from else pts[|pts| - 1], p)];
    forall i | 0 <= i < |l|
      ensures l[i] == r[i]
    {
      if i < |pts| {
        assert (pts + [p])[i] == pts[i];
        if i > 0 {
          assert (pts + [p])[i - 1] == pts[i - 1];
        }
      }
    }
  }

  /** Lines through a nonempty list of points are a run from `from` to the
      last point, of the backend's kind. */
  lemma LinesThroughRuns(b: Backend, from: Point, pts: seq<Point>)
    requires pts != []
    ensures Runs(LinesThrough(b, from, pts), from, pts[|pts| - 1])
    ensures AllBuiltBy(LinesThrough(b, from, pts), b)
  {
  }

  // ---------------------------------------------------------------------
  // `lower_arc`

  /** The line backend's (unrounded) number of lines for an arc: |k0| times
      the square root of an eighth of the chord over the tolerance. */
  function ArcLineCount(m: MathLib, arc: ArcSegment, tol: real): (r: real)
  {
    Abs(arc.k0) * m.sqrt(Div(0.125 * Hypot(m, Sub(arc.p1, arc.p0)), tol))
  }

  /** The point at fraction i / n of the arc, built in the chord's frame: the
      angle runs from -k0/2 to k0/2 and the unit circle is scaled so that
      the chord has length one. */
  function ArcPoint(m: MathLib, arc: ArcSegment, i: nat, n: nat): (r: Point)
    requires n > 0
  {
    var chord := Sub(arc.p1, arc.p0);
    var s, c := m.sin(0.5 * arc.k0), m.cos(0.5 * arc.k0);
    var scale := Div(0.5, s);
    var th := ((i as real) / (n as real) - 0.5) * arc.k0;
    var u := m.sin(th) * scale + 0.5;
    var v := (m.cos(th) - c) * scale;
    Add(arc.p0, Point(u * chord.x - v * chord.y, u * chord.y + v * chord.x))
  }

  /** The interior points i = 1 .. n - 1. */
  function ArcInterior(m: MathLib, arc: ArcSegment, n: nat): (r: seq<Point>)
    ensures |r| == if n == 0 then 0 else n - 1
  {
    seq(if n == 0 then 0 else n - 1, i requires 0 <= i < n - 1 => ArcPoint(m, arc, i + 1, n))
  }

  /** What `lower_arc` pushes: the arc itself for the arc backend; for the
      line backend one chord when the count is at most one, otherwise
      ceil(count) lines through the interior points and on to `arc.p1`. */
  function ArcPrims(m: MathLib, b: Backend, arc: ArcSegment, tol: real): (r: seq<Prim>)
    ensures |r| >= 1
  {
    var nFrac := ArcLineCount(m, arc, tol);
    if b == Arcs then [Arc(arc)]
    else if nFrac <= 1.0 then [Line(arc.p0, arc.p1)]
    else LinesThrough(Lines, arc.p0, ArcInterior(m, arc, Ceil(nFrac) as nat) + [arc.p1])
  }

  /** `lower_arc` pushes a run from `arc.p0` to `arc.p1` of the backend's
      kind: the arc unchanged for arcs, one line for a count up to one, and
      exactly ceil(count) lines (at least two) otherwise. */
  lemma ArcPrimsShape(m: MathLib, b: Backend, arc: ArcSegment, tol: real)
    ensures Runs(ArcPrims(m, b, arc, tol), arc.p0, arc.p1)
    ensures AllBuiltBy(ArcPrims(m, b, arc, tol), b)
    ensures b == Arcs ==> ArcPrims(m, b, arc, tol) == [Arc(arc)]
    ensures b == Lines && ArcLineCount(m, arc, tol) <= 1.0 ==> ArcPrims(m, b, arc, tol) == [Line(arc.p0, arc.p1)]
    ensures b == Lines && ArcLineCount(m, arc, tol) > 1.0 ==>
      |ArcPrims(m, b, arc, tol)| == Ceil(ArcLineCount(m, arc, tol)) >= 2
  {
    hide ArcPoint;
    var nFrac := ArcLineCount(m, arc, tol);
    if b == Lines && nFrac > 1.0 {
      LinesThroughRuns(Lines, arc.p0, ArcInterior(m, arc, Ceil(nFrac) as nat) + [arc.p1]);
    }
  }

  /** The samples of `lower_arc` continue to both ends: at fraction 0 the
      formula gives `arc.p0` and at fraction 1 it gives `arc.p1`, so the
      closing line to `arc.p1` is the sample i = n (whenever the half-angle
      sine is not zero). */
  lemma ArcPointEnds(m: MathLib, arc: ArcSegment, n: nat)
    requires Lawful(m)
    requires n > 0 && m.sin(0.5 * arc.k0) != 0.0
    ensures ArcPoint(m, arc, 0, n) == arc.p0
    ensures ArcPoint(m, arc, n, n) == arc.p1
  {
    var x := 0.5 * arc.k0;
    var s, c := m.sin(x), m.cos(x);
    var scale := 0.5 / s;
    assert ((0 as real) / (n as real) - 0.5) * arc.k0 == -x;
    assert m.sin(-x) == -s && m.cos(-x) == c;
    assert -s * scale + 0.5 == 0.0;
    assert (c - c) * scale == 0.0;
    assert ((n as real) / (n as real) - 0.5) * arc.k0 == x;
    assert s * scale + 0.5 == 1.0;
  }

  // ---------------------------------------------------------------------
  // `lower_espc` for the arc backend

  /** The error estimate of one arc per segment at offset `dist`:
      |k1| (arclen + 0.4 |k1 dist|) / (120 tol), with arclen the chord over
      the unit-chord length `ch`. */
  function EspcArcErr(m: MathLib, es: EulerSeg, dist: real, tol: real): (r: real)
  {
    var arclen := Div(Hypot(m, Sub(es.p0, es.p1)), es.params.ch);
    Div(1.0 / 120.0, tol) * Abs(es.params.k1) * (arclen + 0.4 * Abs(es.params.k1 * dist))
  }

  /** The number of arcs for a segment: the cube root of the error
      estimate, rounded up, and at least one. */
  function EspcArcCount(m: MathLib, es: EulerSeg, dist: real, tol: real): (r: nat)
    ensures r >= 1
    ensures r as real >= m.cbrt(EspcArcErr(m, es, dist, tol))
    ensures r == 1 || (r as real) < m.cbrt(EspcArcErr(m, es, dist, tol)) + 1.0
  {
    SubdivCount(m.cbrt(EspcArcErr(m, es, dist, tol)))
  }

  /** The start t0 = i dt of the i-th arc, dt = 1 / n. */
  function ArcT0(n: nat, i: nat): (r: real)
    requires n > 0
  {
    (i as real) * (1.0 / (n as real))
  }

  /** The end of the i-th arc: the offset curve at t0 + dt. */
  function EspcArcEnd(m: MathLib, es: EulerSeg, dist: real, n: nat, i: nat): (r: Point)
    requires n > 0
  {
    es.EvalWithOffset(m, ArcT0(n, i) + 1.0 / (n as real), dist)
  }

  /** The turning angle of the i-th arc: the curvature k0 + (t - 0.5) k1 at
      the middle t of its interval, times dt. */
  function EspcArcAngle(es: EulerSeg, n: nat, i: nat): (r: real)
    requires n > 0
  {
    var dt := 1.0 / (n as real);
    var t := ArcT0(n, i) + 0.5 * dt - 0.5;
    (es.params.k0 + t * es.params.k1) * dt
  }

  /** The arcs `lower_espc` pushes, the first starting at `from`. */
  function EspcArcs(m: MathLib, es: EulerSeg, from: Point, dist: real, n: nat): (r: seq<Prim>)
    ensures |r| == n
  {
    seq(n, i requires 0 <= i < n =>
      Arc(ArcSegment(if i == 0 then from else EspcArcEnd(m, es, dist, n, i - 1), EspcArcEnd(m, es, dist, n, i), EspcArcAngle(es, n, i))))
  }

  /** Each arc turns through exactly the change of the spiral's tangent
      angle over its parameter interval [t0, t0 + dt]. */
  lemma EspcArcAngleIsThChange(es: EulerSeg, n: nat, i: nat)
    requires n > 0
    ensures EspcArcAngle(es, n, i)
      == es.params.EvalTh(ArcT0(n, i) + 1.0 / (n as real)) - es.params.EvalTh(ArcT0(n, i))
  {
    EvalThChange(es.params, ArcT0(n, i), 1.0 / (n as real));
  }

  /** The sum of the turning angles of a run of arcs (lines turn by zero). */
  function Turning(s: seq<Prim>): (r: real)
  {
    if s == [] then 0.0
    else Turning(s[..|s| - 1]) + (match s[|s| - 1] case Arc(a) => a.k0 case Line(_, _) => 0.0)
  }

  /** The first k arcs turn through the tangent change over [0, k dt]. */
  lemma {:induction false} EspcArcsTurningPrefix(m: MathLib, es: EulerSeg, from: Point, dist: real, n: nat, k: nat)
    requires 0 < n && k <= n
    ensures Turning(EspcArcs(m, es, from, dist, n)[..k]) == es.params.EvalTh(ArcT0(n, k)) - es.params.EvalTh(0.0)
  {
    hide EulerSeg.EvalWithOffset, EspcArcEnd, EulerParams.EvalTh;
    var arcs := EspcArcs(m, es, from, dist, n);
    if k == 0 {
      assert ArcT0(n, 0) == 0.0;
    } else {
      EspcArcsTurningPrefix(m, es, from, dist, n, k - 1);
      assert arcs[..k][..k - 1] == arcs[..k - 1];
      assert arcs[..k][k - 1] == arcs[k - 1];
      EspcArcAngleIsThChange(es, n, k - 1);
      assert ArcT0(n, k - 1) + 1.0 / (n as real) == ArcT0(n, k);
    }
  }

  /** The arcs of a segment together turn through k0, the whole tangent
      change of the spiral from t = 0 to t = 1. */
  lemma EspcArcsTurning(m: MathLib, es: EulerSeg, from: Point, dist: real, n: nat)
    requires n > 0
    ensures Turning(EspcArcs(m, es, from, dist, n)) == es.params.k0
  {
    hide EulerSeg.EvalWithOffset, EspcArcEnd;
    EspcArcsTurningPrefix(m, es, from, dist, n, n);
    assert EspcArcs(m, es, from, dist, n)[..n] == EspcArcs(m, es, from, dist, n);
    assert ArcT0(n, n) == 1.0;
  }

  /** The last arc ends at the offset curve's end, t = 1. */
  lemma EspcArcLastEnd(m: MathLib, es: EulerSeg, dist: real, n: nat)
    requires n > 0
    ensures EspcArcEnd(m, es, dist, n, n - 1) == es.EvalWithOffset(m, 1.0, dist)
  {
    hide EulerSeg.EvalWithOffset;
    assert ArcT0(n, n - 1) + 1.0 / (n as real) == 1.0;
  }

  /** The arcs are a run from `from` to the end of the last arc. */
  lemma EspcArcsRuns(m: MathLib, es: EulerSeg, from: Point, dist: real, n: nat)
    requires n > 0
    ensures Runs(EspcArcs(m, es, from, dist, n), from, EspcArcEnd(m, es, dist, n, n - 1))
    ensures AllBuiltBy(EspcArcs(m, es, from, dist, n), Arcs)
  {
    hide EulerSeg.EvalWithOffset, EspcArcEnd;
  }

  // ---------------------------------------------------------------------
  // `lower_espc`, both backends

  /** The path and the cursor after `lower_espc`: the primitives start at
      the cursor, or at the offset curve's start when the path is empty;
      the line backend draws lines through the flattened points, the arc
      backend draws the arcs; the cursor ends at the last point drawn. */
  function EspcLowered(m: MathLib, b: Backend, es: EulerSeg, dist: real, tol: real, path: seq<Prim>, last: Point): (r: (seq<Prim>, Point))
  {
    hide EulerSeg.EvalWithOffset, OffsetPoints, EspcArcs, EspcArcEnd, LinesThrough;
    var from := if path == [] then es.EvalWithOffset(m, 0.0, dist) else last;
    if b == Lines then
      var pts := OffsetPoints(m, es, dist, tol);
      (path + LinesThrough(Lines, from, pts), pts[|pts| - 1])
    else
      var n := EspcArcCount(m, es, dist, tol);
      (path + EspcArcs(m, es, from, dist, n), EspcArcEnd(m, es, dist, n, n - 1))
  }

  /** `lower_espc` only appends, and what it appends is a nonempty run of
      the backend's kind from the cursor (or the offset curve's start) to
      the offset curve's end, which becomes the cursor. */
  lemma EspcLoweredShape(m: MathLib, b: Backend, es: EulerSeg, dist: real, tol: real, path: seq<Prim>, last: Point)
    requires Tracks(path, last) && AllBuiltBy(path, b)
    ensures var r := EspcLowered(m, b, es, dist, tol, path, last);
      && |r.0| > |path| && r.0[..|path|] == path
      && Runs(r.0[|path|..], if path == [] then es.EvalWithOffset(m, 0.0, dist) else last, r.1)
      && Tracks(r.0, r.1) && AllBuiltBy(r.0, b)
      && r.1 == es.EvalWithOffset(m, 1.0, dist)
  {
    hide EulerSeg.EvalWithOffset, OffsetPoints, EspcArcEnd, EspcArcs, LinesThrough;
    var from := if path == [] then es.EvalWithOffset(m, 0.0, dist) else last;
    var r := EspcLowered(m, b, es, dist, tol, path, last);
    var added: seq<Prim>;
    if b == Lines {
      var pts := OffsetPoints(m, es, dist, tol);
      added := LinesThrough(Lines, from, pts);
      LinesThroughRuns(Lines, from, pts);
      OffsetPointsEnd(m, es, dist, tol);
    } else {
      var n := EspcArcCount(m, es, dist, tol);
      added := EspcArcs(m, es, from, dist, n);
      EspcArcsRuns(m, es, from, dist, n);
      EspcArcLastEnd(m, es, dist, n);
    }
    assert r.0 == path + added;
    assert r.0[..|path|] == path && r.0[|path|..] == added;
    if path == [] {
      assert r.0 == added;
    } else {
      TracksAppend(path, last, added, r.1, b);
    }
  }

  /** Lowering several segments in turn, each from where the last left off. */
  function EspcLoweredAll(m: MathLib, b: Backend, segs: seq<EulerSeg>, dist: real, tol: real, path: seq<Prim>, last: Point): (r: (seq<Prim>, Point))
  {
    if segs == [] then (path, last)
    else
      var st := EspcLoweredAll(m, b, segs[..|segs| - 1], dist, tol, path, last);
      EspcLowered(m, b, segs[|segs| - 1], dist, tol, st.0, st.1)
  }

  /** Lowering any number of segments keeps the path chained, only appends,
      and for at least one segment leaves the cursor at the offset end of
      the last one. */
  lemma {:induction false} EspcLoweredAllShape(m: MathLib, b: Backend, segs: seq<EulerSeg>, dist: real, tol: real, path: seq<Prim>, last: Point)
    requires Tracks(path, last) && AllBuiltBy(path, b)
    ensures var r := EspcLoweredAll(m, b, segs, dist, tol, path, last);
      && Tracks(r.0, r.1) && AllBuiltBy(r.0, b)
      && |r.0| >= |path| + |segs| && r.0[..|path|] == path
      && (segs == [] ==> r == (path, last))
  {
    hide EspcLowered;
    if segs != [] {
      var st := EspcLoweredAll(m, b, segs[..|segs| - 1], dist, tol, path, last);
      EspcLoweredAllShape(m, b, segs[..|segs| - 1], dist, tol, path, last);
      EspcLoweredShape(m, b, segs[|segs| - 1], dist, tol, st.0, st.1);
      var r := EspcLowered(m, b, segs[|segs| - 1], dist, tol, st.0, st.1);
      assert r.0[..|path|] == r.0[..|st.0|][..|path|];
    }
  }

  // ---------------------------------------------------------------------
  // `to_svg`, as a list of commands (number formatting is not modelled)

  /** An SVG path command: `M x y`, `L x y`, or `A rx ry 0 large sweep x y`. */
  datatype SvgCmd = MoveCmd(p: Point) | LineCmd(p: Point) | ArcCmd(rx: real, ry: real, largeArc: bool, sweep: bool, to: Point)

  /** `to_svg_string`: a move when the primitive does not start at the
      previous end, then the drawing command (an arc whose angle is below
      1e-12 in magnitude is drawn as a line). */
  function PrimSvg(m: MathLib, s: Prim, last: Option<Point>): (r: seq<SvgCmd>)
  {
    (if last != Some(s.StartPoint()) then [MoveCmd(s.StartPoint())] else [])
    + match s
      case Line(_, p1) => [LineCmd(p1)]
      case Arc(a) =>
        if Abs(a.k0) < 1e-12 then [LineCmd(a.p1)]
        else var sa := ToSvgArc(m, a); [ArcCmd(sa.radii.x, sa.radii.y, sa.largeArc, sa.sweep, sa.to)]
  }

  /** The commands of a whole path, each primitive given the previous end. */
  function PathSvg(m: MathLib, path: seq<Prim>): (r: seq<SvgCmd>)
  {
    if path == [] then []
    else
      var last := if |path| == 1 then None else Some(path[|path| - 2].EndPoint());
      PathSvg(m, path[..|path| - 1]) + PrimSvg(m, path[|path| - 1], last)
  }

  function MoveCount(cmds: seq<SvgCmd>): (r: nat)
  {
    if cmds == [] then 0 else MoveCount(cmds[..|cmds| - 1]) + if cmds[|cmds| - 1].MoveCmd? then 1 else 0
  }

  lemma {:induction false} MoveCountAppend(a: seq<SvgCmd>, b: seq<SvgCmd>)
    ensures MoveCount(a + b) == MoveCount(a) + MoveCount(b)
    ensures |a + b| - MoveCount(a + b) == (|a| - MoveCount(a)) + (|b| - MoveCount(b))
  {
    if b != [] {
      MoveCountAppend(a, b[..|b| - 1]);
      assert (a + b)[..|a + b| - 1] == a + b[..|b| - 1];
    } else {
      assert a + b == a;
    }
  }

  /** A primitive gives one drawing command, preceded by a move exactly
      when it does not start at the previous end. */
  lemma PrimSvgCounts(m: MathLib, s: Prim, last: Option<Point>)
    ensures |PrimSvg(m, s, last)| - MoveCount(PrimSvg(m, s, last)) == 1
    ensures MoveCount(PrimSvg(m, s, last)) == if last != Some(s.StartPoint()) then 1 else 0
    ensures last != Some(s.StartPoint()) ==> PrimSvg(m, s, last)[0] == MoveCmd(s.StartPoint())
  {
    hide ToSvgArc;
    var mv := if last != Some(s.StartPoint()) then [MoveCmd(s.StartPoint())] else [];
    var draw := PrimSvg(m, s, last)[|mv|..];
    assert PrimSvg(m, s, last) == mv + draw && |draw| == 1 && !draw[0].MoveCmd?;
    MoveCountAppend(mv, draw);
    assert MoveCount(draw) == 0 by {
      assert draw[..0] == [];
    }
    assert MoveCount(mv) == |mv| by {
      if mv != [] {
        assert mv[..0] == [];
      }
    }
  }

  /** Every primitive gives exactly one drawing command; a chained nonempty
      path has exactly one move, the first command, at its start. */
  lemma {:induction false} PathSvgCounts(m: MathLib, path: seq<Prim>)
    ensures |PathSvg(m, path)| - MoveCount(PathSvg(m, path)) == |path|
    ensures MoveCount(PathSvg(m, path)) <= |path|
    ensures Chained(path) && path != [] ==>
      MoveCount(PathSvg(m, path)) == 1 && PathSvg(m, path)[0] == MoveCmd(path[0].StartPoint())
  {
    hide ToSvgArc, PrimSvg;
    if path != [] {
      var init := path[..|path| - 1];
      var s := path[|path| - 1];
      var last := if |path| == 1 then None else Some(path[|path| - 2].EndPoint());
      PathSvgCounts(m, init);
      MoveCountAppend(PathSvg(m, init), PrimSvg(m, s, last));
      PrimSvgCounts(m, s, last);
      assert PathSvg(m, path) == PathSvg(m, init) + PrimSvg(m, s, last);
      if Chained(path) {
        if |path| == 1 {
          assert path[0] == s && init == [];
          assert PathSvg(m, path) == PrimSvg(m, s, None);
        } else {
          assert init[|init| - 1] == path[|path| - 2] && init[0] == path[0];
          assert Chained(init);
          assert last == Some(s.StartPoint());
        }
      }
    }
  }

  /** One step of the arc loop computes the i-th arc: with dt = 1 / n it
      evaluates the end at t0 + dt and the angle at the middle. */
  lemma EspcArcStep(m: MathLib, es: EulerSeg, from: Point, dist: real, n: nat, i: nat, dt: real, t0: real, t1: real, k: real)
    requires i < n && dt == 1.0 / (n as real) && t0 == (i as real) * dt && t1 == t0 + dt
    requires k == es.params.k0 + (t0 + 0.5 * dt - 0.5) * es.params.k1
    ensures es.EvalWithOffset(m, t1, dist) == EspcArcEnd(m, es, dist, n, i)
    ensures k * dt == EspcArcAngle(es, n, i)
    ensures EspcArcs(m, es, from, dist, n)[i]
      == Arc(ArcSegment(if i == 0 then from else EspcArcEnd(m, es, dist, n, i - 1), EspcArcEnd(m, es, dist, n, i), k * dt))
  {
    hide EulerSeg.EvalWithOffset;
    assert t1 == ArcT0(n, i) + 1.0 / (n as real);
  }

  // ---------------------------------------------------------------------

  /** `LoweredPath`: the primitives and the cursor. */
  class LoweredPath {
    const backend: Backend
    var path: seq<Prim>
    var lastPt: Point

    /** `Default::default()`: no primitives, the cursor at the origin. */
    constructor(backend: Backend)
      ensures this.backend == backend && path == [] && lastPt == Origin
    {
      this.backend := backend;
      path := [];
      lastPt := Origin;
    }

    /** `move_to` moves the cursor and pushes nothing. */
    method MoveTo(p: Point)
      modifies this
      ensures path == old(path) && lastPt == p
    {
      lastPt := p;
    }

    /** `line_to` pushes exactly one line, from the old cursor to `p`, and
        moves the cursor to `p`. */
    method LineTo(p: Point)
      modifies this
      ensures path == old(path) + [MakeLine(backend, old(lastPt), p)] && lastPt == p
    {
      path := path + [MakeLine(backend, lastPt, p)];
      lastPt := p;
    }

    /** `L::lower_arc(arc, &mut self.path, tol)`: pushes the lowered arc and
        leaves the cursor alone. */
    method LowerArc(m: MathLib, arc: ArcSegment, tol: real)
      modifies this
      ensures path == old(path) + ArcPrims(m, backend, arc, tol) && lastPt == old(lastPt)
    {
      hide ArcPoint, ArcInterior, LinesThrough;
      var chord := Sub(arc.p1, arc.p0);
      var chordLen := Hypot(m, chord);
      var nFrac := Abs(arc.k0) * m.sqrt(Div(0.125 * chordLen, tol));
      assert nFrac == ArcLineCount(m, arc, tol);
      if backend == Arcs {
        path := path + [Arc(arc)];
        return;
      }
      if nFrac <= 1.0 {
        path := path + [Line(arc.p0, arc.p1)];
        return;
      }
      var nCeil := Ceil(nFrac);
      var n: nat := nCeil;
      PushArcLines(m, arc, n);
    }

    /** The line backend's loop of `lower_arc` for n >= 2 lines: lines
        through the points at 1 / n, ..., (n - 1) / n and on to `arc.p1`. */
    method PushArcLines(m: MathLib, arc: ArcSegment, n: nat)
      requires backend == Lines && n >= 2
      modifies this
      ensures path == old(path) + LinesThrough(Lines, arc.p0, ArcInterior(m, arc, n) + [arc.p1])
      ensures lastPt == old(lastPt)
    {
      hide ArcPoint, LinesThrough;
      ghost var before := path;
      ghost var interior := ArcInterior(m, arc, n);
      var p0 := arc.p0;
      for i := 1 to n
        invariant path == before + LinesThrough(Lines, arc.p0, interior[..i - 1])
        invariant p0 == if i == 1 then arc.p0 else interior[i - 2]
        invariant lastPt == old(lastPt)
      {
        var p1 := ArcPoint(m, arc, i, n);
        assert p1 == interior[i - 1];
        LinesThroughSnoc(Lines, arc.p0, interior[..i - 1], p1);
        assert interior[..i] == interior[..i - 1] + [p1];
        path := path + [Line(p0, p1)];
        p0 := p1;
      }
      assert interior[..n - 1] == interior;
      LinesThroughSnoc(Lines, arc.p0, interior, arc.p1);
      path := path + [Line(p0, arc.p1)];
    }

    /** `L::lower_espc(es, self, dist, tol)`. */
    method LowerEspc(m: MathLib, es: EulerSeg, dist: real, tol: real)
      modifies this
      ensures (path, lastPt) == EspcLowered(m, backend, es, dist, tol, old(path), old(lastPt))
    {
      hide EulerSeg.EvalWithOffset, OffsetPoints, EspcArcEnd, EspcArcAngle, LinesThrough, EspcArcs;
      ghost var from := if path == [] then es.EvalWithOffset(m, 0.0, dist) else lastPt;
      ghost var before := path;
      if backend == Lines {
        if path == [] {
          MoveTo(es.EvalWithOffset(m, 0.0, dist));
        }
        var pts := FlattenOffset(m, es, dist, tol);
        for i := 0 to |pts|
          invariant path == before + LinesThrough(Lines, from, pts[..i])
          invariant lastPt == if i == 0 then from else pts[i - 1]
        {
          LinesThroughSnoc(Lines, from, pts[..i], pts[i]);
          assert pts[..i + 1] == pts[..i] + [pts[i]];
          LineTo(pts[i]);
        }
        assert pts[..|pts|] == pts;
      } else {
        var n := LowerEspcArcs(m, es, dist, tol, from);
      }
    }

    /** The loop of the arc backend's `lower_espc`. */
    method LowerEspcArcs(m: MathLib, es: EulerSeg, dist: real, tol: real, ghost from: Point) returns (n: nat)
      requires backend == Arcs
      requires from == if path == [] then es.EvalWithOffset(m, 0.0, dist) else lastPt
      modifies this
      ensures n == EspcArcCount(m, es, dist, tol)
      ensures path == old(path) + EspcArcs(m, es, from, dist, n)
      ensures lastPt == EspcArcEnd(m, es, dist, n, n - 1)
    {
      hide EulerSeg.EvalWithOffset, EspcArcs, EspcArcEnd, EspcArcAngle;
      var estErr := EspcArcErr(m, es, dist, tol);
      var nSubdiv := m.cbrt(estErr);
      n := SubdivCount(nSubdiv);
      var dt := 1.0 / (n as real);
      var p0 := if path == [] then es.EvalWithOffset(m, 0.0, dist) else lastPt;
      ghost var before := path;
      ghost var arcs := EspcArcs(m, es, from, dist, n);
      for i := 0 to n
        invariant path == before + arcs[..i]
        invariant p0 == if i == 0 then from else EspcArcEnd(m, es, dist, n, i - 1)
      {
        var t0 := (i as real) * dt;
        var t1 := t0 + dt;
        var p1 := es.EvalWithOffset(m, t1, dist);
        var t := t0 + 0.5 * dt - 0.5;
        var k := es.params.k0 + t * es.params.k1;
        EspcArcStep(m, es, from, dist, n, i, dt, t0, t1, k);
        assert arcs[..i + 1] == arcs[..i] + [arcs[i]];
        path := path + [Arc(ArcSegment(p0, p1, k * dt))];
        p0 := p1;
      }
      assert arcs[..n] == arcs;
      lastPt := p0;
    }

    /** `to_svg`: one command list per primitive, each told the previous
        primitive's end. */
    method ToSvg(m: MathLib) returns (svg: seq<SvgCmd>)
      ensures svg == PathSvg(m, path)
    {
      hide PrimSvg;
      svg := [];
      var last: Option<Point> := None;
      for i := 0 to |path|
        invariant svg == PathSvg(m, path[..i])
        invariant last == if i == 0 then None else Some(path[i - 1].EndPoint())
      {
        assert path[..i + 1][..i] == path[..i];
        svg := svg + PrimSvg(m, path[i], last);
        last := Some(path[i].EndPoint());
      }
      assert path[..|path|] == path;
    }
  }
}
