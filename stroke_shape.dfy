/**
 * The shape of the stroker's output (stroke.rs): the outline is a sequence
 * of runs, at most one for each subpath `finish` ends (a `MoveTo`, or the
 * end of the path) and two for each subpath `finish_closed` ends (a
 * `ClosePath`), each a nonempty chained sequence of primitives. A subpath
 * whose two sides begin half a width either side of its start point, along
 * the normal recorded there, gives runs that end where they start, the
 * closed ones provided the closing join is drawn.
 */
module StrokeShape {
  import opened Numeric
  import opened Geom
  import opened Euler
  import opened Lowering
  import opened Stroke

  // ---------------------------------------------------------------------
  // Runs

  /** The runs one after the other. */
  function Concat(runs: seq<seq<Prim>>): (r: seq<Prim>)
  {
    if runs == [] then [] else Concat(runs[..|runs| - 1]) + runs[|runs| - 1]
  }

  lemma {:induction false} ConcatAppend(a: seq<seq<Prim>>, c: seq<seq<Prim>>)
    ensures Concat(a + c) == Concat(a) + Concat(c)
  {
    if c == [] {
      assert a + c == a;
    } else {
      var k := |c| - 1;
      assert (a + c)[..|a + c| - 1] == a + c[..k];
      ConcatAppend(a, c[..k]);
    }
  }

  /** A nonempty chained run of primitives of the backend's kind. */
  ghost predicate IsRun(r: seq<Prim>, b: Backend)
  {
    r != [] && Chained(r) && AllBuiltBy(r, b)
  }

  /** A nonempty run that ends where it starts. */
  ghost predicate Loop(r: seq<Prim>)
  {
    r != [] && r[0].StartPoint() == r[|r| - 1].EndPoint()
  }

  /** What the element `el` adds to the output, run by run: a `MoveTo`
      ending a nonempty subpath adds the one run of `finish`; a `ClosePath`
      whose subpath is nonempty after its closing line adds the two runs of
      `finish_closed`, the forward side with the closing join and the
      backward side with the closing join reversed; nothing else adds any. */
  function ElRuns(m: MathLib, b: Backend, style: Style, tol: real, joinThresh: real, st: StrokeState, el: PathEl): (r: seq<seq<Prim>>)
  {
    match el
    case MoveTo(_) =>
      if st.sides.fwd == [] then [] else [OpenFinish(m, b, style, tol, st.sides, st.lastPt, st.startPt).0]
    case ClosePath =>
      var l := LineEl(m, b, style, tol, joinThresh, st, st.startPt);
      if l.sides.fwd == [] then []
      else
        var j := JoinStep(m, b, style, tol, joinThresh, l.sides, l.lastPt, l.lastTan, l.sides.startTan);
        [j.fwd, ReversedAll(j.bwd)]
    case _ => []
  }

  /** The runs the elements of `path` add, in order. */
  function RunsFold(m: MathLib, b: Backend, style: Style, tol: real, path: seq<PathEl>, segs: seq<seq<EulerSeg>>): (r: seq<seq<Prim>>)
    requires |segs| == |path|
  {
    if path == [] then []
    else
      var k := |path| - 1;
      RunsFold(m, b, style, tol, path[..k], segs[..k])
        + ElRuns(m, b, style, tol, JoinThresh(style, tol), StrokeFold(m, b, style, tol, InitState(), path[..k], segs[..k]), path[k])
  }

  /** The runs of the whole outline: those of the elements, then the run of
      the final `finish` when the last subpath is nonempty. */
  function StrokeRuns(m: MathLib, b: Backend, style: Style, tol: real, path: seq<PathEl>, segs: seq<seq<EulerSeg>>): (r: seq<seq<Prim>>)
    requires |segs| == |path|
  {
    var st := StrokeFold(m, b, style, tol, InitState(), path, segs);
    RunsFold(m, b, style, tol, path, segs)
      + if st.sides.fwd == [] then [] else [OpenFinish(m, b, style, tol, st.sides, st.lastPt, st.startPt).0]
  }

  /** Each element appends its runs to the output and nothing else, every
      run nonempty, chained and of the backend's kind: at most one for a
      `MoveTo`, none or two for a `ClosePath`, none for a drawing element. */
  lemma ElRunsOut(m: MathLib, b: Backend, style: Style, tol: real, joinThresh: real, st: StrokeState, el: PathEl, segs: seq<EulerSeg>)
    requires StateValid(st, b)
    ensures var rs := ElRuns(m, b, style, tol, joinThresh, st, el);
      && ElStep(m, b, style, tol, joinThresh, st, el, segs).out == st.out + Concat(rs)
      && (forall i :: 0 <= i < |rs| ==> IsRun(rs[i], b))
      && (el.MoveTo? ==> |rs| <= 1)
      && (el.ClosePath? ==> |rs| == 0 || |rs| == 2)
      && (!el.MoveTo? && !el.ClosePath? ==> rs == [])
  {
    hide LineEl, CurveEl, OpenFinish, JoinStep, ReversedAll, Chained, AllBuiltBy;
    var rs := ElRuns(m, b, style, tol, joinThresh, st, el);
    match el
    case MoveTo(p) =>
      OpenFinishValid(m, b, style, tol, st.sides, st.lastPt, st.startPt);
      if st.sides.fwd != [] {
        assert Concat(rs) == Concat([]) + rs[0];
      }
    case ClosePath =>
      var l := LineEl(m, b, style, tol, joinThresh, st, st.startPt);
      LineElValid(m, b, style, tol, joinThresh, st, st.startPt);
      if l.sides.fwd != [] {
        var j := JoinStep(m, b, style, tol, joinThresh, l.sides, l.lastPt, l.lastTan, l.sides.startTan);
        JoinStepValid(m, b, style, tol, joinThresh, l.sides, l.lastPt, l.lastTan, l.sides.startTan);
        ReversedAllProps(j.bwd, j.bwd[0].StartPoint(), j.bLast, b);
        ClosedRunUnfold(j.fwd, j.bwd);
        assert rs == [j.fwd, ReversedAll(j.bwd)];
        assert rs[..1] == [j.fwd] && [j.fwd][..0] == [];
        assert Concat([j.fwd]) == j.fwd;
      }
    case LineTo(p1) =>
      LineElValid(m, b, style, tol, joinThresh, st, p1);
    case QuadTo(p1, p2) =>
      CurveElValid(m, b, style, tol, joinThresh, st, Raise(st.lastPt, p1, p2), PathSegTangents(SegQuad(st.lastPt, p1, p2)), segs);
    case CurveTo(p1, p2, p3) =>
      var c := Cubic(st.lastPt, p1, p2, p3);
      CurveElValid(m, b, style, tol, joinThresh, st, c, PathSegTangents(SegCubic(c)), segs);
  }

  /** The output after the elements is the concatenation of their runs,
      and the state stays valid. */
  lemma {:induction false} RunsFoldOut(m: MathLib, b: Backend, style: Style, tol: real, path: seq<PathEl>, segs: seq<seq<EulerSeg>>)
    requires |segs| == |path|
    ensures var st, rs := StrokeFold(m, b, style, tol, InitState(), path, segs), RunsFold(m, b, style, tol, path, segs);
      && StateValid(st, b) && st.out == Concat(rs)
      && forall i :: 0 <= i < |rs| ==> IsRun(rs[i], b)
  {
    if path == [] {
      assert StateValid(InitState(), b);
    } else {
      hide ElStep, ElRuns, StateValid, IsRun;
      var k := |path| - 1;
      var st := StrokeFold(m, b, style, tol, InitState(), path[..k], segs[..k]);
      var front := RunsFold(m, b, style, tol, path[..k], segs[..k]);
      var more := ElRuns(m, b, style, tol, JoinThresh(style, tol), st, path[k]);
      RunsFoldOut(m, b, style, tol, path[..k], segs[..k]);
      ElRunsOut(m, b, style, tol, JoinThresh(style, tol), st, path[k], segs[k]);
      ElStepValid(m, b, style, tol, JoinThresh(style, tol), st, path[k], segs[k]);
      ConcatAppend(front, more);
      assert forall i :: 0 <= i < |front + more| ==> (front + more)[i] == if i < |front| then front[i] else more[i - |front|];
    }
  }

  /** The outline `stroke_undashed` produces is the concatenation of the
      runs of its subpaths, each a nonempty chained run of primitives of
      the backend's kind. */
  lemma StrokeOutputRuns(m: MathLib, b: Backend, style: Style, tol: real, path: seq<PathEl>, segs: seq<seq<EulerSeg>>)
    requires |segs| == |path|
    ensures StrokeOutput(m, b, style, tol, path, segs) == Concat(StrokeRuns(m, b, style, tol, path, segs))
    ensures forall i :: 0 <= i < |StrokeRuns(m, b, style, tol, path, segs)| ==> IsRun(StrokeRuns(m, b, style, tol, path, segs)[i], b)
  {
    hide StrokeFold, RunsFold, OpenFinish;
    var st := StrokeFold(m, b, style, tol, InitState(), path, segs);
    var front := RunsFold(m, b, style, tol, path, segs);
    var last := if st.sides.fwd == [] then [] else [OpenFinish(m, b, style, tol, st.sides, st.lastPt, st.startPt).0];
    RunsFoldOut(m, b, style, tol, path, segs);
    ConcatAppend(front, last);
    OpenFinishValid(m, b, style, tol, st.sides, st.lastPt, st.startPt);
    if last != [] {
      assert Concat(last) == Concat([]) + last[0];
    }
    assert forall i :: 0 <= i < |front + last| ==> (front + last)[i] == if i < |front| then front[i] else last[i - |front|];
  }

  // ---------------------------------------------------------------------
  // Where the runs close

  /** Nonempty sides that begin at `p`: the recorded normal is the normal
      of the recorded tangent, and the forward and backward sides start
      half a width either side of `p` along it. */
  ghost predicate SidesFrom(m: MathLib, width: real, s: Sides, p: Point)
  {
    && s.fwd != [] && s.bwd != []
    && s.startNorm == Norm(m, width, s.startTan)
    && s.fwd[0].StartPoint() == Sub(p, s.startNorm) && s.bwd[0].StartPoint() == Add(p, s.startNorm)
  }

  /** Empty sides whose cursors stand half a width either side of `p` along
      the recorded normal, the normal of the recorded tangent: what the
      first join of a subpath at `p` leaves. */
  ghost predicate PrimedAt(m: MathLib, width: real, s: Sides, p: Point)
  {
    && s.fwd == [] && s.bwd == []
    && s.startNorm == Norm(m, width, s.startTan)
    && s.fLast == Sub(p, s.startNorm) && s.bLast == Add(p, s.startNorm)
  }

  /** The state of the element loop is anchored at its subpath's start:
      with empty sides the last point is the start point, and otherwise the
      sides begin at the start point. */
  ghost predicate Anchored(m: MathLib, width: real, st: StrokeState)
  {
    if st.sides.fwd == [] then st.lastPt == st.startPt else SidesFrom(m, width, st.sides, st.startPt)
  }

  /** `el` is a curve drawn first in its subpath through Euler segments:
      its forward side then begins at the offset curve's start (the first
      `lower_espc` of an empty side moves there), not at the start normal. */
  predicate EulerFirst(st: StrokeState, el: PathEl, tol: real)
  {
    var p0 := st.lastPt;
    && st.sides.fwd == []
    && match el
       case QuadTo(p1, p2) => !(p1 == p0 && p2 == p0) && LinearTest(Raise(p0, p1, p2), tol).None?
       case CurveTo(p1, p2, p3) => !(p1 == p0 && p2 == p0 && p3 == p0) && LinearTest(Cubic(p0, p1, p2, p3), tol).None?
       case _ => false
  }

  /** For a `ClosePath`, the closing join into the recorded start tangent
      is drawn (not elided as nearly straight) when the subpath is nonempty
      after its closing line. */
  ghost predicate ClosingJoinDrawn(m: MathLib, b: Backend, style: Style, tol: real, joinThresh: real, st: StrokeState, el: PathEl)
  {
    el.ClosePath? ==>
      var l := LineEl(m, b, style, tol, joinThresh, st, st.startPt);
      l.sides.fwd != [] ==> !JoinElided(m, l.lastTan, l.sides.startTan, joinThresh)
  }

  /** A join at `p0` on sides that begin at `P`, or on empty sides when
      `p0` is `P`: the sides still begin at `P`, or are primed at `P`. */
  lemma JoinFrom(m: MathLib, b: Backend, style: Style, tol: real, joinThresh: real, s: Sides, p0: Point, ab: Point, cd: Point, P: Point)
    requires SidesValid(s, b)
    requires s.fwd == [] ==> p0 == P
    requires s.fwd != [] ==> SidesFrom(m, style.width, s, P)
    ensures var r := JoinStep(m, b, style, tol, joinThresh, s, p0, ab, cd);
      if s.fwd == [] then PrimedAt(m, style.width, r, P) else SidesFrom(m, style.width, r, P)
  {
    hide JoinAdded, Norm;
    if s.fwd != [] {
      var r := JoinStep(m, b, style, tol, joinThresh, s, p0, ab, cd);
      JoinStepValid(m, b, style, tol, joinThresh, s, p0, ab, cd);
      assert r.fwd[0] == r.fwd[..|s.fwd|][0] && r.bwd[0] == r.bwd[..|s.bwd|][0];
    }
  }

  /** A line on primed sides, or on sides that begin at `P`, leaves sides
      that begin at `P`. */
  lemma LineFrom(m: MathLib, b: Backend, width: real, s: Sides, tangent: Point, p1: Point, P: Point)
    requires SidesValid(s, b)
    requires PrimedAt(m, width, s, P) || SidesFrom(m, width, s, P)
    ensures SidesFrom(m, width, LineStep(m, b, width, s, tangent, p1), P)
  {
    hide Norm;
    var r := LineStep(m, b, width, s, tangent, p1);
    LineStepValid(m, b, width, s, tangent, p1);
    if s.fwd != [] {
      assert r.fwd[0] == r.fwd[..|s.fwd|][0] && r.bwd[0] == r.bwd[..|s.bwd|][0];
    }
  }

  /** One vertex of the polyline of `do_linear`, from `P` on empty sides
      or from sides that begin at `P`, leaves sides that begin at `P`. */
  lemma WalkFrom(m: MathLib, b: Backend, width: real, tol: real, joinThresh: real, st: (Sides, Point, Point), p: Point, P: Point)
    requires SidesValid(st.0, b)
    requires st.0.fwd == [] ==> st.1 == P
    requires st.0.fwd != [] ==> SidesFrom(m, width, st.0, P)
    ensures SidesFrom(m, width, WalkStep(m, b, width, tol, joinThresh, st, p).0, P)
  {
    hide JoinStep, LineStep, SidesFrom, PrimedAt;
    var tan := Sub(p, st.1);
    var j := JoinStep(m, b, RoundStyle(width), tol, joinThresh, st.0, st.1, st.2, tan);
    JoinStepValid(m, b, RoundStyle(width), tol, joinThresh, st.0, st.1, st.2, tan);
    JoinFrom(m, b, RoundStyle(width), tol, joinThresh, st.0, st.1, st.2, tan, P);
    LineFrom(m, b, width, j, tan, p, P);
  }

  /** The vertices of the polyline before its end keep the sides anchored
      at `P`. */
  lemma {:induction false} LinearWalkFrom(m: MathLib, b: Backend, width: real, tol: real, joinThresh: real, lm: LinearMap,
                                         st: (Sides, Point, Point), ts: seq<real>, P: Point)
    requires SidesValid(st.0, b)
    requires st.0.fwd == [] ==> st.1 == P
    requires st.0.fwd != [] ==> SidesFrom(m, width, st.0, P)
    ensures var r := LinearWalk(m, b, width, tol, joinThresh, lm, st, ts);
      && (r.0.fwd == [] ==> r.1 == P)
      && (r.0.fwd != [] ==> SidesFrom(m, width, r.0, P))
  {
    hide WalkStep, SidesFrom;
    if ts != [] {
      var init := ts[..|ts| - 1];
      var w := LinearWalk(m, b, width, tol, joinThresh, lm, st, init);
      LinearWalkFrom(m, b, width, tol, joinThresh, lm, st, init, P);
      LinearWalkValid(m, b, width, tol, joinThresh, lm, st, init);
      WalkFrom(m, b, width, tol, joinThresh, w, CuspPoint(lm, ts[|ts| - 1]), P);
      WalkStepValid(m, b, width, tol, joinThresh, w, CuspPoint(lm, ts[|ts| - 1]));
    }
  }

  /** `do_linear` from `P` on empty sides, or on sides that begin at `P`,
      leaves sides that begin at `P`. */
  lemma LinearSidesFrom(m: MathLib, b: Backend, width: real, tol: real, joinThresh: real, c: Cubic, lm: LinearMap,
                        s: Sides, last: Point, P: Point)
    requires SidesValid(s, b)
    requires s.fwd == [] ==> last == P
    requires s.fwd != [] ==> SidesFrom(m, width, s, P)
    ensures SidesFrom(m, width, LinearSides(m, b, width, tol, joinThresh, c, lm, s, last).0, P)
  {
    hide WalkStep, LinearWalk, JoinStep, CuspTs, SidesFrom, PrimedAt;
    var tans := PathSegTangents(SegCubic(c));
    var lw := LinearWalk(m, b, width, tol, joinThresh, lm, (s, last, tans.0), CuspTs(m, lm));
    LinearWalkValid(m, b, width, tol, joinThresh, lm, (s, last, tans.0), CuspTs(m, lm));
    LinearWalkFrom(m, b, width, tol, joinThresh, lm, (s, last, tans.0), CuspTs(m, lm), P);
    var w := WalkStep(m, b, width, tol, joinThresh, lw, c.p3);
    WalkStepValid(m, b, width, tol, joinThresh, lw, c.p3);
    WalkFrom(m, b, width, tol, joinThresh, lw, c.p3, P);
    JoinFrom(m, b, RoundStyle(width), tol, joinThresh, w.0, c.p3, w.2, tans.1, P);
  }

  /** A line keeps the loop anchored. */
  lemma LineElAnchored(m: MathLib, b: Backend, style: Style, tol: real, joinThresh: real, st: StrokeState, p1: Point)
    requires StateValid(st, b) && Anchored(m, style.width, st)
    ensures Anchored(m, style.width, LineEl(m, b, style, tol, joinThresh, st, p1))
  {
    hide JoinStep, LineStep, SidesFrom, PrimedAt;
    if p1 != st.lastPt {
      var tan := Sub(p1, st.lastPt);
      var j := JoinStep(m, b, style, tol, joinThresh, st.sides, st.lastPt, st.lastTan, tan);
      JoinStepValid(m, b, style, tol, joinThresh, st.sides, st.lastPt, st.lastTan, tan);
      JoinFrom(m, b, style, tol, joinThresh, st.sides, st.lastPt, st.lastTan, tan, st.startPt);
      LineFrom(m, b, style.width, j, tan, p1, st.startPt);
      LineStepValid(m, b, style.width, j, tan, p1);
    }
  }

  /** A curve keeps the loop anchored unless it is drawn first in its
      subpath through Euler segments. */
  lemma CurveElAnchored(m: MathLib, b: Backend, style: Style, tol: real, joinThresh: real, st: StrokeState,
                        c: Cubic, tans: (Point, Point), segs: seq<EulerSeg>)
    requires StateValid(st, b) && Anchored(m, style.width, st)
    requires st.sides.fwd == [] ==> LinearTest(c, tol).Some?
    ensures Anchored(m, style.width, CurveEl(m, b, style, tol, joinThresh, st, c, tans, segs))
  {
    hide JoinStep, LinearSides, CubicStep;
    var j := JoinStep(m, b, style, tol, joinThresh, st.sides, st.lastPt, st.lastTan, tans.0);
    JoinStepValid(m, b, style, tol, joinThresh, st.sides, st.lastPt, st.lastTan, tans.0);
    JoinFrom(m, b, style, tol, joinThresh, st.sides, st.lastPt, st.lastTan, tans.0, st.startPt);
    match LinearTest(c, tol)
    case Some(lm) =>
      LinearSidesFrom(m, b, style.width, tol, joinThresh, c, lm, j, st.lastPt, st.startPt);
    case None =>
      // Lowering Euler segments onto sides that begin at the start point
      // only appends to them.
      hide Norm;
      var r := CubicStep(m, b, style.width, tol, j, segs);
      CubicStepValid(m, b, style.width, tol, j, segs);
      assert r.fwd[0] == r.fwd[..|j.fwd|][0] && r.bwd[0] == r.bwd[..|j.bwd|][0];
  }

  /** Every element keeps the loop anchored, except a curve drawn first in
      its subpath through Euler segments. */
  lemma ElStepAnchored(m: MathLib, b: Backend, style: Style, tol: real, joinThresh: real, st: StrokeState, el: PathEl, segs: seq<EulerSeg>)
    requires StateValid(st, b) && Anchored(m, style.width, st) && !EulerFirst(st, el, tol)
    ensures Anchored(m, style.width, ElStep(m, b, style, tol, joinThresh, st, el, segs))
  {
    hide LineEl, CurveEl, OpenFinish, ClosedFinish, SidesValid, SidesFrom, Raise, PathSegTangents;
    match el
    case MoveTo(p) =>
      OpenFinishValid(m, b, style, tol, st.sides, st.lastPt, st.startPt);
    case LineTo(p1) =>
      LineElAnchored(m, b, style, tol, joinThresh, st, p1);
    case QuadTo(p1, p2) =>
      if p1 != st.lastPt || p2 != st.lastPt {
        CurveElAnchored(m, b, style, tol, joinThresh, st, Raise(st.lastPt, p1, p2), PathSegTangents(SegQuad(st.lastPt, p1, p2)), segs);
      }
    case CurveTo(p1, p2, p3) =>
      if p1 != st.lastPt || p2 != st.lastPt || p3 != st.lastPt {
        var c := Cubic(st.lastPt, p1, p2, p3);
        CurveElAnchored(m, b, style, tol, joinThresh, st, c, PathSegTangents(SegCubic(c)), segs);
      }
    case ClosePath =>
      var l := LineEl(m, b, style, tol, joinThresh, st, st.startPt);
      LineElValid(m, b, style, tol, joinThresh, st, st.startPt);
      ClosedFinishValid(m, b, style, tol, joinThresh, l.sides, l.lastPt, l.lastTan);
  }

  /** `finish` on sides that begin at the start point gives a run that ends
      where it starts: the start cap comes back to startPt - startNorm,
      where the forward side begins. */
  lemma FinishLoop(m: MathLib, b: Backend, style: Style, tol: real, st: StrokeState)
    requires StateValid(st, b) && Anchored(m, style.width, st) && st.sides.fwd != []
    ensures Loop(OpenFinish(m, b, style, tol, st.sides, st.lastPt, st.startPt).0)
  {
    hide OpenFinish, Norm;
    OpenFinishValid(m, b, style, tol, st.sides, st.lastPt, st.startPt);
  }

  /** In an anchored state, the runs an element adds end where they start,
      those of a `ClosePath` provided its closing join is drawn: the forward
      side with the closing join runs from startPt - startNorm back to it,
      and the backward side reversed from startPt + startNorm back to it. */
  lemma ElRunsLoop(m: MathLib, b: Backend, style: Style, tol: real, joinThresh: real, st: StrokeState, el: PathEl)
    requires StateValid(st, b) && Anchored(m, style.width, st)
    requires ClosingJoinDrawn(m, b, style, tol, joinThresh, st, el)
    ensures var rs := ElRuns(m, b, style, tol, joinThresh, st, el);
      forall i :: 0 <= i < |rs| ==> Loop(rs[i])
  {
    hide LineEl, OpenFinish, JoinStep, ReversedAll, Norm, JoinElided;
    match el
    case MoveTo(p) =>
      if st.sides.fwd != [] {
        FinishLoop(m, b, style, tol, st);
      }
    case ClosePath =>
      var l := LineEl(m, b, style, tol, joinThresh, st, st.startPt);
      LineElValid(m, b, style, tol, joinThresh, st, st.startPt);
      LineElAnchored(m, b, style, tol, joinThresh, st, st.startPt);
      if l.sides.fwd != [] {
        var P, sn := st.startPt, l.sides.startNorm;
        var j := JoinStep(m, b, style, tol, joinThresh, l.sides, l.lastPt, l.lastTan, l.sides.startTan);
        JoinStepValid(m, b, style, tol, joinThresh, l.sides, l.lastPt, l.lastTan, l.sides.startTan);
        assert j.fwd[0] == j.fwd[..|l.sides.fwd|][0] && j.bwd[0] == j.bwd[..|l.sides.bwd|][0];
        assert j.fLast == Sub(P, sn) && j.bLast == Add(P, sn);
        assert Runs(j.bwd, Add(P, sn), Add(P, sn));
        ReversedAllProps(j.bwd, Add(P, sn), Add(P, sn), b);
      }
    case LineTo(_) =>
    case QuadTo(_, _) =>
    case CurveTo(_, _, _) =>
  }

  /** The element `el` keeps the anchoring and closes its runs: it is not a
      curve drawn first in its subpath through Euler segments, and a closing
      join it makes is drawn. */
  ghost predicate Closable(m: MathLib, b: Backend, style: Style, tol: real, st: StrokeState, el: PathEl)
  {
    !EulerFirst(st, el, tol) && ClosingJoinDrawn(m, b, style, tol, JoinThresh(style, tol), st, el)
  }

  /** The last element's step and runs after those of the elements before it. */
  lemma FoldSnoc(m: MathLib, b: Backend, style: Style, tol: real, path: seq<PathEl>, segs: seq<seq<EulerSeg>>)
    requires |segs| == |path| && path != []
    ensures var k := |path| - 1;
      var st := StrokeFold(m, b, style, tol, InitState(), path[..k], segs[..k]);
      && StrokeFold(m, b, style, tol, InitState(), path, segs) == ElStep(m, b, style, tol, JoinThresh(style, tol), st, path[k], segs[k])
      && RunsFold(m, b, style, tol, path, segs) == RunsFold(m, b, style, tol, path[..k], segs[..k]) + ElRuns(m, b, style, tol, JoinThresh(style, tol), st, path[k])
  {
    hide ElStep, ElRuns;
  }

  /** An element that is closable keeps the loop valid and anchored, and
      its runs end where they start. */
  lemma ElStepLoop(m: MathLib, b: Backend, style: Style, tol: real, st: StrokeState, el: PathEl, segs: seq<EulerSeg>)
    requires StateValid(st, b) && Anchored(m, style.width, st) && Closable(m, b, style, tol, st, el)
    ensures var r := ElStep(m, b, style, tol, JoinThresh(style, tol), st, el, segs);
      StateValid(r, b) && Anchored(m, style.width, r)
    ensures var rs := ElRuns(m, b, style, tol, JoinThresh(style, tol), st, el);
      forall i :: 0 <= i < |rs| ==> Loop(rs[i])
  {
    hide ElStep, ElRuns, StateValid, Anchored, Loop, ClosingJoinDrawn, EulerFirst;
    ElRunsLoop(m, b, style, tol, JoinThresh(style, tol), st, el);
    ElStepAnchored(m, b, style, tol, JoinThresh(style, tol), st, el, segs);
    ElStepValid(m, b, style, tol, JoinThresh(style, tol), st, el, segs);
  }

  lemma {:induction false} RunsFoldLoop(m: MathLib, b: Backend, style: Style, tol: real, path: seq<PathEl>, segs: seq<seq<EulerSeg>>)
    requires |segs| == |path|
    requires forall i :: 0 <= i < |path| ==>
      Closable(m, b, style, tol, StrokeFold(m, b, style, tol, InitState(), path[..i], segs[..i]), path[i])
    ensures var st := StrokeFold(m, b, style, tol, InitState(), path, segs);
      StateValid(st, b) && Anchored(m, style.width, st)
    ensures forall i :: 0 <= i < |RunsFold(m, b, style, tol, path, segs)| ==> Loop(RunsFold(m, b, style, tol, path, segs)[i])
  {
    if path == [] {
      assert StateValid(InitState(), b);
    } else {
      hide ElStep, ElRuns, StateValid, Anchored, Closable, Loop, StrokeFold, RunsFold;
      FoldSnoc(m, b, style, tol, path, segs);
      var k := |path| - 1;
      var pk, sk := path[..k], segs[..k];
      forall i | 0 <= i < |pk|
        ensures Closable(m, b, style, tol, StrokeFold(m, b, style, tol, InitState(), pk[..i], sk[..i]), pk[i])
      {
        assert pk[..i] == path[..i] && sk[..i] == segs[..i] && pk[i] == path[i];
      }
      var st := StrokeFold(m, b, style, tol, InitState(), pk, sk);
      var front := RunsFold(m, b, style, tol, pk, sk);
      var more := ElRuns(m, b, style, tol, JoinThresh(style, tol), st, path[k]);
      RunsFoldLoop(m, b, style, tol, pk, sk);
      ElStepLoop(m, b, style, tol, st, path[k], segs[k]);
      forall i | 0 <= i < |front + more|
        ensures Loop((front + more)[i])
      {
        if i < |front| {
          assert (front + more)[i] == front[i];
        } else {
          assert (front + more)[i] == more[i - |front|];
        }
      }
    }
  }

  /** When no subpath begins with a curve drawn through Euler segments and
      every closing join is drawn, every run of the outline ends where it
      starts: each open subpath gives one closed loop, and each closed
      subpath two. */
  lemma StrokeRunsLoop(m: MathLib, b: Backend, style: Style, tol: real, path: seq<PathEl>, segs: seq<seq<EulerSeg>>)
    requires |segs| == |path|
    requires forall i :: 0 <= i < |path| ==>
      Closable(m, b, style, tol, StrokeFold(m, b, style, tol, InitState(), path[..i], segs[..i]), path[i])
    ensures forall i :: 0 <= i < |StrokeRuns(m, b, style, tol, path, segs)| ==> Loop(StrokeRuns(m, b, style, tol, path, segs)[i])
  {
    hide ElStep, ElRuns, OpenFinish, Closable, Loop, Anchored, StateValid;
    var st := StrokeFold(m, b, style, tol, InitState(), path, segs);
    var front := RunsFold(m, b, style, tol, path, segs);
    var last := if st.sides.fwd == [] then [] else [OpenFinish(m, b, style, tol, st.sides, st.lastPt, st.startPt).0];
    RunsFoldLoop(m, b, style, tol, path, segs);
    assert forall i :: 0 <= i < |front| ==> Loop(front[i]);
    if last != [] {
      FinishLoop(m, b, style, tol, st);
    }
    assert StrokeRuns(m, b, style, tol, path, segs) == front + last;
    assert forall i :: 0 <= i < |last| ==> Loop(last[i]);
    assert forall i :: 0 <= i < |front + last| ==> (front + last)[i] == if i < |front| then front[i] else last[i - |front|];
    assert forall i :: 0 <= i < |front + last| ==> Loop((front + last)[i]);
  }

  /** A path of lines only (no quadratic or cubic segments) whose closing
      joins are all drawn is stroked into runs that all end where they
      start. */
  lemma PolylineRunsLoop(m: MathLib, b: Backend, style: Style, tol: real, path: seq<PathEl>, segs: seq<seq<EulerSeg>>)
    requires |segs| == |path|
    requires forall i :: 0 <= i < |path| ==> !path[i].QuadTo? && !path[i].CurveTo?
    requires forall i :: 0 <= i < |path| ==>
      ClosingJoinDrawn(m, b, style, tol, JoinThresh(style, tol), StrokeFold(m, b, style, tol, InitState(), path[..i], segs[..i]), path[i])
    ensures forall i :: 0 <= i < |StrokeRuns(m, b, style, tol, path, segs)| ==> Loop(StrokeRuns(m, b, style, tol, path, segs)[i])
  {
    hide StrokeFold, StrokeRuns, ClosingJoinDrawn, Loop;
    StrokeRunsLoop(m, b, style, tol, path, segs);
  }
}
