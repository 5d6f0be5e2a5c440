/**
 * Fixed-count sampling of an Euler spiral segment and of its evolute
 * (evolute.rs): eleven samples at t = 0, 1/10, ..., 1, joined into one open
 * polyline. The tolerance argument is accepted and ignored.
 */
module Evolute {
  import opened Numeric
  import opened Geom
  import opened Euler
  import opened Flatten

  /** The number of lines of each polyline. */
  const N: nat := 10

  /** The parameter of the i-th sample. */
  function SampleT(i: nat): (r: real)
  {
    (i as real) / (N as real)
  }

  /** The samples run from t = 0 to t = 1 in equal steps of 1/10, so they
      increase strictly. */
  lemma SampleTUniform(i: nat)
    requires i < N
    ensures SampleT(0) == 0.0 && SampleT(N) == 1.0
    ensures SampleT(i + 1) - SampleT(i) == 1.0 / (N as real)
    ensures SampleT(i) < SampleT(i + 1)
  {
  }

  /** An open polyline through the points: a `MoveTo` at the first and a
      `LineTo` at each later one. */
  function Polyline(pts: seq<Point>): (r: seq<PathEl>)
    ensures |r| == |pts|
    ensures forall i :: 0 <= i < |r| ==> r[i] == if i == 0 then MoveTo(pts[i]) else LineTo(pts[i])
  {
    if pts == [] then [] else [MoveTo(pts[0])] + LineTos(pts[1..])
  }

  /** One more point adds a `MoveTo` to an empty polyline and a `LineTo`
      otherwise. */
  lemma PolylineSnoc(pts: seq<Point>, p: Point)
    ensures Polyline(pts + [p]) == Polyline(pts) + [if pts == [] then MoveTo(p) else LineTo(p)]
  {
    var l, r := Polyline(pts + [p]), Polyline(pts) + [if pts == [] then MoveTo(p) else LineTo(p)];
    forall i | 0 <= i < |l|
      ensures l[i] == r[i]
    {
      if i < |pts| {
        assert (pts + [p])[i] == pts[i];
      }
    }
  }

  /** The evolute at the eleven sample parameters. */
  function EvolutePoints(m: MathLib, es: EulerSeg): (r: seq<Point>)
    ensures |r| == N + 1
  {
    seq(N + 1, i requires 0 <= i <= N => es.EvalEvolute(m, SampleT(i)))
  }

  /** The spiral at the eleven sample parameters. */
  function SpiralPoints(m: MathLib, es: EulerSeg): (r: seq<Point>)
    ensures |r| == N + 1
  {
    seq(N + 1, i requires 0 <= i <= N => es.Eval(m, SampleT(i)))
  }

  /** `flatten_es_evolute`. The result does not depend on `tol`. */
  method FlattenEsEvolute(m: MathLib, es: EulerSeg, tol: real) returns (path: seq<PathEl>)
    ensures path == Polyline(EvolutePoints(m, es))
  {
    hide EulerSeg.EvalEvolute, Polyline;
    path := [];
    for i := 0 to N + 1
      invariant path == Polyline(EvolutePoints(m, es)[..i])
    {
      var t := (i as real) / (N as real);
      var p := es.EvalEvolute(m, t);
      PolylineSnoc(EvolutePoints(m, es)[..i], p);
      assert EvolutePoints(m, es)[..i + 1] == EvolutePoints(m, es)[..i] + [p];
      if i == 0 {
        path := path + [MoveTo(p)];
      } else {
        path := path + [LineTo(p)];
      }
    }
    assert EvolutePoints(m, es)[..N + 1] == EvolutePoints(m, es);
  }

  /** `flatten_es`. The result does not depend on `tol`. */
  method FlattenEs(m: MathLib, es: EulerSeg, tol: real) returns (path: seq<PathEl>)
    ensures path == Polyline(SpiralPoints(m, es))
  {
    hide EulerSeg.Eval, Polyline;
    path := [];
    for i := 0 to N + 1
      invariant path == Polyline(SpiralPoints(m, es)[..i])
    {
      var t := (i as real) / (N as real);
      var p := es.Eval(m, t);
      PolylineSnoc(SpiralPoints(m, es)[..i], p);
      assert SpiralPoints(m, es)[..i + 1] == SpiralPoints(m, es)[..i] + [p];
      if i == 0 {
        path := path + [MoveTo(p)];
      } else {
        path := path + [LineTo(p)];
      }
    }
    assert SpiralPoints(m, es)[..N + 1] == SpiralPoints(m, es);
  }

  /** The evolute polyline has eleven elements: a `MoveTo` at the first
      sample parameter, then a `LineTo` at each later one (the parameters
      run from 0 to 1 in steps of 1/10, by SampleTUniform). */
  lemma EvolutePathShape(m: MathLib, es: EulerSeg)
    ensures var r := Polyline(EvolutePoints(m, es));
      && |r| == N + 1
      && r[0] == MoveTo(es.EvalEvolute(m, SampleT(0)))
      && forall i :: 1 <= i <= N ==> r[i] == LineTo(es.EvalEvolute(m, SampleT(i)))
  {
    hide EulerSeg.EvalEvolute;
  }

  /** The spiral polyline has eleven elements: a `MoveTo` at the segment's
      first end point, then a `LineTo` at each t = i/10, ending at t = 1. */
  lemma SpiralPathShape(m: MathLib, es: EulerSeg)
    ensures var r := Polyline(SpiralPoints(m, es));
      && |r| == N + 1
      && r[0] == MoveTo(es.p0)
      && r[N] == LineTo(es.Eval(m, 1.0))
      && forall i :: 1 <= i <= N ==> r[i] == LineTo(es.Eval(m, SampleT(i)))
  {
    hide EulerSeg.Eval;
    SampleTUniform(0);
    SegEvalAtZero(m, es);
  }
}
