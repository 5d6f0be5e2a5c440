/**
 * Circular arc segments (arc_segment.rs): an arc from `p0` to `p1` turning
 * through the angle `k0`, and its conversion to an SVG elliptical arc.
 */
module ArcSegments {
  import opened Numeric
  import opened Geom

  datatype ArcSegment = ArcSegment(p0: Point, p1: Point, k0: real)

  /** kurbo's `SvgArc`. */
  datatype SvgArc = SvgArc(from: Point, to: Point, radii: Point, xRotation: real, largeArc: bool, sweep: bool)

  /** `ArcSegment::to_svg_arc`. The radius is half the chord over the sine of
      half the turning angle, and exactly zero (a straight line) for a
      turning angle below 1e-12 in magnitude. */
  function ToSvgArc(m: MathLib, a: ArcSegment): (r: SvgArc)
    ensures r.from == a.p0 && r.to == a.p1 && r.xRotation == 0.0
    ensures r.radii.x == r.radii.y >= 0.0
    ensures Abs(a.k0) < 1e-12 ==> r.radii.x == 0.0
    ensures r.largeArc <==> Abs(a.k0) > PI
    ensures r.sweep <==> a.k0 <= 0.0
  {
    var radius := if Abs(a.k0) < 1e-12 then 0.0 else Div(0.5 * Hypot(m, Sub(a.p1, a.p0)), m.sin(0.5 * a.k0));
    SvgArc(a.p0, a.p1, Point(Abs(radius), Abs(radius)), 0.0, Abs(a.k0) > PI, a.k0 <= 0.0)
  }

  /** `ArcSegment::reverse` (stroke.rs): the same arc traversed backwards. */
  function Reverse(a: ArcSegment): (r: ArcSegment)
    ensures r.p0 == a.p1 && r.p1 == a.p0 && r.k0 == -a.k0
  {
    ArcSegment(a.p1, a.p0, -a.k0)
  }

  /** Reversing an arc gives the SVG arc between the same two points in the
      opposite direction: the same radius and large-arc flag, and for a
      non-zero angle the opposite sweep flag. */
  lemma ReverseSvgArc(m: MathLib, a: ArcSegment)
    requires Lawful(m)
    ensures var f, b := ToSvgArc(m, a), ToSvgArc(m, Reverse(a));
      && b.from == f.to && b.to == f.from
      && b.radii == f.radii
      && b.largeArc == f.largeArc
      && (a.k0 != 0.0 ==> b.sweep == !f.sweep)
  {
    var chord, back := Sub(a.p1, a.p0), Sub(a.p0, a.p1);
    assert back == Neg(chord);
    HypotNeg(m, chord);
    assert m.sin(0.5 * -a.k0) == -m.sin(0.5 * a.k0) by {
      assert 0.5 * -a.k0 == -(0.5 * a.k0);
    }
    DivNeg(0.5 * Hypot(m, chord), m.sin(0.5 * a.k0));
    DivByNeg(0.5 * Hypot(m, chord), m.sin(0.5 * a.k0));
  }

  lemma DivByNeg(a: real, b: real)
    ensures Div(a, -b) == -Div(a, b)
  {
  }
}
