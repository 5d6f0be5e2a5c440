/**
 * The RVG path serialiser (to_rvg.rs): a path becomes comma-terminated
 * fields, one tag letter per element followed by its coordinates. The
 * formatting of a number (Rust's `Display` for f64) is a parameter `fmt`.
 */
module ToRvg {
  import opened Geom

  /** The tag letter of an element. */
  function Tag(el: PathEl): (r: char)
  {
    match el
    case MoveTo(_) => 'M'
    case LineTo(_) => 'L'
    case QuadTo(_, _) => 'Q'
    case CurveTo(_, _, _) => 'C'
    case ClosePath => 'Z'
  }

  /** The coordinates an element carries, x before y, points in order. */
  function Coords(el: PathEl): (r: seq<real>)
  {
    match el
    case MoveTo(p) => [p.x, p.y]
    case LineTo(p) => [p.x, p.y]
    case QuadTo(p1, p2) => [p1.x, p1.y, p2.x, p2.y]
    case CurveTo(p1, p2, p3) => [p1.x, p1.y, p2.x, p2.y, p3.x, p3.y]
    case ClosePath => []
  }

  /** Two, two, four, six and no coordinates. */
  lemma CoordsCount(el: PathEl)
    ensures |Coords(el)| == match el
      case MoveTo(_) => 2
      case LineTo(_) => 2
      case QuadTo(_, _) => 4
      case CurveTo(_, _, _) => 6
      case ClosePath => 0
  {
  }

  /** acc followed by each number formatted and followed by a comma. */
  function Fields(fmt: real -> string, acc: string, xs: seq<real>): (r: string)
    decreases |xs|
  {
    if xs == [] then acc else Fields(fmt, acc + fmt(xs[0]) + ",", xs[1..])
  }

  /** The text of one element: its tag and a comma, then its numbers. */
  function RvgEl(fmt: real -> string, el: PathEl): (r: string)
  {
    Fields(fmt, [Tag(el), ','], Coords(el))
  }

  /** The text of a path: the elements' texts in order. */
  function RvgPath(fmt: real -> string, path: seq<PathEl>): (r: string)
  {
    if path == [] then [] else RvgPath(fmt, path[..|path| - 1]) + RvgEl(fmt, path[|path| - 1])
  }

  /** `to_rvg_path`: each element's text is formatted and appended. */
  method ToRvgPath(fmt: real -> string, path: seq<PathEl>) returns (s: string)
    ensures s == RvgPath(fmt, path)
  {
    s := [];
    for i := 0 to |path|
      invariant s == RvgPath(fmt, path[..i])
    {
      assert path[..i + 1][..i] == path[..i];
      var el := path[i];
      var piece;
      match el {
      case MoveTo(p) =>
        piece := "M," + fmt(p.x) + "," + fmt(p.y) + ",";
        Fields2(fmt, "M,", p.x, p.y);
      case LineTo(p) =>
        piece := "L," + fmt(p.x) + "," + fmt(p.y) + ",";
        Fields2(fmt, "L,", p.x, p.y);
      case QuadTo(p1, p2) =>
        piece := "Q," + fmt(p1.x) + "," + fmt(p1.y) + "," + fmt(p2.x) + "," + fmt(p2.y) + ",";
        Fields4(fmt, "Q,", p1.x, p1.y, p2.x, p2.y);
      case CurveTo(p1, p2, p3) =>
        piece := "C," + fmt(p1.x) + "," + fmt(p1.y) + "," + fmt(p2.x) + "," + fmt(p2.y) + ","
          + fmt(p3.x) + "," + fmt(p3.y) + ",";
        Fields4(fmt, "C,", p1.x, p1.y, p2.x, p2.y);
        Fields2(fmt, "C," + fmt(p1.x) + "," + fmt(p1.y) + "," + fmt(p2.x) + "," + fmt(p2.y) + ",", p3.x, p3.y);
        FieldsConcat(fmt, "C,", [p1.x, p1.y, p2.x, p2.y], [p3.x, p3.y]);
        assert [p1.x, p1.y, p2.x, p2.y] + [p3.x, p3.y] == Coords(el);
      case ClosePath =>
        piece := "Z,";
      }
      assert piece == RvgEl(fmt, el);
      assert RvgPath(fmt, path[..i + 1]) == RvgPath(fmt, path[..i]) + RvgEl(fmt, el);
      s := s + piece;
    }
    assert path[..|path|] == path;
  }

  lemma Fields2(fmt: real -> string, acc: string, a: real, b: real)
    ensures Fields(fmt, acc, [a, b]) == acc + fmt(a) + "," + fmt(b) + ","
  {
    assert [a, b][1..] == [b];
    assert [b][1..] == [];
    calc {
      Fields(fmt, acc, [a, b]);
      Fields(fmt, acc + fmt(a) + ",", [b]);
      Fields(fmt, acc + fmt(a) + "," + fmt(b) + ",", []);
    }
  }

  lemma Fields4(fmt: real -> string, acc: string, a: real, b: real, c: real, d: real)
    ensures Fields(fmt, acc, [a, b, c, d]) == acc + fmt(a) + "," + fmt(b) + "," + fmt(c) + "," + fmt(d) + ","
  {
    FieldsConcat(fmt, acc, [a, b], [c, d]);
    assert [a, b] + [c, d] == [a, b, c, d];
    Fields2(fmt, acc, a, b);
    Fields2(fmt, acc + fmt(a) + "," + fmt(b) + ",", c, d);
  }

  /** The fields of two runs of numbers, one after the other. */
  lemma {:induction false} FieldsConcat(fmt: real -> string, acc: string, xs: seq<real>, ys: seq<real>)
    ensures Fields(fmt, acc, xs + ys) == Fields(fmt, Fields(fmt, acc, xs), ys)
    decreases |xs|
  {
    if xs == [] {
      assert xs + ys == ys;
    } else {
      assert (xs + ys)[0] == xs[0];
      assert (xs + ys)[1..] == xs[1..] + ys;
      FieldsConcat(fmt, acc + fmt(xs[0]) + ",", xs[1..], ys);
    }
  }

  /** Text already written stays in front of the fields. */
  lemma {:induction false} FieldsAcc(fmt: real -> string, acc: string, xs: seq<real>)
    ensures Fields(fmt, acc, xs) == acc + Fields(fmt, [], xs)
    decreases |xs|
  {
    if xs == [] {
      assert acc + [] == acc;
    } else {
      var f := fmt(xs[0]) + ",";
      FieldsAcc(fmt, acc + fmt(xs[0]) + ",", xs[1..]);
      FieldsAcc(fmt, [] + fmt(xs[0]) + ",", xs[1..]);
      assert acc + fmt(xs[0]) + "," == acc + f;
      assert [] + fmt(xs[0]) + "," == f;
    }
  }

  /** The empty path is the empty string, and the text of two paths one
      after the other is the two texts one after the other. */
  lemma {:induction false} RvgPathAppend(fmt: real -> string, a: seq<PathEl>, b: seq<PathEl>)
    ensures RvgPath(fmt, []) == []
    ensures RvgPath(fmt, a + b) == RvgPath(fmt, a) + RvgPath(fmt, b)
    decreases |b|
  {
    RvgPathEmpty(fmt);
    hide RvgPath, RvgEl;
    if b != [] {
      var k := |b| - 1;
      calc {
        RvgPath(fmt, a + b);
      == { RvgPathSnoc(fmt, a + b); assert (a + b)[..|a + b| - 1] == a + b[..k]; assert (a + b)[|a + b| - 1] == b[k]; }
        RvgPath(fmt, a + b[..k]) + RvgEl(fmt, b[k]);
      == { RvgPathAppend(fmt, a, b[..k]); }
        RvgPath(fmt, a) + RvgPath(fmt, b[..k]) + RvgEl(fmt, b[k]);
      == { RvgPathSnoc(fmt, b); }
        RvgPath(fmt, a) + RvgPath(fmt, b);
      }
    } else {
      assert a + b == a;
    }
  }

  lemma RvgPathEmpty(fmt: real -> string)
    ensures RvgPath(fmt, []) == []
  {
  }

  lemma RvgPathSnoc(fmt: real -> string, path: seq<PathEl>)
    requires path != []
    ensures RvgPath(fmt, path) == RvgPath(fmt, path[..|path| - 1]) + RvgEl(fmt, path[|path| - 1])
  {
  }

  /** Every element's text ends with a comma, and so does the text of any
      nonempty path. */
  lemma RvgEndsWithComma(fmt: real -> string, path: seq<PathEl>)
    requires path != []
    ensures var s := RvgPath(fmt, path); s != [] && s[|s| - 1] == ','
  {
    var el := path[|path| - 1];
    FieldsEndWithComma(fmt, [Tag(el), ','], Coords(el));
  }

  lemma {:induction false} FieldsEndWithComma(fmt: real -> string, acc: string, xs: seq<real>)
    requires acc != [] && acc[|acc| - 1] == ','
    ensures var f := Fields(fmt, acc, xs); f != [] && f[|f| - 1] == ','
    decreases |xs|
  {
    if xs != [] {
      FieldsEndWithComma(fmt, acc + fmt(xs[0]) + ",", xs[1..]);
    }
  }

  // ---------------------------------------------------------------------
  // Reading the text back

  /** The position of the first comma of s, or |s|. */
  function CommaAt(s: string): (r: nat)
    ensures r <= |s| && (r < |s| ==> s[r] == ',')
    ensures forall i :: 0 <= i < r ==> s[i] != ','
  {
    if s == [] || s[0] == ',' then 0 else 1 + CommaAt(s[1..])
  }

  /** The comma-terminated fields of s (a last field without a comma is
      kept too). */
  function Split(s: string): (r: seq<string>)
    decreases |s|
  {
    if s == [] then []
    else
      var k := CommaAt(s);
      if k < |s| then [s[..k]] + Split(s[k + 1..]) else [s]
  }

  predicate NoComma(f: string)
  {
    forall i :: 0 <= i < |f| ==> f[i] != ','
  }

  lemma CommaFree(fmt: real -> string, x: real)
    requires forall y :: NoComma(fmt(y))
    ensures NoComma(fmt(x))
  {
  }

  /** A field without commas, its comma, then the rest: the field is split
      off. */
  lemma SplitField(f: string, rest: string)
    requires NoComma(f)
    ensures Split(f + [','] + rest) == [f] + Split(rest)
  {
    var s := f + [','] + rest;
    CommaAtField(f, rest);
    assert s[..|f|] == f;
    assert s[|f| + 1..] == rest;
  }

  lemma {:induction false} CommaAtField(f: string, rest: string)
    requires NoComma(f)
    ensures CommaAt(f + [','] + rest) == |f|
  {
    if f != [] {
      assert (f + [','] + rest)[1..] == f[1..] + [','] + rest;
      CommaAtField(f[1..], rest);
    }
  }

  /** The fields of the numbers' text, followed by more text. */
  lemma {:induction false} SplitFieldsAppend(fmt: real -> string, xs: seq<real>, rest: string)
    requires forall x :: NoComma(fmt(x))
    ensures Split(Fields(fmt, [], xs) + rest) == Formatted(fmt, xs) + Split(rest)
    decreases |xs|
  {
    if xs == [] {
      assert Fields(fmt, [], xs) + rest == rest;
    } else {
      var f := fmt(xs[0]);
      var tail := Fields(fmt, [], xs[1..]);
      FieldsCons(fmt, xs);
      FormattedCons(fmt, xs);
      hide Fields, Split, NoComma, Formatted;
      calc {
        Split(Fields(fmt, [], xs) + rest);
      == { assert Fields(fmt, [], xs) + rest == f + [','] + (tail + rest); }
        Split(f + [','] + (tail + rest));
      == { CommaFree(fmt, xs[0]); SplitField(f, tail + rest); }
        [f] + Split(tail + rest);
      == { SplitFieldsAppend(fmt, xs[1..], rest); }
        [f] + (Formatted(fmt, xs[1..]) + Split(rest));
        [f] + Formatted(fmt, xs[1..]) + Split(rest);
        Formatted(fmt, xs) + Split(rest);
      }
    }
  }

  lemma FieldsCons(fmt: real -> string, xs: seq<real>)
    requires xs != []
    ensures Fields(fmt, [], xs) == fmt(xs[0]) + [','] + Fields(fmt, [], xs[1..])
  {
    FieldsAcc(fmt, [] + fmt(xs[0]) + ",", xs[1..]);
    assert [] + fmt(xs[0]) + "," == fmt(xs[0]) + [','];
  }

  lemma FormattedCons(fmt: real -> string, xs: seq<real>)
    requires xs != []
    ensures Formatted(fmt, xs) == [fmt(xs[0])] + Formatted(fmt, xs[1..])
  {
  }

  /** The numbers as formatted. */
  function Formatted(fmt: real -> string, xs: seq<real>): (r: seq<string>)
    ensures |r| == |xs|
  {
    if xs == [] then [] else [fmt(xs[0])] + Formatted(fmt, xs[1..])
  }

  /** The fields an element is read back as: its tag, then its numbers. */
  function Decoded(fmt: real -> string, path: seq<PathEl>): (r: seq<string>)
  {
    if path == [] then []
    else
      var el := path[0];
      [[Tag(el)]] + Formatted(fmt, Coords(el)) + Decoded(fmt, path[1..])
  }

  /** As long as no formatted number contains a comma, splitting the text
      at its commas gives back, element by element, the tag and then the
      formatted coordinates. */
  lemma {:induction false} RvgRoundTrip(fmt: real -> string, path: seq<PathEl>)
    requires forall x :: NoComma(fmt(x))
    ensures Split(RvgPath(fmt, path)) == Decoded(fmt, path)
  {
    if path != [] {
      var el := path[0];
      var rest := RvgPath(fmt, path[1..]);
      var f := Fields(fmt, [], Coords(el));
      var fs := Formatted(fmt, Coords(el));
      var ds := Decoded(fmt, path[1..]);
      hide RvgPath, Fields, Split, Formatted, Decoded, RvgEl, NoComma;
      calc {
        Split(RvgPath(fmt, path));
      == { RvgHead(fmt, path); }
        Split([Tag(el)] + [','] + (f + rest));
      == { TagNoComma(el); SplitField([Tag(el)], f + rest); }
        [[Tag(el)]] + Split(f + rest);
      == { SplitFieldsAppend(fmt, Coords(el), rest); RvgRoundTrip(fmt, path[1..]); }
        [[Tag(el)]] + (fs + ds);
        [[Tag(el)]] + fs + ds;
      == { DecodedCons(fmt, path); }
        Decoded(fmt, path);
      }
    }
  }

  /** A tag is no comma. */
  lemma TagNoComma(el: PathEl)
    ensures NoComma([Tag(el)])
  {
  }

  /** The text of a path: the tag of its first element, a comma, the
      fields of its coordinates, then the text of the other elements. */
  lemma RvgHead(fmt: real -> string, path: seq<PathEl>)
    requires path != []
    ensures RvgPath(fmt, path) == [Tag(path[0])] + [','] + (Fields(fmt, [], Coords(path[0])) + RvgPath(fmt, path[1..]))
  {
    var el := path[0];
    var f := Fields(fmt, [], Coords(el));
    var rest := RvgPath(fmt, path[1..]);
    hide RvgPath, Fields, RvgEl;
    RvgPathCons(fmt, path);
    RvgElFields(fmt, el);
    Concat4([Tag(el)], [','], f, rest);
  }

  /** The text of an element: its tag, a comma and the fields of its
      coordinates. */
  lemma RvgElFields(fmt: real -> string, el: PathEl)
    ensures RvgEl(fmt, el) == [Tag(el)] + [','] + Fields(fmt, [], Coords(el))
  {
    FieldsAcc(fmt, [Tag(el), ','], Coords(el));
    assert [Tag(el), ','] == [Tag(el)] + [','];
  }

  lemma Concat4(a: string, b: string, c: string, d: string)
    ensures a + b + c + d == a + b + (c + d)
  {
  }

  lemma RvgPathCons(fmt: real -> string, path: seq<PathEl>)
    requires path != []
    ensures RvgPath(fmt, path) == RvgEl(fmt, path[0]) + RvgPath(fmt, path[1..])
  {
    var el := path[0];
    hide RvgEl;
    RvgPathAppend(fmt, [el], path[1..]);
    assert [el] + path[1..] == path;
    assert [el][..0] == [];
    assert RvgPath(fmt, [el]) == RvgEl(fmt, el);
  }

  lemma DecodedCons(fmt: real -> string, path: seq<PathEl>)
    requires path != []
    ensures Decoded(fmt, path) == [[Tag(path[0])]] + Formatted(fmt, Coords(path[0])) + Decoded(fmt, path[1..])
  {
  }

  // ---------------------------------------------------------------------
  // The stroke of a scene path

  /** The transform after the path text of a scene path: nothing when its
      scale is one, otherwise a uniform affine scale by it. */
  function AffineSuffix(fmt: real -> string, scale: real): (r: string)
    ensures r == [] <==> scale == 1.0
  {
    if scale == 1.0 then []
    else ":affine(" + fmt(scale) + ", 0, 0, 0, " + fmt(scale) + ", 0)"
  }
}
