/**
 * The SVG front end (svg.rs): a small lexer for `transform` attributes, the
 * scale read from them, the walk over the element tree that collects the
 * stroked paths with their styles and scales, and the expansion of every
 * collected path.
 *
 * Foreign calls are parameters: `parse` is Rust's `f64::from_str` and
 * `fromSvg` is kurbo's `BezPath::from_svg`. The XML (roxmltree) document is
 * given as a tree of `Node` values.
 */
module Svg {
  import opened Numeric
  import opened Geom
  import opened Lowering
  import opened Euler
  import opened EulerIter
  import opened Stroke

  // ---------------------------------------------------------------------
  // Character classes and runs

  predicate IsDigit(c: char)
  {
    '0' <= c <= '9'
  }

  /** A character `scan_num` takes in the mantissa: a digit or a point
      (several points are let through). */
  predicate IsNumChar(c: char)
  {
    IsDigit(c) || c == '.'
  }

  predicate IsIdentChar(c: char)
  {
    c == '_' || IsDigit(c) || 'a' <= c <= 'z' || 'A' <= c <= 'Z'
  }

  /** The end of the longest run of characters satisfying p from i on. */
  function Span(p: char -> bool, s: string, i: nat): (r: nat)
    requires i <= |s|
    ensures i <= r <= |s|
    ensures forall k :: i <= k < r ==> p(s[k])
    ensures r == |s| || !p(s[r])
    decreases |s| - i
  {
    if i == |s| || !p(s[i]) then i else Span(p, s, i + 1)
  }

  // ---------------------------------------------------------------------
  // scan_num

  /** The length `scan_num` measures: an optional minus, a run of digits
      and points, and when an exponent letter follows, that letter, an
      optional sign and a run of digits. */
  function NumLen(s: string): (r: nat)
    ensures r <= |s|
  {
    var a := if s != [] && s[0] == '-' then 1 else 0;
    var b := Span(IsNumChar, s, a);
    if b < |s| && (s[b] == 'e' || s[b] == 'E') then
      var c := b + 1;
      var d := if c < |s| && (s[c] == '-' || s[c] == '+') then c + 1 else c;
      Span(IsDigit, s, d)
    else b
  }

  /** `scan_num`; the source reads the first byte unconditionally. */
  method ScanNum(s: string) returns (i: nat)
    requires s != []
    ensures i == NumLen(s)
  {
    i := 0;
    if s[i] == '-' {
      i := i + 1;
    }
    ghost var a := i;
    while i < |s|
      invariant a <= i <= |s|
      invariant forall k :: a <= k < i ==> IsNumChar(s[k])
      decreases |s| - i
    {
      if IsDigit(s[i]) || s[i] == '.' {
        i := i + 1;
      } else {
        break;
      }
    }
    assert i == Span(IsNumChar, s, a) by {
      SpanUnique(IsNumChar, s, a, i);
    }
    if i < |s| {
      if s[i] == 'e' || s[i] == 'E' {
        i := i + 1;
        if i < |s| {
          if s[i] == '-' || s[i] == '+' {
            i := i + 1;
          }
        }
        ghost var d := i;
        while i < |s|
          invariant d <= i <= |s|
          invariant forall k :: d <= k < i ==> IsDigit(s[k])
          decreases |s| - i
        {
          if !IsDigit(s[i]) {
            break;
          }
          i := i + 1;
        }
        SpanUnique(IsDigit, s, d, i);
      }
    }
  }

  /** A run that ends where p first fails is the one Span finds. */
  lemma SpanUnique(p: char -> bool, s: string, i: nat, j: nat)
    requires i <= j <= |s|
    requires forall k :: i <= k < j ==> p(s[k])
    requires j == |s| || !p(s[j])
    ensures Span(p, s, i) == j
  {
  }

  /** The exponent part of t from j on: nothing, or an exponent letter
      followed by digits, the first of which may be a sign instead. */
  predicate ExpTail(t: string, j: nat)
    requires j <= |t|
  {
    j == |t|
    || ((t[j] == 'e' || t[j] == 'E')
        && forall m :: j < m < |t| ==> IsDigit(t[m]) || (m == j + 1 && (t[m] == '+' || t[m] == '-')))
  }

  /** t splits into an optional minus (the first a characters), a run of
      digits and points up to j, and an exponent part. */
  predicate NumShape(t: string, a: nat, j: nat)
  {
    && (a == 0 || (a == 1 && t != [] && t[0] == '-'))
    && a <= j <= |t|
    && (forall m :: a <= m < j ==> IsNumChar(t[m]))
    && ExpTail(t, j)
  }

  /** The language `scan_num` recognises:
      `-?[0-9.]*([eE][+-]?[0-9]*)?`. */
  predicate MatchesNum(t: string)
  {
    exists a: nat, j: nat | a <= 1 && j <= |t| :: NumShape(t, a, j)
  }

  /** `scan_num` finds the longest prefix in its language: that prefix
      matches, and no longer prefix does. */
  lemma NumLenLongest(s: string)
    ensures MatchesNum(s[..NumLen(s)])
    ensures forall k :: NumLen(s) < k <= |s| ==> !MatchesNum(s[..k])
  {
    var n := NumLen(s);
    var a := if s != [] && s[0] == '-' then 1 else 0;
    var b := Span(IsNumChar, s, a);
    var t := s[..n];
    assert NumShape(t, a, b);
  }

  // ---------------------------------------------------------------------
  // scan_ident

  /** The length `scan_ident` measures: the first character, then the
      longest run of letters, digits and underscores (one, at the least,
      even on empty input). */
  function IdentLen(s: string): (r: nat)
    ensures 1 <= r
    ensures s != [] ==> r <= |s| && (forall k :: 1 <= k < r ==> IsIdentChar(s[k])) && (r == |s| || !IsIdentChar(s[r]))
  {
    if s == [] then 1 else Span(IsIdentChar, s, 1)
  }

  /** `scan_ident`. */
  method ScanIdent(s: string) returns (i: nat)
    ensures i == IdentLen(s)
  {
    i := 1;
    while i < |s|
      invariant 1 <= i && (s != [] ==> i <= |s|) && (s == [] ==> i == 1)
      invariant forall k :: 1 <= k < i && k < |s| ==> IsIdentChar(s[k])
      decreases |s| - i
    {
      var b := s[i];
      if b == '_' || '0' <= b <= '9' || 'a' <= b <= 'z' || 'A' <= b <= 'Z' {
        i := i + 1;
      } else {
        break;
      }
    }
    if s != [] {
      SpanUnique(IsIdentChar, s, 1, i);
    }
  }

  // ---------------------------------------------------------------------
  // The lexer

  datatype Token = Ident(name: string) | Number(value: real) | Symbol(sym: char)

  /** What `Lexer::next` yields: a token, the end of the input, or a panic
      (a scanned number that does not parse). */
  datatype Lexed = Got(t: Token) | NoToken | Panics

  /** The one property of `f64::from_str` the lexer needs: the empty text is
      not a number. */
  predicate RejectsEmpty(parse: string -> Option<real>)
  {
    parse([]) == None
  }

  /** The input with its leading spaces removed: a suffix of it, not
      starting with a space, with only spaces before it. */
  function SkipSpaces(s: string): (r: string)
    ensures |r| <= |s| && r == s[|s| - |r|..]
    ensures r == [] || r[0] != ' '
    ensures forall k :: 0 <= k < |s| - |r| ==> s[k] == ' '
  {
    if s != [] && s[0] == ' ' then SkipSpaces(s[1..]) else s
  }

  /** A character that starts a number token. */
  predicate StartsNumber(c: char)
  {
    IsDigit(c) || c == '-' || c == '+' || c == '.'
  }

  /** A character that starts an identifier token: a lower-case letter or
      anything from 'A' to 'z', which takes in `[`, `\`, `]`, `^`, `_` and
      the backquote. */
  predicate StartsIdent(c: char)
  {
    'a' <= c <= 'z' || 'A' <= c <= 'z'
  }

  /** The token at the start of u, which starts with no space, and the
      input left after it. A token always consumes input once the empty
      text is rejected, and what is left is a suffix of u. */
  function LexToken(parse: string -> Option<real>, u: string): (r: (Lexed, string))
    ensures |r.1| <= |u| && r.1 == u[|u| - |r.1|..]
    ensures r.0.NoToken? <==> u == []
    ensures r.0.NoToken? ==> r.1 == []
    ensures RejectsEmpty(parse) && r.0.Got? ==> |r.1| < |u|
  {
    if u == [] then (NoToken, [])
    else
      var c := u[0];
      if StartsNumber(c) then
        var len := NumLen(u);
        match parse(u[..len])
        case None => (Panics, u)
        case Some(v) => (Got(Number(v)), u[len..])
      else if StartsIdent(c) then
        var len := IdentLen(u);
        (Got(Ident(u[..len])), u[len..])
      else (Got(Symbol(c)), u[1..])
  }

  /** `Lexer::next` on the remaining input s: the leading spaces are
      skipped, then one token is taken. */
  function Lex(parse: string -> Option<real>, s: string): (r: (Lexed, string))
    ensures |r.1| <= |s| && r.1 == s[|s| - |r.1|..]
    ensures r.0.NoToken? ==> r.1 == []
    ensures RejectsEmpty(parse) && r.0.Got? ==> |r.1| < |s|
  {
    var u := SkipSpaces(s);
    var r := LexToken(parse, u);
    assert r.1 == s[|s| - |r.1|..] by {
      assert u == s[|s| - |u|..];
    }
    r
  }

  /** `Lexer`: the input not yet consumed. */
  class Lexer {
    var rest: string

    constructor (s: string)
      ensures rest == s
    {
      rest := s;
    }

    /** `peek`: the next character, none at the end of the input. */
    function Peek(): (r: Option<char>)
      reads this
      ensures r.None? <==> rest == []
      ensures r.Some? ==> r.value == rest[0]
    {
      if rest == [] then None else Some(rest[0])
    }

    /** `skip_whitespace`: drops the leading spaces (only the space
        character counts). */
    method SkipWhitespace()
      modifies this
      ensures rest == SkipSpaces(old(rest))
    {
      while Peek() == Some(' ')
        invariant SkipSpaces(rest) == SkipSpaces(old(rest))
        decreases |rest|
      {
        rest := rest[1..];
      }
    }

    /** `next`. */
    method Next(parse: string -> Option<real>) returns (r: Lexed)
      modifies this
      ensures (r, rest) == Lex(parse, old(rest))
    {
      SkipWhitespace();
      r := NextToken(parse);
    }

    /** `next` after the leading spaces are skipped. */
    method NextToken(parse: string -> Option<real>) returns (r: Lexed)
      modifies this
      ensures (r, rest) == LexToken(parse, old(rest))
    {
      hide NumLen, IdentLen;
      var c := Peek();
      if c.None? {
        return NoToken;
      }
      if StartsNumber(c.value) {
        var len := ScanNum(rest);
        var number := parse(rest[0..len]);
        if number.None? {
          return Panics;
        }
        rest := rest[len..];
        return Got(Number(number.value));
      }
      if ('a' <= c.value <= 'z') || ('A' <= c.value <= 'z') {
        var len := ScanIdent(rest);
        var ident := rest[0..len];
        rest := rest[len..];
        return Got(Ident(ident));
      }
      rest := rest[1..];
      return Got(Symbol(c.value));
    }
  }

  /** Leading spaces make no difference to the lexer. */
  lemma LexSkipsSpace(parse: string -> Option<real>, s: string)
    ensures Lex(parse, [' '] + s) == Lex(parse, s)
  {
    hide LexToken;
    assert ([' '] + s)[1..] == s;
    assert SkipSpaces([' '] + s) == SkipSpaces(s);
  }

  /** The lexer yields nothing exactly on input made of spaces. */
  lemma LexEnd(parse: string -> Option<real>, s: string)
    ensures Lex(parse, s).0.NoToken? <==> forall k :: 0 <= k < |s| ==> s[k] == ' '
  {
    var u := SkipSpaces(s);
    if u != [] {
      assert s[|s| - |u|] == u[0];
    }
  }

  /** An identifier token is the longest run of letters, digits and
      underscores after its first character, and the input is the spaces
      before it, the identifier, and the rest. */
  lemma LexIdent(parse: string -> Option<real>, s: string)
    requires Lex(parse, s).0.Got? && Lex(parse, s).0.t.Ident?
    ensures var (r, rest) := Lex(parse, s); var name := r.t.name;
      && name != [] && StartsIdent(name[0])
      && (forall k :: 1 <= k < |name| ==> IsIdentChar(name[k]))
      && (rest == [] || !IsIdentChar(rest[0]))
      && s == SpacesBefore(s) + name + rest
  {
    hide Lex, LexToken, SkipSpaces, SpacesBefore, StartsIdent, IsIdentChar;
    LexIsToken(parse, s);
    SpacesSplit(s);
    LexTokenIdent(parse, SkipSpaces(s));
  }

  lemma LexIsToken(parse: string -> Option<real>, s: string)
    ensures Lex(parse, s) == LexToken(parse, SkipSpaces(s))
  {
  }

  lemma SpacesSplit(s: string)
    ensures s == SpacesBefore(s) + SkipSpaces(s)
  {
    var u := SkipSpaces(s);
    assert s == s[..|s| - |u|] + s[|s| - |u|..];
  }

  lemma LexTokenIdent(parse: string -> Option<real>, u: string)
    requires LexToken(parse, u).0.Got? && LexToken(parse, u).0.t.Ident?
    ensures var (r, rest) := LexToken(parse, u); var name := r.t.name;
      && name != [] && StartsIdent(name[0])
      && (forall k :: 1 <= k < |name| ==> IsIdentChar(name[k]))
      && (rest == [] || !IsIdentChar(rest[0]))
      && u == name + rest
  {
    var len := IdentLen(u);
    assert !StartsNumber(u[0]) && StartsIdent(u[0]);
    assert LexToken(parse, u) == (Got(Ident(u[..len])), u[len..]);
    assert u == u[..len] + u[len..];
  }

  /** The spaces the lexer skips at the start of s. */
  function SpacesBefore(s: string): (r: string)
    ensures forall k :: 0 <= k < |r| ==> r[k] == ' '
  {
    s[..|s| - |SkipSpaces(s)|]
  }

  /** With the empty text rejected, a `+` that starts a token makes the
      lexer panic: `scan_num` takes no leading plus, so the text handed to
      the number parser is empty. */
  lemma LexPlusPanics(parse: string -> Option<real>, s: string)
    requires RejectsEmpty(parse)
    requires var u := SkipSpaces(s); u != [] && u[0] == '+'
    ensures Lex(parse, s).0.Panics?
  {
    var u := SkipSpaces(s);
    assert NumLen(u) == 0 by {
      assert Span(IsNumChar, u, 0) == 0;
    }
    assert u[..0] == [];
  }

  /** A number token is what `f64::from_str` makes of the longest prefix in
      the language of `scan_num`, and the lexer continues just after it. */
  lemma LexNumber(parse: string -> Option<real>, s: string)
    requires var u := SkipSpaces(s); u != [] && StartsNumber(u[0])
    ensures var u := SkipSpaces(s); var n := NumLen(u);
      && MatchesNum(u[..n])
      && (forall k :: n < k <= |u| ==> !MatchesNum(u[..k]))
      && Lex(parse, s) == match parse(u[..n])
        case None => (Panics, u)
        case Some(v) => (Got(Number(v)), u[n..])
  {
    NumLenLongest(SkipSpaces(s));
  }

  // ---------------------------------------------------------------------
  // get_transform_scale

  /** The scale multiplied by an argument (`scale *= n`). */
  function Times(acc: real, n: real): real
  {
    acc * n
  }

  /** Where `get_transform_scale` goes after one step: it stops with a
      result (none is a panic of the lexer), or goes on with the rest of
      the input and a new scale. */
  datatype Cont = Stop(result: Option<real>) | Go(rest: string, acc: real)

  /** One turn of the loop of `get_transform_scale`: the next token, and
      when it is `scale` or `matrix`, the call after it. Going on always
      means input was consumed. */
  function ScaleStep(parse: string -> Option<real>, s: string, acc: real): (r: Cont)
    requires RejectsEmpty(parse)
    ensures r.Go? ==> |r.rest| < |s|
  {
    hide Lex;
    var (f, s1) := Lex(parse, s);
    if f.Panics? then Stop(None)
    else if f.NoToken? then Stop(Some(acc))
    else if f.t == Ident("scale") then CallStep(parse, s1, acc, true)
    else if f.t == Ident("matrix") then CallStep(parse, s1, acc, false)
    else Go(s1, acc)
  }

  /** The arguments of a `scale` call (`isScale`) or a `matrix` call: after
      `( n` the scale is multiplied by n; a `scale` call goes on only past a
      `)` right after n, a `matrix` call skips to the next `)`. Anything
      else in place of `(` or n is passed over. */
  function CallStep(parse: string -> Option<real>, s1: string, acc: real, isScale: bool): (r: Cont)
    requires RejectsEmpty(parse)
    ensures r.Go? ==> |r.rest| <= |s1|
  {
    hide Lex;
    var (t1, s2) := Lex(parse, s1);
    if t1.Panics? then Stop(None)
    else if t1 != Got(Symbol('(')) then Go(s2, acc)
    else
      var (t2, s3) := Lex(parse, s2);
      if t2.Panics? then Stop(None)
      else if !(t2.Got? && t2.t.Number?) then Go(s3, acc)
      else if isScale then
        var (t3, s4) := Lex(parse, s3);
        if t3.Panics? then Stop(None)
        else if t3 != Got(Symbol(')')) then Stop(Some(Times(acc, t2.t.value)))
        else Go(s4, Times(acc, t2.t.value))
      else
        match SkipPastClose(parse, s3)
        case None => Stop(None)
        case Some(s4) => Go(s4, Times(acc, t2.t.value))
  }

  /** The input after the next `)` token (empty when there is none), or
      none when the lexer panics first. */
  function SkipPastClose(parse: string -> Option<real>, s: string): (r: Option<string>)
    requires RejectsEmpty(parse)
    ensures r.Some? ==> |r.value| <= |s|
    decreases |s|
  {
    hide Lex;
    var (t, s1) := Lex(parse, s);
    if t.Panics? then None
    else if t.NoToken? then Some([])
    else if t.t == Symbol(')') then Some(s1)
    else SkipPastClose(parse, s1)
  }

  /** The loop of `get_transform_scale` from input s and scale acc. */
  function ScaleFrom(parse: string -> Option<real>, s: string, acc: real): (r: Option<real>)
    requires RejectsEmpty(parse)
    decreases |s|
  {
    match ScaleStep(parse, s, acc)
    case Stop(r) => r
    case Go(s', acc') => ScaleFrom(parse, s', acc')
  }

  /** The scale of a `transform` attribute, none when the lexer panics. */
  function TransformScale(parse: string -> Option<real>, transform: string): (r: Option<real>)
    requires RejectsEmpty(parse)
  {
    ScaleFrom(parse, transform, 1.0)
  }

  /** `get_transform_scale`. */
  method GetTransformScale(parse: string -> Option<real>, transform: string) returns (r: Option<real>)
    requires RejectsEmpty(parse)
    ensures r == TransformScale(parse, transform)
  {
    var scale := 1.0;
    var lexer := new Lexer(transform);
    while true
      invariant ScaleFrom(parse, lexer.rest, scale) == TransformScale(parse, transform)
      decreases |lexer.rest|
    {
      var stop;
      stop, r, scale := Step(parse, lexer, scale);
      if stop {
        return;
      }
    }
  }

  /** One turn of the loop of `get_transform_scale`. */
  method Step(parse: string -> Option<real>, lexer: Lexer, scale: real) returns (stop: bool, r: Option<real>, scale': real)
    requires RejectsEmpty(parse)
    modifies lexer
    ensures ScaleStep(parse, old(lexer.rest), scale) == if stop then Stop(r) else Go(lexer.rest, scale')
  {
    hide Lex, CallStep;
    scale', r := scale, None;
    var func := lexer.Next(parse);
    if func.Panics? {
      return true, None, scale';
    }
    if func.NoToken? {
      return true, Some(scale), scale';
    }
    stop := false;
    if func.t == Ident("scale") {
      stop, r, scale' := ScaleArgs(parse, lexer, scale);
    } else if func.t == Ident("matrix") {
      stop, r, scale' := MatrixArgs(parse, lexer, scale);
    }
  }

  /** The `scale` branch of `get_transform_scale`. */
  method ScaleArgs(parse: string -> Option<real>, lexer: Lexer, scale: real) returns (stop: bool, r: Option<real>, scale': real)
    requires RejectsEmpty(parse)
    modifies lexer
    ensures CallStep(parse, old(lexer.rest), scale, true) == if stop then Stop(r) else Go(lexer.rest, scale')
  {
    hide Lex;
    stop, r, scale' := false, None, scale;
    var t1 := lexer.Next(parse);
    if t1.Panics? {
      return true, None, scale';
    }
    if t1 == Got(Symbol('(')) {
      var t2 := lexer.Next(parse);
      if t2.Panics? {
        return true, None, scale';
      }
      if t2.Got? && t2.t.Number? {
        scale' := Times(scale', t2.t.value);
        var t3 := lexer.Next(parse);
        if t3.Panics? {
          return true, None, scale';
        }
        if t3 != Got(Symbol(')')) {
          return true, Some(scale'), scale';
        }
      }
    }
  }

  /** The `matrix` branch of `get_transform_scale`. */
  method MatrixArgs(parse: string -> Option<real>, lexer: Lexer, scale: real) returns (stop: bool, r: Option<real>, scale': real)
    requires RejectsEmpty(parse)
    modifies lexer
    ensures CallStep(parse, old(lexer.rest), scale, false) == if stop then Stop(r) else Go(lexer.rest, scale')
  {
    hide Lex;
    stop, r, scale' := false, None, scale;
    var t1 := lexer.Next(parse);
    if t1.Panics? {
      return true, None, scale';
    }
    if t1 == Got(Symbol('(')) {
      var t2 := lexer.Next(parse);
      if t2.Panics? {
        return true, None, scale';
      }
      if t2.Got? && t2.t.Number? {
        scale' := Times(scale', t2.t.value);
        var ok := SkipToClose(parse, lexer);
        if !ok {
          return true, None, scale';
        }
      }
    }
  }

  /** The skip to the closing parenthesis of a `matrix` call: false when
      the lexer panics. */
  method SkipToClose(parse: string -> Option<real>, lexer: Lexer) returns (ok: bool)
    requires RejectsEmpty(parse)
    modifies lexer
    ensures SkipPastClose(parse, old(lexer.rest)) == if ok then Some(lexer.rest) else None
  {
    hide Lex;
    while true
      invariant SkipPastClose(parse, lexer.rest) == SkipPastClose(parse, old(lexer.rest))
      decreases |lexer.rest|
    {
      var tok := lexer.Next(parse);
      if tok.Panics? {
        return false;
      }
      if tok.NoToken? || tok.t == Symbol(')') {
        return true;
      }
    }
  }

  // ---------------------------------------------------------------------
  // The scale read off the token stream

  /** All tokens of s, or none when the lexer panics on the way. */
  function LexAll(parse: string -> Option<real>, s: string): (r: Option<seq<Token>>)
    requires RejectsEmpty(parse)
    decreases |s|
  {
    hide Lex;
    var (t, s1) := Lex(parse, s);
    if t.Panics? then None
    else if t.NoToken? then Some([])
    else match LexAll(parse, s1)
      case None => None
      case Some(ts) => Some([t.t] + ts)
  }

  /** Where the token-level reading goes after one step. */
  datatype TCont = TStop(v: real) | TGo(rest: seq<Token>, acc: real)

  /** One turn of `get_transform_scale` on a token stream. */
  function TokStep(toks: seq<Token>, acc: real): (r: TCont)
    ensures r.TGo? ==> |r.rest| < |toks|
  {
    if toks == [] then TStop(acc)
    else if toks[0] == Ident("scale") then TokCall(toks[1..], acc, true)
    else if toks[0] == Ident("matrix") then TokCall(toks[1..], acc, false)
    else TGo(toks[1..], acc)
  }

  /** The arguments of a `scale` or `matrix` call on a token stream. */
  function TokCall(ts: seq<Token>, acc: real, isScale: bool): (r: TCont)
    ensures r.TGo? ==> |r.rest| <= |ts|
  {
    if ts == [] then TGo([], acc)
    else if ts[0] != Symbol('(') then TGo(ts[1..], acc)
    else if |ts| == 1 then TGo([], acc)
    else if !ts[1].Number? then TGo(ts[2..], acc)
    else
      var n := ts[1].value;
      var r3 := ts[2..];
      if isScale then
        if r3 == [] || r3[0] != Symbol(')') then TStop(Times(acc, n)) else TGo(r3[1..], Times(acc, n))
      else TGo(TokSkip(r3), Times(acc, n))
  }

  /** The tokens after the next `)`, none left when there is none. */
  function TokSkip(ts: seq<Token>): (r: seq<Token>)
    ensures |r| <= |ts|
  {
    if ts == [] then []
    else if ts[0] == Symbol(')') then ts[1..]
    else TokSkip(ts[1..])
  }

  /** `get_transform_scale` on a token stream. */
  function TokScale(ts: seq<Token>, acc: real): (r: real)
    decreases |ts|
  {
    match TokStep(ts, acc)
    case TStop(v) => v
    case TGo(rest, acc') => TokScale(rest, acc')
  }

  /** LexAll on s: the first token and the tokens after it. */
  lemma LexAllStep(parse: string -> Option<real>, s: string)
    requires RejectsEmpty(parse) && LexAll(parse, s).Some?
    ensures var ts := LexAll(parse, s).value; var (t, s1) := Lex(parse, s);
      && (ts == [] <==> t.NoToken?)
      && (ts == [] ==> s1 == [] && LexAll(parse, s1) == Some([]))
      && (ts != [] ==> t == Got(ts[0]) && LexAll(parse, s1) == Some(ts[1..]))
  {
    hide Lex;
    var (t, s1) := Lex(parse, s);
    if t.NoToken? {
      LexEmpty(parse);
    }
  }

  /** The empty input yields no token. */
  lemma LexEmpty(parse: string -> Option<real>)
    ensures Lex(parse, []) == (NoToken, [])
  {
  }

  lemma {:induction false} SkipLink(parse: string -> Option<real>, s: string)
    requires RejectsEmpty(parse) && LexAll(parse, s).Some?
    ensures SkipPastClose(parse, s).Some?
    ensures LexAll(parse, SkipPastClose(parse, s).value) == Some(TokSkip(LexAll(parse, s).value))
    decreases |s|
  {
    hide Lex;
    LexAllStep(parse, s);
    var (t, s1) := Lex(parse, s);
    if t.Got? && t.t != Symbol(')') {
      SkipLink(parse, s1);
    }
  }

  lemma CallLink(parse: string -> Option<real>, s1: string, acc: real, isScale: bool)
    requires RejectsEmpty(parse) && LexAll(parse, s1).Some?
    ensures var c := CallStep(parse, s1, acc, isScale); var tc := TokCall(LexAll(parse, s1).value, acc, isScale);
      && (tc.TStop? ==> c == Stop(Some(tc.v)))
      && (tc.TGo? ==> c.Go? && c.acc == tc.acc && LexAll(parse, c.rest) == Some(tc.rest))
  {
    hide Lex, LexAll;
    var ts := LexAll(parse, s1).value;
    LexAllStep(parse, s1);
    var (t1, s2) := Lex(parse, s1);
    if t1 == Got(Symbol('(')) {
      LexAllStep(parse, s2);
      var (t2, s3) := Lex(parse, s2);
      assert ts[1..] == LexAll(parse, s2).value;
      if t2.Got? && t2.t.Number? {
        LexAllStep(parse, s3);
        assert ts[2..] == LexAll(parse, s3).value;
        if !isScale {
          SkipLink(parse, s3);
        }
      }
    }
  }

  lemma StepLink(parse: string -> Option<real>, s: string, acc: real)
    requires RejectsEmpty(parse) && LexAll(parse, s).Some?
    ensures var c := ScaleStep(parse, s, acc); var tc := TokStep(LexAll(parse, s).value, acc);
      && (tc.TStop? ==> c == Stop(Some(tc.v)))
      && (tc.TGo? ==> c.Go? && c.acc == tc.acc && LexAll(parse, c.rest) == Some(tc.rest))
  {
    hide Lex, LexAll, CallStep, TokCall;
    LexAllStep(parse, s);
    var (t, s1) := Lex(parse, s);
    if t.Got? {
      CallLink(parse, s1, acc, true);
      CallLink(parse, s1, acc, false);
    }
  }

  /** When the whole attribute lexes, `get_transform_scale` is the reading
      of its token stream. */
  lemma {:induction false} ScaleFromTokens(parse: string -> Option<real>, s: string, acc: real)
    requires RejectsEmpty(parse) && LexAll(parse, s).Some?
    ensures ScaleFrom(parse, s, acc) == Some(TokScale(LexAll(parse, s).value, acc))
    decreases |s|
  {
    hide ScaleStep, TokStep, LexAll;
    StepLink(parse, s, acc);
    var c := ScaleStep(parse, s, acc);
    if c.Go? {
      ScaleFromTokens(parse, c.rest, c.acc);
    }
  }

  // ---------------------------------------------------------------------
  // Transform lists

  /** A transform function applied to its arguments, such as
      `scale(2)` or `matrix(a, b, c, d, e, f)`. */
  datatype TransformFn = TransformFn(name: string, args: seq<real>)

  /** The tokens of a list of arguments separated by commas. */
  function ArgTokens(args: seq<real>): (r: seq<Token>)
    ensures forall i :: 0 <= i < |r| ==> !r[i].Ident? && r[i] != Symbol(')')
    ensures args != [] ==> r != [] && r[0] == Number(args[0])
  {
    if args == [] then []
    else if |args| == 1 then [Number(args[0])]
    else [Number(args[0]), Symbol(',')] + ArgTokens(args[1..])
  }

  /** The tokens of one call. */
  function CallTokens(f: TransformFn): (r: seq<Token>)
  {
    [Ident(f.name), Symbol('(')] + ArgTokens(f.args) + [Symbol(')')]
  }

  /** The tokens of a transform list. */
  function TransformTokens(fns: seq<TransformFn>): (r: seq<Token>)
  {
    if fns == [] then [] else CallTokens(fns[0]) + TransformTokens(fns[1..])
  }

  /** Every call has an argument, and every `scale` call exactly one. */
  predicate UniformCalls(fns: seq<TransformFn>)
  {
    forall i :: 0 <= i < |fns| ==> |fns[i].args| >= 1 && (fns[i].name == "scale" ==> |fns[i].args| == 1)
  }

  /** What one call contributes: its first argument for `scale` and
      `matrix`, nothing for any other function. */
  function Factor(f: TransformFn, acc: real): (r: real)
  {
    if (f.name == "scale" || f.name == "matrix") && f.args != [] then Times(acc, f.args[0]) else acc
  }

  /** The product of the contributions, in order. */
  function ScaleProduct(fns: seq<TransformFn>, acc: real): (r: real)
  {
    if fns == [] then acc else ScaleProduct(fns[1..], Factor(fns[0], acc))
  }

  /** Tokens that are not identifiers are passed over. */
  lemma {:induction false} TokScaleSkips(xs: seq<Token>, rest: seq<Token>, acc: real)
    requires forall i :: 0 <= i < |xs| ==> !xs[i].Ident?
    ensures TokScale(xs + rest, acc) == TokScale(rest, acc)
    decreases |xs|
  {
    if xs != [] {
      assert (xs + rest)[1..] == xs[1..] + rest;
      TokScaleSkips(xs[1..], rest, acc);
    } else {
      assert xs + rest == rest;
    }
  }

  /** Skipping to the `)` after tokens that hold none. */
  lemma {:induction false} TokSkipPast(xs: seq<Token>, rest: seq<Token>)
    requires forall i :: 0 <= i < |xs| ==> xs[i] != Symbol(')')
    ensures TokSkip(xs + [Symbol(')')] + rest) == rest
    decreases |xs|
  {
    if xs != [] {
      assert (xs + [Symbol(')')] + rest)[1..] == xs[1..] + [Symbol(')')] + rest;
      TokSkipPast(xs[1..], rest);
    } else {
      assert (xs + [Symbol(')')] + rest)[1..] == rest;
    }
  }

  /** One call with an argument, and with exactly one if it is `scale`,
      multiplies the scale by its contribution and reading goes on after
      it. */
  lemma TokScaleCall(f: TransformFn, rest: seq<Token>, acc: real)
    requires |f.args| >= 1 && (f.name == "scale" ==> |f.args| == 1)
    ensures TokScale(CallTokens(f) + rest, acc) == TokScale(rest, Factor(f, acc))
  {
    var args := ArgTokens(f.args);
    var ts := CallTokens(f) + rest;
    assert ts == [Ident(f.name)] + ([Symbol('(')] + args + [Symbol(')')] + rest);
    if f.name == "scale" {
      assert args == [Number(f.args[0])];
      assert ts[1..][2..] == [Symbol(')')] + rest;
      assert TokStep(ts, acc) == TGo(rest, Times(acc, f.args[0]));
    } else if f.name == "matrix" {
      assert ts[1..][2..] == args[1..] + [Symbol(')')] + rest;
      TokSkipPast(args[1..], rest);
      assert TokStep(ts, acc) == TGo(rest, Times(acc, f.args[0]));
    } else {
      assert TokStep(ts, acc) == TGo([Symbol('(')] + args + [Symbol(')')] + rest, acc);
      assert [Symbol('(')] + args + [Symbol(')')] + rest == ([Symbol('(')] + args + [Symbol(')')]) + rest;
      TokScaleSkips([Symbol('(')] + args + [Symbol(')')], rest, acc);
    }
  }

  /** For a transform list whose calls each have an argument, and whose
      `scale` calls have exactly one, the scale is the product of the first
      arguments of the `scale` and `matrix` calls; translations, rotations
      and skews contribute nothing, and of a matrix only its first entry
      counts. */
  lemma {:induction false} TransformProduct(fns: seq<TransformFn>, acc: real)
    requires UniformCalls(fns)
    ensures TokScale(TransformTokens(fns), acc) == ScaleProduct(fns, acc)
  {
    if fns == [] {
      assert TokScale([], acc) == acc;
    } else {
      assert UniformCalls(fns[1..]) by {
        forall i | 0 <= i < |fns[1..]|
          ensures |fns[1..][i].args| >= 1 && (fns[1..][i].name == "scale" ==> |fns[1..][i].args| == 1)
        {
          assert fns[1..][i] == fns[i + 1];
        }
      }
      TokScaleCall(fns[0], TransformTokens(fns[1..]), acc);
      TransformProduct(fns[1..], Factor(fns[0], acc));
    }
  }

  /** A `scale` call with two arguments ends the reading: the scale is
      multiplied by the first and everything after the comma, later
      transforms included, is ignored. */
  lemma TwoArgScaleStops(x: real, y: real, more: seq<real>, rest: seq<Token>, acc: real)
    ensures TokScale(CallTokens(TransformFn("scale", [x, y] + more)) + rest, acc) == Times(acc, x)
  {
    var args := ArgTokens([x, y] + more);
    assert ([x, y] + more)[1..] == [y] + more;
    assert args[..2] == [Number(x), Symbol(',')];
    var ts := CallTokens(TransformFn("scale", [x, y] + more)) + rest;
    assert ts[1] == Symbol('(') && ts[2] == Number(x) && ts[3] == Symbol(',');
    assert TokStep(ts, acc) == TStop(Times(acc, x));
  }

  /** The scale of a transform attribute whose tokens are those of a
      uniform transform list is the product of the list's scale factors. */
  lemma TransformScaleOfCalls(parse: string -> Option<real>, transform: string, fns: seq<TransformFn>)
    requires RejectsEmpty(parse)
    requires LexAll(parse, transform) == Some(TransformTokens(fns))
    requires UniformCalls(fns)
    ensures TransformScale(parse, transform) == Some(ScaleProduct(fns, 1.0))
  {
    ScaleFromTokens(parse, transform, 1.0);
    TransformProduct(fns, 1.0);
  }

  // ---------------------------------------------------------------------
  // The element tree: parse_rec, load

  /** An XML element as roxmltree shows it: its local tag name, its
      attributes and its children (text and comment nodes have an empty
      tag name). */
  datatype Node = Node(tag: string, attrs: map<string, string>, children: seq<Node>)

  /** A path of the scene with its stroke style and the scale of the
      transforms above it. */
  datatype StyledPath = StyledPath(path: seq<PathEl>, style: Style, scale: real)

  /** How a walk ends: `Ok`, with an error (`Err` of `parse_rec`), or with a
      panic of the transform lexer. */
  datatype Status = Ok | Error | Panic

  /** The paths a walk pushes onto the scene, in order, and how it ends. */
  datatype Parsed = Parsed(pushed: seq<StyledPath>, status: Status)

  /** `stroke-width`: 4 when absent, 1 when it does not parse as a number. */
  function StrokeWidth(parse: string -> Option<real>, attrs: map<string, string>): real
  {
    if "stroke-width" !in attrs then 4.0
    else match parse(attrs["stroke-width"])
      case Some(w) => w
      case None => 1.0
  }

  /** `stroke-linecap`: butt unless it is `round` or `square`. */
  function LineCap(attrs: map<string, string>): Cap
  {
    if "stroke-linecap" in attrs && attrs["stroke-linecap"] == "round" then RoundCap
    else if "stroke-linecap" in attrs && attrs["stroke-linecap"] == "square" then SquareCap
    else ButtCap
  }

  /** `stroke-linejoin`: miter unless it is `round` or `bevel`. */
  function LineJoin(attrs: map<string, string>): Join
  {
    if "stroke-linejoin" in attrs && attrs["stroke-linejoin"] == "round" then RoundJoin
    else if "stroke-linejoin" in attrs && attrs["stroke-linejoin"] == "bevel" then BevelJoin
    else MiterJoin
  }

  /** `Stroke::new(width).with_caps(cap).with_join(join)`: the miter limit
      stays at kurbo's default of 4 and both ends get the same cap. */
  function StyleOf(parse: string -> Option<real>, attrs: map<string, string>): Style
  {
    Style(StrokeWidth(parse, attrs), LineJoin(attrs), 4.0, LineCap(attrs), LineCap(attrs))
  }

  /** `parse_rec` of one node with the scale of its parent: a `g` multiplies
      the scale by its transform's and walks its children; a `path` needs a
      `d` attribute that `fromSvg` accepts and is pushed with its style;
      every other element is passed over. */
  function ParseNode(parse: string -> Option<real>, fromSvg: string -> Option<seq<PathEl>>, node: Node, scale: real): Parsed
    requires RejectsEmpty(parse)
    decreases node, |node.children| + 1
  {
    if node.tag == "g" then
      if "transform" !in node.attrs then ParseChildren(parse, fromSvg, node, 0, scale)
      else match TransformScale(parse, node.attrs["transform"])
        case None => Parsed([], Panic)
        case Some(t) => ParseChildren(parse, fromSvg, node, 0, Times(scale, t))
    else if node.tag == "path" then
      if "d" !in node.attrs then Parsed([], Error)
      else match fromSvg(node.attrs["d"])
        case None => Parsed([], Error)
        case Some(p) => Parsed([StyledPath(p, StyleOf(parse, node.attrs), scale)], Ok)
    else Parsed([], Ok)
  }

  /** The loop over the children of `parent` from the i-th on: the first
      child that does not end `Ok` ends the loop, keeping what was pushed
      before it. */
  function ParseChildren(parse: string -> Option<real>, fromSvg: string -> Option<seq<PathEl>>, parent: Node, i: nat, scale: real): Parsed
    requires RejectsEmpty(parse)
    requires i <= |parent.children|
    decreases parent, |parent.children| - i
  {
    if i == |parent.children| then Parsed([], Ok)
    else
      var h := ParseNode(parse, fromSvg, parent.children[i], scale);
      if h.status != Ok then h
      else
        var t := ParseChildren(parse, fromSvg, parent, i + 1, scale);
        Parsed(h.pushed + t.pushed, t.status)
  }

  /** One turn of the loop over the children. */
  lemma ChildrenUnfold(parse: string -> Option<real>, fromSvg: string -> Option<seq<PathEl>>, parent: Node, i: nat, scale: real)
    requires RejectsEmpty(parse)
    requires i < |parent.children|
    ensures var h := ParseNode(parse, fromSvg, parent.children[i], scale);
      var t := ParseChildren(parse, fromSvg, parent, i + 1, scale);
      ParseChildren(parse, fromSvg, parent, i, scale) == if h.status != Ok then h else Parsed(h.pushed + t.pushed, t.status)
  {
  }

  /** Past the last child nothing more is pushed. */
  lemma ChildrenEnd(parse: string -> Option<real>, fromSvg: string -> Option<seq<PathEl>>, parent: Node, scale: real)
    requires RejectsEmpty(parse)
    ensures ParseChildren(parse, fromSvg, parent, |parent.children|, scale) == Parsed([], Ok)
  {
  }

  /** `SvgScene`: the paths collected so far. */
  class SvgScene {
    var paths: seq<StyledPath>

    constructor()
      ensures paths == []
    {
      paths := [];
    }

    /** `parse_rec`: pushes what the walk of `node` pushes. */
    method ParseRec(parse: string -> Option<real>, fromSvg: string -> Option<seq<PathEl>>, node: Node, scale: real)
      returns (status: Status)
      requires RejectsEmpty(parse)
      modifies this
      ensures paths == old(paths) + ParseNode(parse, fromSvg, node, scale).pushed
      ensures status == ParseNode(parse, fromSvg, node, scale).status
      decreases node, |node.children| + 1
    {
      if node.tag == "g" {
        var childScale := scale;
        if "transform" in node.attrs {
          var t := GetTransformScale(parse, node.attrs["transform"]);
          if t.None? {
            return Panic;
          }
          childScale := Times(childScale, t.value);
        }
        status := ParseChildrenOf(parse, fromSvg, node, childScale);
      } else if node.tag == "path" {
        if "d" !in node.attrs {
          return Error;
        }
        var path := fromSvg(node.attrs["d"]);
        if path.None? {
          return Error;
        }
        var width := 4.0;
        if "stroke-width" in node.attrs {
          var w := parse(node.attrs["stroke-width"]);
          width := if w.Some? then w.value else 1.0;
        }
        var cap := ButtCap;
        if "stroke-linecap" in node.attrs {
          if node.attrs["stroke-linecap"] == "round" {
            cap := RoundCap;
          } else if node.attrs["stroke-linecap"] == "square" {
            cap := SquareCap;
          }
        }
        var join := MiterJoin;
        if "stroke-linejoin" in node.attrs {
          if node.attrs["stroke-linejoin"] == "round" {
            join := RoundJoin;
          } else if node.attrs["stroke-linejoin"] == "bevel" {
            join := BevelJoin;
          }
        }
        var style := Style(width, join, 4.0, cap, cap);
        paths := paths + [StyledPath(path.value, style, scale)];
        status := Ok;
      } else {
        status := Ok;
      }
    }

    /** The loop over the children of `parent`, stopping at the first one
        whose walk does not end `Ok`. */
    method ParseChildrenOf(parse: string -> Option<real>, fromSvg: string -> Option<seq<PathEl>>, parent: Node, scale: real)
      returns (status: Status)
      requires RejectsEmpty(parse)
      modifies this
      ensures paths == old(paths) + ParseChildren(parse, fromSvg, parent, 0, scale).pushed
      ensures status == ParseChildren(parse, fromSvg, parent, 0, scale).status
      decreases parent, 0
    {
      hide ParseNode, ParseChildren;
      ghost var total := ParseChildren(parse, fromSvg, parent, 0, scale);
      ghost var acc: seq<StyledPath> := [];
      var i := 0;
      while i < |parent.children|
        invariant 0 <= i <= |parent.children|
        invariant paths == old(paths) + acc
        invariant total == Parsed(acc + ParseChildren(parse, fromSvg, parent, i, scale).pushed, ParseChildren(parse, fromSvg, parent, i, scale).status)
        decreases |parent.children| - i
      {
        ghost var h := ParseNode(parse, fromSvg, parent.children[i], scale);
        ghost var t := ParseChildren(parse, fromSvg, parent, i + 1, scale);
        ChildrenUnfold(parse, fromSvg, parent, i, scale);
        status := ParseRec(parse, fromSvg, parent.children[i], scale);
        if status != Ok {
          return;
        }
        acc := acc + h.pushed;
        i := i + 1;
      }
      ChildrenEnd(parse, fromSvg, parent, scale);
      status := Ok;
    }

    /** `SvgScene::expand`: every path stroked with the tolerance divided by
        its scale, so that the tolerance holds after the scaling; `None` when
        the stroking of a path faulted, where the source panics or does not
        return. `segs` then holds the segments of the paths before the one
        that faulted, and that path has a quadratic or cubic, the only
        elements whose stroking can fault. */
    method Expand(m: MathLib, backend: Backend, tolerance: real, fuel: nat)
      returns (r: Option<seq<seq<Prim>>>, ghost segs: seq<seq<seq<EulerSeg>>>)
      ensures r.Some? ==> |r.value| == |paths| && |segs| == |paths|
      ensures r.Some? ==> forall i :: 0 <= i < |paths| ==>
        StrokedWith(m, backend, paths[i].style, Div(tolerance, paths[i].scale), paths[i].path, segs[i], r.value[i])
        && AllBuiltBy(r.value[i], backend)
      ensures r.None? ==> |segs| < |paths|
      ensures r.None? ==> exists k :: 0 <= k < |paths[|segs|].path| && (paths[|segs|].path[k].QuadTo? || paths[|segs|].path[k].CurveTo?)
    {
      hide StrokedWith, AllBuiltBy;
      var out := [];
      segs := [];
      for i := 0 to |paths|
        invariant |out| == i && |segs| == i
        invariant forall j :: 0 <= j < i ==>
          StrokedWith(m, backend, paths[j].style, Div(tolerance, paths[j].scale), paths[j].path, segs[j], out[j])
          && AllBuiltBy(out[j], backend)
      {
        var p := paths[i];
        var o, s := StrokeUndashed(m, backend, p.path, p.style, Div(tolerance, p.scale), fuel);
        if o.None? {
          assert p.path[|s|].QuadTo? || p.path[|s|].CurveTo?;
          return None, segs;
        }
        out := out + [o.value];
        segs := segs + [s];
      }
      r := Some(out);
    }
  }

  /** `SvgScene::load`: the children of the root element walked with scale
      1; the root element itself is not looked at. */
  method Load(parse: string -> Option<real>, fromSvg: string -> Option<seq<PathEl>>, root: Node)
    returns (scene: SvgScene, status: Status)
    requires RejectsEmpty(parse)
    ensures fresh(scene)
    ensures scene.paths == ParseChildren(parse, fromSvg, root, 0, 1.0).pushed
    ensures status == ParseChildren(parse, fromSvg, root, 0, 1.0).status
    ensures status == Ok <==> forall j :: 0 <= j < |root.children| ==> Accepted(parse, fromSvg, root.children[j])
    ensures status == Ok ==> PushedFrom(parse, fromSvg, scene.paths, ChildPathElements(root, 0))
  {
    scene := new SvgScene();
    status := scene.ParseChildrenOf(parse, fromSvg, root, 1.0);
    ParseChildrenOk(parse, fromSvg, root, 0, 1.0);
  }

  // ---------------------------------------------------------------------
  // What the walk collects

  /** The style read from a path's attributes, field by field. */
  lemma StyleOfAttrs(parse: string -> Option<real>, attrs: map<string, string>)
    ensures var r := StyleOf(parse, attrs);
      && r.miterLimit == 4.0 && r.startCap == r.endCap
      && (r.width == 4.0 <== "stroke-width" !in attrs)
      && ("stroke-width" in attrs && parse(attrs["stroke-width"]).None? ==> r.width == 1.0)
      && ("stroke-width" in attrs && parse(attrs["stroke-width"]).Some? ==> r.width == parse(attrs["stroke-width"]).value)
      && (r.startCap == RoundCap <==> "stroke-linecap" in attrs && attrs["stroke-linecap"] == "round")
      && (r.startCap == SquareCap <==> "stroke-linecap" in attrs && attrs["stroke-linecap"] == "square")
      && (r.join == RoundJoin <==> "stroke-linejoin" in attrs && attrs["stroke-linejoin"] == "round")
      && (r.join == BevelJoin <==> "stroke-linejoin" in attrs && attrs["stroke-linejoin"] == "bevel")
  {
  }

  /** A node the walk gets through: every `g` reached has a transform the
      lexer reads without panicking, every `path` reached a `d` attribute
      `fromSvg` accepts. */
  predicate Accepted(parse: string -> Option<real>, fromSvg: string -> Option<seq<PathEl>>, node: Node)
    requires RejectsEmpty(parse)
    decreases node
  {
    if node.tag == "g" then
      ("transform" in node.attrs ==> TransformScale(parse, node.attrs["transform"]).Some?)
      && forall j :: 0 <= j < |node.children| ==> Accepted(parse, fromSvg, node.children[j])
    else if node.tag == "path" then
      "d" in node.attrs && fromSvg(node.attrs["d"]).Some?
    else true
  }

  /** The `path` elements reached from `node` through `g` elements, in
      document order. */
  function PathElements(node: Node): seq<Node>
    decreases node, |node.children| + 1
  {
    if node.tag == "g" then ChildPathElements(node, 0)
    else if node.tag == "path" then [node]
    else []
  }

  /** The `path` elements reached from the children of `parent` from the
      i-th on. */
  function ChildPathElements(parent: Node, i: nat): seq<Node>
    requires i <= |parent.children|
    decreases parent, |parent.children| - i
  {
    if i == |parent.children| then []
    else PathElements(parent.children[i]) + ChildPathElements(parent, i + 1)
  }

  /** `pushed` holds, in order, the parsed `d` and the style of each of
      `elems`. */
  predicate PushedFrom(parse: string -> Option<real>, fromSvg: string -> Option<seq<PathEl>>, pushed: seq<StyledPath>, elems: seq<Node>)
  {
    |pushed| == |elems|
    && forall i :: 0 <= i < |pushed| ==>
      "d" in elems[i].attrs && fromSvg(elems[i].attrs["d"]) == Some(pushed[i].path)
      && pushed[i].style == StyleOf(parse, elems[i].attrs)
  }

  lemma PushedFromAppend(parse: string -> Option<real>, fromSvg: string -> Option<seq<PathEl>>,
                         a: seq<StyledPath>, ea: seq<Node>, b: seq<StyledPath>, eb: seq<Node>)
    requires PushedFrom(parse, fromSvg, a, ea) && PushedFrom(parse, fromSvg, b, eb)
    ensures PushedFrom(parse, fromSvg, a + b, ea + eb)
  {
    forall i | 0 <= i < |a + b|
      ensures "d" in (ea + eb)[i].attrs && fromSvg((ea + eb)[i].attrs["d"]) == Some((a + b)[i].path)
        && (a + b)[i].style == StyleOf(parse, (ea + eb)[i].attrs)
    {
      if i >= |a| {
        assert (a + b)[i] == b[i - |a|] && (ea + eb)[i] == eb[i - |a|];
      }
    }
  }

  /** The walk of a node ends `Ok` exactly when the node is accepted, and
      then it has pushed every path element reached, in document order,
      with its style. */
  lemma {:induction false} ParseNodeOk(parse: string -> Option<real>, fromSvg: string -> Option<seq<PathEl>>, node: Node, scale: real)
    requires RejectsEmpty(parse)
    ensures ParseNode(parse, fromSvg, node, scale).status == Ok <==> Accepted(parse, fromSvg, node)
    ensures ParseNode(parse, fromSvg, node, scale).status == Ok ==>
      PushedFrom(parse, fromSvg, ParseNode(parse, fromSvg, node, scale).pushed, PathElements(node))
    decreases node, |node.children| + 1
  {
    if node.tag == "g" {
      var s := scale;
      if "transform" in node.attrs {
        if TransformScale(parse, node.attrs["transform"]).Some? {
          s := Times(scale, TransformScale(parse, node.attrs["transform"]).value);
          ParseChildrenOk(parse, fromSvg, node, 0, s);
        }
      } else {
        ParseChildrenOk(parse, fromSvg, node, 0, s);
      }
    }
  }

  /** The loop over the children ends `Ok` exactly when every child from
      the i-th on is accepted, and then it has pushed the paths they
      reach. */
  lemma {:induction false} ParseChildrenOk(parse: string -> Option<real>, fromSvg: string -> Option<seq<PathEl>>, parent: Node, i: nat, scale: real)
    requires RejectsEmpty(parse)
    requires i <= |parent.children|
    ensures ParseChildren(parse, fromSvg, parent, i, scale).status == Ok
      <==> forall j :: i <= j < |parent.children| ==> Accepted(parse, fromSvg, parent.children[j])
    ensures ParseChildren(parse, fromSvg, parent, i, scale).status == Ok ==>
      PushedFrom(parse, fromSvg, ParseChildren(parse, fromSvg, parent, i, scale).pushed, ChildPathElements(parent, i))
    decreases parent, |parent.children| - i
  {
    if i < |parent.children| {
      var h := ParseNode(parse, fromSvg, parent.children[i], scale);
      var t := ParseChildren(parse, fromSvg, parent, i + 1, scale);
      ParseNodeOk(parse, fromSvg, parent.children[i], scale);
      ParseChildrenOk(parse, fromSvg, parent, i + 1, scale);
      if h.status == Ok && t.status == Ok {
        PushedFromAppend(parse, fromSvg, h.pushed, PathElements(parent.children[i]), t.pushed, ChildPathElements(parent, i + 1));
      }
    }
  }

  lemma TimesAssoc(a: real, b: real, c: real)
    ensures Times(Times(a, b), c) == Times(a, Times(b, c))
  {
  }

  /** The paths with their scales multiplied by k. */
  function Rescaled(ps: seq<StyledPath>, k: real): (r: seq<StyledPath>)
  {
    seq(|ps|, i requires 0 <= i < |ps| => ps[i].(scale := Times(k, ps[i].scale)))
  }

  lemma RescaledAppend(a: seq<StyledPath>, b: seq<StyledPath>, k: real)
    ensures Rescaled(a + b, k) == Rescaled(a, k) + Rescaled(b, k)
  {
    assert forall i | 0 <= i < |a + b| :: Rescaled(a + b, k)[i] == (Rescaled(a, k) + Rescaled(b, k))[i];
  }

  /** The scale of a pushed path is the scale the walk started from times
      the transforms above it: starting from k times the scale multiplies
      the scale of every pushed path by k and changes nothing else. */
  lemma {:induction false} ParseNodeLinear(parse: string -> Option<real>, fromSvg: string -> Option<seq<PathEl>>, node: Node, scale: real, k: real)
    requires RejectsEmpty(parse)
    ensures var r := ParseNode(parse, fromSvg, node, scale);
      ParseNode(parse, fromSvg, node, Times(k, scale)) == Parsed(Rescaled(r.pushed, k), r.status)
    decreases node, |node.children| + 1
  {
    if node.tag == "g" {
      if "transform" in node.attrs {
        if TransformScale(parse, node.attrs["transform"]).Some? {
          var t := TransformScale(parse, node.attrs["transform"]).value;
          TimesAssoc(k, scale, t);
          ParseChildrenLinear(parse, fromSvg, node, 0, Times(scale, t), k);
        }
      } else {
        ParseChildrenLinear(parse, fromSvg, node, 0, scale, k);
      }
    }
  }

  lemma {:induction false} ParseChildrenLinear(parse: string -> Option<real>, fromSvg: string -> Option<seq<PathEl>>, parent: Node, i: nat, scale: real, k: real)
    requires RejectsEmpty(parse)
    requires i <= |parent.children|
    ensures var r := ParseChildren(parse, fromSvg, parent, i, scale);
      ParseChildren(parse, fromSvg, parent, i, Times(k, scale)) == Parsed(Rescaled(r.pushed, k), r.status)
    decreases parent, |parent.children| - i
  {
    if i < |parent.children| {
      var h := ParseNode(parse, fromSvg, parent.children[i], scale);
      var t := ParseChildren(parse, fromSvg, parent, i + 1, scale);
      ParseNodeLinear(parse, fromSvg, parent.children[i], scale, k);
      if h.status == Ok {
        ParseChildrenLinear(parse, fromSvg, parent, i + 1, scale, k);
        RescaledAppend(h.pushed, t.pushed, k);
      }
    }
  }

}
