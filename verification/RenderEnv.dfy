/** Substituting environment variables for `{{.NAME}}` in a configuration text. */
module RenderEnv {
  import opened Wrappers
  import opened Text

  const OPEN: string := "{{."
  const CLOSE: string := "}}"

  lemma OpenAt(s: string, i: nat)
    ensures At(s, OPEN, i) <==> i + 2 < |s| && s[i] == '{' && s[i + 1] == '{' && s[i + 2] == '.'
  {
    if i + 2 < |s| {
      assert s[i..][..3] == [s[i], s[i + 1], s[i + 2]];
    }
  }

  lemma CloseAt(s: string, i: nat)
    ensures At(s, CLOSE, i) <==> i + 1 < |s| && s[i] == '}' && s[i + 1] == '}'
  {
    if i + 1 < |s| {
      assert s[i..][..2] == [s[i], s[i + 1]];
    }
  }

  lemma ClosesBehind(s: string, open: nat, close: nat)
    requires open <= |s| && At(s, OPEN, open) && At(s[open..], CLOSE, close)
    ensures open + close + 2 <= |s| && close >= 3
  {
    hide At;
    OpenAt(s, open);
    CloseAt(s[open..], close);
  }

  /** Where the first placeholder opens, and how far behind that it closes. */
  function Placeholder(s: string): (r: Option<(nat, nat)>)
    ensures r.Some? ==> r.value.0 + r.value.1 + 2 <= |s| && r.value.1 >= 3
  {
    hide At, Contains;
    match Find(s, OPEN)
    case None => None
    case Some(open) =>
      match Find(s[open..], CLOSE)
      case None => None
      case Some(close) =>
        ClosesBehind(s, open, close);
        Some((open, close))
  }

  /** One pass from left to right; a substituted value is never looked at again. */
  function Rendered(s: string, env: string -> string): string
    decreases |s|
  {
    match Placeholder(s)
    case None => s
    case Some((open, close)) =>
      s[..open] + env(Trim(s[open + 3..open + close])) + Rendered(s[open + close + 2..], env)
  }

  /** render_env: the text is rewritten in place; an unset variable has the value "". */
  method Render(raw: string, env: string -> string) returns (out: string)
    ensures out == Rendered(raw, env)
  {
    hide Placeholder, Trim, Find, Rendered;
    out := raw;
    var start: nat := 0;
    assert raw[..0] + Rendered(raw[0..], env) == Rendered(raw, env) by { assert raw[0..] == raw; }
    while true
      invariant start <= |out| && out[..start] + Rendered(out[start..], env) == Rendered(raw, env)
      decreases |out| - start
    {
      var p := Placeholder(out[start..]);
      if p.None? {
        break;
      }
      var (openRel, closeRel) := p.value;
      var open := start + openRel;
      var close := open + closeRel + 2;
      var value := env(Trim(out[open + 3..close - 2]));
      OneStep(out, start, env);
      Spliced(out[..open], value, out[close..]);
      out := out[..open] + value + out[close..];
      start := open + |value|;
    }
    RenderedAsIs(out[start..], env);
    assert out[..start] + out[start..] == out;
  }

  lemma Spliced(a: string, b: string, c: string)
    ensures (a + b + c)[..|a| + |b|] == a + b && (a + b + c)[|a| + |b|..] == c
  {
  }

  lemma RenderedAsIs(s: string, env: string -> string)
    requires Placeholder(s).None?
    ensures Rendered(s, env) == s
  {
    hide Placeholder;
  }

  lemma OneStep(out: string, start: nat, env: string -> string)
    requires start <= |out| && Placeholder(out[start..]).Some?
    ensures var p := Placeholder(out[start..]).value;
            var open := start + p.0;
            var close := open + p.1 + 2;
            out[..start] + Rendered(out[start..], env)
            == (out[..open] + env(Trim(out[open + 3..close - 2]))) + Rendered(out[close..], env)
  {
    hide Placeholder, Trim;
    var p := Placeholder(out[start..]).value;
    var open := start + p.0;
    var close := open + p.1 + 2;
    var rest := out[start..];
    assert rest[p.0 + 3..p.0 + p.1] == out[open + 3..close - 2];
    assert rest[p.0 + p.1 + 2..] == out[close..];
    assert out[..start] + rest[..p.0] == out[..open];
    var value, tail := env(Trim(out[open + 3..close - 2])), Rendered(out[close..], env);
    calc {
      out[..start] + Rendered(rest, env);
      out[..start] + (rest[..p.0] + value + tail);
      (out[..start] + rest[..p.0] + value) + tail;
      (out[..open] + value) + tail;
    }
  }

  // ---------------------------------------------------------------- texts as templates

  /** Literal text followed by a placeholder. */
  datatype Segment = Segment(literal: string, name: string)

  /** A segment in front of further text. */
  function Placed(g: Segment, rest: string): string { g.literal + (OPEN + (g.name + (CLOSE + rest))) }

  function Source(segments: seq<Segment>, tail: string): string {
    if segments == [] then tail else Placed(segments[0], Source(segments[1..], tail))
  }

  function Filled(segments: seq<Segment>, tail: string, env: string -> string): string {
    if segments == [] then tail
    else segments[0].literal + env(Trim(segments[0].name)) + Filled(segments[1..], tail, env)
  }

  /** No placeholder begins in the literal, and the name ends at the first closing braces. */
  predicate GoodSegment(g: Segment) {
    && !Contains(g.literal, OPEN) && !Contains(g.name, CLOSE)
    && (g.name != "" ==> g.name[|g.name| - 1] != '}')
  }

  predicate GoodTemplate(segments: seq<Segment>, tail: string) {
    (forall g | g in segments :: GoodSegment(g)) && Placeholder(tail).None?
  }

  lemma NotAt(s: string, sub: string, i: nat)
    requires !Contains(s, sub) && i <= |s|
    ensures !At(s, sub, i)
  {
  }

  lemma Witness(s: string, sub: string, i: nat)
    requires At(s, sub, i)
    ensures Contains(s, sub)
  {
  }

  lemma FirstFound(s: string, sub: string, n: nat)
    requires At(s, sub, n) && forall i | 0 <= i < n :: !At(s, sub, i)
    ensures Find(s, sub) == Some(n)
  {
    hide Find, Contains;
    Witness(s, sub, n);
  }

  /** An occurrence of the opening braces cannot straddle into another one. */
  lemma OpenIsFound(literal: string, rest: string)
    requires !Contains(literal, OPEN)
    ensures Find(literal + (OPEN + rest), OPEN) == Some(|literal|)
  {
    hide Find, Contains, At;
    var s, n := literal + (OPEN + rest), |literal|;
    OpenAt(s, n);
    forall i | 0 <= i < n ensures !At(s, OPEN, i) {
      NotAt(literal, OPEN, i);
      OpenAt(literal, i);
      OpenAt(s, i);
    }
    FirstFound(s, OPEN, n);
  }

  lemma CloseIsFound(name: string, rest: string)
    requires !Contains(name, CLOSE) && (name != "" ==> name[|name| - 1] != '}')
    ensures Find(OPEN + (name + (CLOSE + rest)), CLOSE) == Some(|name| + 3)
  {
    hide Find, Contains, At;
    var s, n := OPEN + (name + (CLOSE + rest)), |name| + 3;
    CloseAt(s, n);
    forall i | 0 <= i < n ensures !At(s, CLOSE, i) {
      CloseAt(s, i);
      if i >= 3 {
        NotAt(name, CLOSE, i - 3);
        CloseAt(name, i - 3);
      }
    }
    FirstFound(s, CLOSE, n);
  }

  lemma FirstPlaceholder(g: Segment, rest: string)
    requires GoodSegment(g)
    ensures Placeholder(Placed(g, rest)) == Some((|g.literal|, |g.name| + 3))
  {
    hide Find, Contains;
    var s := Placed(g, rest);
    OpenIsFound(g.literal, g.name + (CLOSE + rest));
    CloseIsFound(g.name, rest);
    assert s[|g.literal|..] == OPEN + (g.name + (CLOSE + rest));
  }

  lemma PlacedSlices(g: Segment, rest: string)
    ensures var s, n, m := Placed(g, rest), |g.literal|, |g.name|;
            && n + m + 5 <= |s|
            && s[..n] == g.literal && s[n + 3..n + m + 3] == g.name && s[n + m + 5..] == rest
  {
  }

  /** The first placeholder is replaced and the rest rendered. */
  lemma RenderedPlaced(g: Segment, rest: string, env: string -> string)
    requires GoodSegment(g)
    ensures Rendered(Placed(g, rest), env) == g.literal + env(Trim(g.name)) + Rendered(rest, env)
  {
    hide Placeholder, GoodSegment, Trim, Placed;
    FirstPlaceholder(g, rest);
    PlacedSlices(g, rest);
  }

  /** Rendering replaces every placeholder of a template and nothing else, whatever the values contain. */
  lemma {:induction false} RenderingFillsTemplate(segments: seq<Segment>, tail: string, env: string -> string)
    requires GoodTemplate(segments, tail)
    ensures Rendered(Source(segments, tail), env) == Filled(segments, tail, env)
  {
    hide Placeholder, GoodSegment, Trim, Placed, Rendered;
    if segments == [] {
      RenderedAsIs(tail, env);
    } else {
      assert segments[0] in segments;
      RenderedPlaced(segments[0], Source(segments[1..], tail), env);
      RenderingFillsTemplate(segments[1..], tail, env);
    }
  }

  lemma PlainTemplate(s: string)
    requires Placeholder(s).None?
    ensures GoodTemplate([], s) && Source([], s) == s
  {
    hide Placeholder;
  }

  lemma TemplateCons(g: Segment, more: seq<Segment>, tail: string)
    requires GoodSegment(g) && GoodTemplate(more, tail)
    ensures GoodTemplate([g] + more, tail) && Source([g] + more, tail) == Placed(g, Source(more, tail))
  {
    hide Placeholder, GoodSegment, Placed;
    assert ([g] + more)[1..] == more;
  }

  /** Every text is such a template, so rendering is determined on all texts. */
  lemma {:induction false} EveryTextIsTemplate(s: string) returns (segments: seq<Segment>, tail: string)
    ensures GoodTemplate(segments, tail) && Source(segments, tail) == s
    decreases |s|
  {
    hide Placeholder, GoodSegment, Placed, Source, GoodTemplate;
    if Placeholder(s).None? {
      segments, tail := [], s;
      PlainTemplate(s);
    } else {
      var (open, close) := Placeholder(s).value;
      var g := Segment(s[..open], s[open + 3..open + close]);
      var more, t := EveryTextIsTemplate(s[open + close + 2..]);
      PlaceholderIsGood(s);
      TemplateCons(g, more, t);
      segments, tail := [g] + more, t;
    }
  }

  lemma PlaceholderFacts(s: string)
    requires Placeholder(s).Some?
    ensures var (open, close) := Placeholder(s).value;
            && Find(s, OPEN) == Some(open) && Find(s[open..], CLOSE) == Some(close)
            && At(s, OPEN, open) && At(s[open..], CLOSE, close)
  {
    hide Find, Contains, At;
  }

  lemma PlaceholderIsGood(s: string)
    requires Placeholder(s).Some?
    ensures var (open, close) := Placeholder(s).value;
            var g := Segment(s[..open], s[open + 3..open + close]);
            GoodSegment(g) && s == Placed(g, s[open + close + 2..])
  {
    hide Find, At, Placeholder, GoodSegment, Placed;
    var (open, close) := Placeholder(s).value;
    PlaceholderFacts(s);
    PieceIsGood(s, open, close);
    PieceIsPlaced(s, open, close);
  }

  lemma PieceIsGood(s: string, open: nat, close: nat)
    requires close >= 3 && open + close + 2 <= |s|
    requires Find(s, OPEN) == Some(open) && Find(s[open..], CLOSE) == Some(close)
    ensures GoodSegment(Segment(s[..open], s[open + 3..open + close]))
  {
    hide Find, Contains, At;
    BeforeFirst(s, OPEN);
    NameIsGood(s[open..], close);
    SliceOfRest(s, open, close);
  }

  lemma PieceIsPlaced(s: string, open: nat, close: nat)
    requires close >= 3 && open + close + 2 <= |s| && At(s, OPEN, open) && At(s[open..], CLOSE, close)
    ensures s == Placed(Segment(s[..open], s[open + 3..open + close]), s[open + close + 2..])
  {
    hide At;
    OpenAt(s, open);
    CloseAt(s[open..], close);
    Reassemble(s, open, close);
  }

  lemma SliceOfRest(s: string, open: nat, close: nat)
    requires 3 <= close && open + close + 2 <= |s|
    ensures s[open..][3..close] == s[open + 3..open + close]
    ensures s[open..][close - 1] == s[open + close - 1]
  {
  }

  lemma Reassemble(s: string, open: nat, close: nat)
    requires close >= 3 && open + close + 2 <= |s|
    requires s[open] == '{' && s[open + 1] == '{' && s[open + 2] == '.'
    requires s[open + close] == '}' && s[open + close + 1] == '}'
    ensures s == s[..open] + (OPEN + (s[open + 3..open + close] + (CLOSE + s[open + close + 2..])))
  {
    var n := open + close;
    calc {
      s[..open] + (OPEN + (s[open + 3..n] + (CLOSE + s[n + 2..])));
      { assert CLOSE + s[n + 2..] == s[n..]; }
      s[..open] + (OPEN + (s[open + 3..n] + s[n..]));
      { assert s[open + 3..n] + s[n..] == s[open + 3..]; }
      s[..open] + (OPEN + s[open + 3..]);
      { assert OPEN + s[open + 3..] == s[open..]; }
      s[..open] + s[open..];
      s;
    }
  }

  lemma NameIsGood(rest: string, close: nat)
    requires Find(rest, CLOSE) == Some(close) && close >= 3
    ensures close + 2 <= |rest| && !Contains(rest[3..close], CLOSE) && (close > 3 ==> rest[close - 1] != '}')
  {
    hide Find, Contains, At;
    BeforeFirst(rest, CLOSE);
    CloseAt(rest, close);
    assert !At(rest, CLOSE, close - 1);
    CloseAt(rest, close - 1);
    assert rest[..close][3..close] == rest[3..close];
    if Contains(rest[..close][3..close], CLOSE) {
      SliceContains(rest[..close], 3, close, CLOSE);
    }
  }
}
