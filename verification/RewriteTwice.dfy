/**
 Rewriting a head that has been rewritten before. Without origin headers the computed header list is
 a fixed point, but the text need not be: a host override with line breaks inside is read back as
 several lines. This module says exactly when the second rewrite changes nothing.
 */
module RewriteTwice {
  import opened Wrappers
  import opened Text
  import opened HeaderList
  import opened HttpHead
  import opened HeadRewrite

  // ---------------------------------------------------------------- texts with breaks inside

  /** Splitting at line breaks distributes over joining with one. */
  lemma {:induction false} SplitJoin(v: string, rest: string)
    ensures Split(v + CRLF + rest, CRLF) == Split(v, CRLF) + Split(rest, CRLF)
    decreases |v|
  {
    hide Split, Contains, Find, At;
    if Contains(v, CRLF) {
      var i := FirstBreak(v, rest);
      SplitJoin(v[i + 2..], rest);
      var s := v + CRLF + rest;
      SplitAt(s, CRLF, i);
      SplitAt(v, CRLF, i);
      assert s[i + 2..] == v[i + 2..] + CRLF + rest;
      assert s[..i] == v[..i];
    } else {
      SplitLine(v, rest);
      SplitNone(v, CRLF);
    }
  }

  lemma SplitAt(s: string, sep: string, i: nat)
    requires sep != "" && Find(s, sep) == Some(i)
    ensures i + |sep| <= |s| && Split(s, sep) == [s[..i]] + Split(s[i + |sep|..], sep)
  {
    hide Find, At, Contains;
    FoundFits(s, sep);
  }

  lemma FirstBreak(v: string, rest: string) returns (i: nat)
    requires Contains(v, CRLF)
    ensures i + 2 <= |v| && Find(v, CRLF) == Some(i) && Find(v + CRLF + rest, CRLF) == Some(i)
  {
    hide Find, Contains;
    NotNone(v, CRLF);
    i := Find(v, CRLF).value;
    var s := v + CRLF + rest;
    hide At;
    BreakAt(v, i);
    BreakAt(s, i);
    forall j | 0 <= j < i ensures !At(s, CRLF, j) {
      BreakAt(v, j);
      BreakAt(s, j);
    }
    FirstIsFound(s, CRLF, i);
  }

  lemma NotNone(s: string, sub: string)
    requires Contains(s, sub)
    ensures Find(s, sub).Some?
  {
    hide Find;
  }

  lemma FirstIsFound(s: string, sub: string, n: nat)
    requires n <= |s| && At(s, sub, n) && forall i | 0 <= i < n :: !At(s, sub, i)
    ensures Find(s, sub) == Some(n)
  {
    hide Find;
    assert Contains(s, sub);
  }

  lemma SplitBehindBreak(p: string, v: string, i: nat)
    requires Find(v, CRLF) == Some(i) && Find(p + v, CRLF) == Some(|p| + i)
    ensures Split(p + v, CRLF) == [p + Split(v, CRLF)[0]] + Split(v, CRLF)[1..]
  {
    hide Split, Find, At, Contains;
    var s := p + v;
    SplitAt(v, CRLF, i);
    SplitAt(s, CRLF, |p| + i);
    assert s[..|p| + i] == p + v[..i];
    assert s[|p| + i + 2..] == v[i + 2..];
  }

  lemma SplitUnfound(s: string)
    requires Find(s, CRLF).None?
    ensures Split(s, CRLF) == [s]
  {
    hide Find, At, Contains;
  }

  /** Text in front that cannot take part in a break only lengthens the first part. */
  lemma SplitBehind(p: string, v: string)
    requires Unbroken(p) && p != "" && p[|p| - 1] != '\r'
    ensures Split(p + v, CRLF) == [p + Split(v, CRLF)[0]] + Split(v, CRLF)[1..]
  {
    hide Split, Find, At, Contains, Unbroken;
    BreaksBehind(p, v);
    match Find(v, CRLF)
    case Some(i) => SplitBehindBreak(p, v, i);
    case None =>
      SplitUnfound(v);
      SplitUnfound(p + v);
  }

  lemma BreaksBehind(p: string, v: string)
    requires Unbroken(p) && p != "" && p[|p| - 1] != '\r'
    ensures Find(p + v, CRLF) == match Find(v, CRLF) case None => None case Some(i) => Some(|p| + i)
  {
    hide Find, Contains, At, Unbroken;
    var s, n := p + v, |p|;
    forall j | 0 <= j < n ensures !At(s, CRLF, j) {
      BreakAt(s, j);
      if j + 1 < n {
        NotBroken(p, j);
      }
    }
    forall j | 0 <= j <= |v| ensures At(s, CRLF, n + j) == At(v, CRLF, j) {
      BreakAt(s, n + j);
      BreakAt(v, j);
    }
    if Find(v, CRLF).Some? {
      FoundFits(v, CRLF);
      forall j | 0 <= j < n + Find(v, CRLF).value ensures !At(s, CRLF, j) {
        if j >= n {
          assert At(s, CRLF, n + (j - n)) == At(v, CRLF, j - n);
        }
      }
      assert At(s, CRLF, n + Find(v, CRLF).value);
      FirstIsFound(s, CRLF, n + Find(v, CRLF).value);
    } else {
      forall j | 0 <= j <= |s| ensures !At(s, CRLF, j) {
        if j >= n {
          Absent(v, CRLF, j - n);
        }
      }
      NowhereIsNone(s, CRLF);
    }
  }

  lemma Absent(s: string, sub: string, i: nat)
    requires Find(s, sub).None? && i <= |s|
    ensures !At(s, sub, i)
  {
    hide Find;
  }

  lemma NowhereIsNone(s: string, sub: string)
    requires forall i | 0 <= i <= |s| :: !At(s, sub, i)
    ensures Find(s, sub) == None
  {
    hide Find;
  }

  lemma TrimSkipsSpace(s: string)
    ensures Trim(" " + s) == Trim(s)
  {
    assert (" " + s)[1..] == s;
  }

  // ---------------------------------------------------------------- reading lines back

  lemma {:induction false} ParseLinesAppend(x: seq<string>, y: seq<string>)
    ensures ParseLines(x + y) == ParseLines(x) + if "" in x then [] else ParseLines(y)
  {
    hide ParseLine;
    if x == [] {
      assert x + y == y;
    } else {
      assert (x + y)[1..] == x[1..] + y && (x + y)[0] == x[0];
      ParseLinesAppend(x[1..], y);
      assert x == [x[0]] + x[1..];
    }
  }

  /** The header lines alone, without the blank line that ends a head. */
  function EmitLines(hs: seq<Header>): string {
    if hs == [] then "" else HeaderLine(hs[0]) + CRLF + EmitLines(hs[1..])
  }

  lemma {:induction false} EmitAppend(a: seq<Header>, r: seq<Header>)
    ensures EmitHeaders(a + r) == EmitLines(a) + EmitHeaders(r)
  {
    hide HeaderLine;
    if a == [] {
      assert a + r == r;
    } else {
      assert (a + r)[1..] == a[1..] + r && (a + r)[0] == a[0];
      EmitAppend(a[1..], r);
      var l := HeaderLine(a[0]) + CRLF;
      assert l + (EmitLines(a[1..]) + EmitHeaders(r)) == (l + EmitLines(a[1..])) + EmitHeaders(r);
    }
  }

  /** Clean headers in front are read back as they are. */
  lemma {:induction false} ReadClean(a: seq<Header>, r: seq<Header>)
    requires CleanList(a)
    ensures ParseLines(Split(EmitHeaders(a + r), CRLF)) == a + ParseLines(Split(EmitHeaders(r), CRLF))
  {
    hide CleanHeader, ParseLine, Split;
    if a == [] {
      assert a + r == r;
    } else {
      var h := a[0];
      assert (a + r)[1..] == a[1..] + r && (a + r)[0] == h;
      ReadClean(a[1..], r);
      HeaderLineIsUnbroken(h);
      HeaderLineParses(h);
      hide ParseLines, Unbroken;
      SplitLine(HeaderLine(h), EmitHeaders(a[1..] + r));
      ParseCons(HeaderLine(h), Split(EmitHeaders(a[1..] + r), CRLF), h);
      assert a == [h] + a[1..];
    }
  }

  /** The lines of a header value beyond the first. */
  function Continuation(v: string): seq<string> { Split(v, CRLF)[1..] }

  /** What those lines add to a head that is read back, and whether one of them ends it. */
  function Extra(v: string): seq<Header> { ParseLines(Continuation(v)) }

  predicate CutsOff(v: string) { "" in Continuation(v) }

  lemma FirstLineParses(name: string, v0: string)
    requires CleanValue(name) && !Contains(name, ":")
    ensures ParseLine(name + ": " + v0) == Some(Header(name, Trim(v0)))
  {
    hide Find, Trim, Trimmed, Unbroken, Contains;
    var s, n := name + ": " + v0, |name|;
    ColonIsFound(name, " " + v0);
    assert s == name + ":" + (" " + v0);
    assert s[..n] == name && s[n + 1..] == " " + v0;
    SpaceTrims(name, "");
    TrimSkipsSpace(v0);
  }

  lemma NameIsUnbroken(name: string)
    requires CleanValue(name)
    ensures Unbroken(name + ": ")
  {
    var s, n := name + ": ", |name|;
    forall i | 0 <= i <= |s| ensures !At(s, CRLF, i) {
      hide Unbroken, Trimmed, At;
      BreakAt(s, i);
      if i + 1 < n {
        NotBroken(name, i);
      }
    }
  }

  /** A header with a clean name and any value, read back together with the clean headers behind it. */
  lemma ReadBroken(h: Header, b: seq<Header>)
    requires CleanValue(h.name) && !Contains(h.name, ":") && CleanList(b)
    ensures var v := h.value;
            ParseLines(Split(EmitHeaders([h] + b), CRLF))
            == [Header(h.name, Trim(Split(v, CRLF)[0]))] + Extra(v) + if CutsOff(v) then [] else b
  {
    hide Split, ParseLines, ParseLine, CleanList, Contains, CleanValue;
    var v, p, rest := h.value, h.name + ": ", EmitHeaders(b);
    var first, more := p + Split(v, CRLF)[0], Continuation(v);
    assert ([h] + b)[1..] == b;
    SplitJoin(HeaderLine(h), rest);
    NameIsUnbroken(h.name);
    SplitBehind(p, v);
    assert Split(HeaderLine(h), CRLF) == [first] + more;
    FirstLineParses(h.name, Split(v, CRLF)[0]);
    calc {
      ParseLines(Split(EmitHeaders([h] + b), CRLF));
      ParseLines(([first] + more) + Split(rest, CRLF));
      { assert ([first] + more) + Split(rest, CRLF) == [first] + (more + Split(rest, CRLF)); }
      ParseLines([first] + (more + Split(rest, CRLF)));
      { ParseCons(first, more + Split(rest, CRLF), Header(h.name, Trim(Split(v, CRLF)[0]))); }
      [Header(h.name, Trim(Split(v, CRLF)[0]))] + ParseLines(more + Split(rest, CRLF));
    }
    ParseLinesAppend(more, Split(rest, CRLF));
    HeadersReparse(b);
    assert Extra(v) + [] == Extra(v);
  }

  // ---------------------------------------------------------------- the computed list around its host header

  /** What a forced close removes before anything else. */
  function Norm(hs: seq<Header>, o: Options): seq<Header> { if o.forceClose then Remove(hs, PROXY_CONNECTION) else hs }

  /** All changes after the host override. */
  function Later(o: Options): seq<Header> {
    if o.forceClose then Remove(Changes(o), PROXY_CONNECTION) + [CLOSE] else Changes(o)
  }

  lemma ComputedForm(hs: seq<Header>, o: Options)
    requires !o.addOrigin
    ensures Computed(hs, o) == Sets(Sets(Norm(hs, o), HostChange(o.host)), Later(o))
  {
    hide Computed, Sets, Remove, Changes, Same, Has;
    var c := HostChange(o.host);
    ComputedIsSets(hs, o);
    SetsJoin(Norm(hs, o), c, Later(o));
    if o.forceClose {
      RemoveOfConcat(c, Changes(o), PROXY_CONNECTION);
      HostIsNotProxy(o.host);
      RemoveAbsent(c, PROXY_CONNECTION);
      assert (c + Remove(Changes(o), PROXY_CONNECTION)) + [CLOSE] == c + Later(o);
    }
  }

  lemma HostIsNotProxy(host: Option<string>)
    ensures !Has(HostChange(host), PROXY_CONNECTION)
  {
    hide Same, Trim;
    NamesDiffer(PROXY_CONNECTION);
  }

  function Value(o: Options): string { if o.host.Some? then Trim(o.host.value) else "" }

  lemma SurvivingForm(hs: seq<Header>, o: Options)
    requires !o.addOrigin && OverrideSurvives(o)
    ensures Computed(hs, o) == Sets(Set(Norm(hs, o), Header(HOST, Value(o))), Later(o))
  {
    hide Computed, Sets, Set, Norm, Later, Changes, LastSet, Trim;
    ComputedForm(hs, o);
    SetsOne(Norm(hs, o), Header(HOST, Value(o)));
  }

  /** The headers before the first one named Host. */
  function Before(hs: seq<Header>): seq<Header> {
    if hs == [] || Same(hs[0].name, HOST) then [] else [hs[0]] + Before(hs[1..])
  }

  lemma {:induction false} BeforeHost(hs: seq<Header>)
    requires Get(hs, HOST).Some?
    ensures var n := |Before(hs)|;
            && n < |hs| && Before(hs) == hs[..n] && !Has(Before(hs), HOST)
            && Same(hs[n].name, HOST) && hs[n].value == Get(hs, HOST).value
  {
    hide Lower;
    if !Same(hs[0].name, HOST) {
      BeforeHost(hs[1..]);
    }
  }

  lemma {:induction false} SetHost(a: seq<Header>, h: Header, y: seq<Header>, v: string)
    requires !Has(a, HOST) && Same(h.name, HOST)
    ensures Set(a + ([h] + y), Header(HOST, v)) == a + ([h.(value := v)] + y)
  {
    hide Lower, Same;
    if a == [] {
      assert a + ([h] + y) == [h] + y && ([h] + y)[1..] == y;
    } else {
      assert a[0] in a;
      var s := a + ([h] + y);
      assert s[0] == a[0] && s[1..] == a[1..] + ([h] + y);
      SetHost(a[1..], h, y, v);
      assert a == [a[0]] + a[1..];
    }
  }

  lemma LaterIsClean(o: Options)
    ensures CleanList(Later(o))
  {
    hide Changes, Remove, CleanHeader;
    ChangesAreClean(o);
    CloseIsClean();
    RemoveKeepsClean(Changes(o), PROXY_CONNECTION);
  }

  lemma NormIsClean(hs: seq<Header>, o: Options)
    requires CleanList(hs)
    ensures CleanList(Norm(hs, o))
  {
    hide Remove, CleanHeader;
    RemoveKeepsClean(hs, PROXY_CONNECTION);
  }

  /** All of the computed list is clean but, possibly, the override itself. */
  lemma ComputedButHostIsClean(hs0: seq<Header>, o: Options)
    requires CleanList(hs0) && !o.addOrigin && OverrideSurvives(o)
    ensures CleanList(Set(Computed(hs0, o), Header(HOST, "")))
  {
    hide CleanList, CleanHeader, Computed, Sets, Set, Norm, Later, Changes, LastSet, Trim, Has, Lower, CleanValue;
    var base, host, none := Norm(hs0, o), Header(HOST, Value(o)), Header(HOST, "");
    var y := Set(base, host);
    SurvivingForm(hs0, o);
    SetHas(base, host, HOST);
    SetIsForgotten(y, Later(o), none, none);
    SetOverwrites(base, host, none);
    NormIsClean(hs0, o);
    LaterIsClean(o);
    EmptyIsClean();
    CleanName(HOST, "");
    SetKeepsClean(base, none);
    SetsKeepClean(Set(base, none), Later(o));
    SetKeepsClean(Sets(Set(base, none), Later(o)), none);
  }

  /** The computed list, taken apart at its host header. */
  datatype Parts = Parts(before: seq<Header>, host: Header, behind: seq<Header>) {
    function UpTo(): seq<Header> { before + [host] }
    function All(): seq<Header> { before + ([host] + behind) }
  }

  ghost predicate PartsOf(p: Parts, hs: seq<Header>, o: Options) {
    && hs == p.All() && p.before == Before(hs) && !Has(p.before, HOST)
    && Same(p.host.name, HOST) && p.host.value == Value(o)
    && CleanList(p.before) && CleanList(p.behind) && CleanValue(p.host.name) && !Contains(p.host.name, ":")
  }

  lemma HostIsValue(hs0: seq<Header>, o: Options)
    requires !o.addOrigin && OverrideSurvives(o)
    ensures Get(Computed(hs0, o), HOST) == Some(Value(o))
  {
    hide Computed, Get, LastSet, Changes, Trim, Lower, Configured, Forwarded;
    RewrittenLookup(hs0, o, HOST);
    NamesDiffer(HOST);
  }

  lemma TakeApart(hs0: seq<Header>, o: Options) returns (p: Parts)
    requires CleanList(hs0) && !o.addOrigin && OverrideSurvives(o)
    ensures PartsOf(p, Computed(hs0, o), o)
  {
    hide Computed, Get, Before, Value, OverrideSurvives, Has, Same, CleanValue, Contains, Set;
    var hs := Computed(hs0, o);
    HostIsValue(hs0, o);
    BeforeHost(hs);
    var n := |Before(hs)|;
    p := Parts(hs[..n], hs[n], hs[n + 1..]);
    assert hs == p.All();
    ComputedButHostIsClean(hs0, o);
    SetHost(p.before, p.host, p.behind, "");
    CleanPieces(p.before, p.host.(value := ""), p.behind);
  }

  lemma CleanPieces(a: seq<Header>, h: Header, b: seq<Header>)
    requires CleanList(a + ([h] + b))
    ensures CleanList(a) && CleanHeader(h) && CleanList(b)
  {
    hide CleanHeader;
    var s := a + ([h] + b);
    assert s[|a|] == h;
    forall x | x in a ensures CleanHeader(x) { assert x in s; }
    forall x | x in b ensures CleanHeader(x) { assert x in s; }
  }

  // ---------------------------------------------------------------- changes seen from a prefix

  lemma {:induction false} SetPast(p: seq<Header>, y: seq<Header>, h: Header)
    requires !Has(p, h.name)
    ensures Set(p + y, h) == p + Set(y, h)
  {
    hide Lower;
    if p == [] {
      assert p + y == y;
    } else {
      assert (p + y)[0] == p[0] && (p + y)[1..] == p[1..] + y && p[0] in p;
      SetPast(p[1..], y, h);
      assert p == [p[0]] + p[1..];
    }
  }

  lemma {:induction false} SetLength(hs: seq<Header>, h: Header)
    ensures |Set(hs, h)| == |hs| + if Has(hs, h.name) then 0 else 1
  {
    hide Lower;
    if hs != [] {
      SetLength(hs[1..], h);
      assert hs == [hs[0]] + hs[1..];
    }
  }

  /** What changes make of the headers behind a prefix. */
  function Tail(p: seq<Header>, y: seq<Header>, changes: seq<Header>): seq<Header>
    decreases |changes|
  {
    if changes == [] then y
    else if Has(p, changes[0].name) then Tail(Set(p, changes[0]), y, changes[1..])
    else Tail(p, Set(y, changes[0]), changes[1..])
  }

  /** What changes make of the prefix itself: the same, whatever stands behind it. */
  function Front(p: seq<Header>, changes: seq<Header>): seq<Header>
    decreases |changes|
  {
    if changes == [] then p
    else Front(if Has(p, changes[0].name) then Set(p, changes[0]) else p, changes[1..])
  }

  lemma {:induction false} SetsInParts(p: seq<Header>, y: seq<Header>, changes: seq<Header>)
    ensures Sets(p + y, changes) == Front(p, changes) + Tail(p, y, changes)
    ensures |Front(p, changes)| == |p| && |Tail(p, y, changes)| >= |y|
    decreases |changes|
  {
    hide Lower, Set, Has;
    if changes != [] {
      var c := changes[0];
      SetLength(p, c);
      SetLength(y, c);
      if Has(p, c.name) {
        SetInside(p, y, c);
        SetsInParts(Set(p, c), y, changes[1..]);
      } else {
        SetPast(p, y, c);
        SetsInParts(p, Set(y, c), changes[1..]);
      }
    }
  }

  lemma {:induction false} TailIsClean(p: seq<Header>, y: seq<Header>, changes: seq<Header>)
    requires CleanList(y) && CleanList(changes)
    ensures CleanList(Tail(p, y, changes))
    decreases |changes|
  {
    hide CleanHeader, Set, Has;
    if changes != [] {
      SetKeepsClean(y, changes[0]);
      TailIsClean(Set(p, changes[0]), y, changes[1..]);
      TailIsClean(p, Set(y, changes[0]), changes[1..]);
    }
  }

  // ---------------------------------------------------------------- the second rewrite

  lemma ComputedIsNormal(hs0: seq<Header>, o: Options)
    ensures o.forceClose ==> !Has(Computed(hs0, o), PROXY_CONNECTION)
  {
    hide Computed, Has;
    if o.forceClose {
      NoProxyConnection(hs0, o);
    }
  }

  lemma NormOfConcat(a: seq<Header>, b: seq<Header>, o: Options)
    ensures Norm(a + b, o) == Norm(a, o) + Norm(b, o)
  {
    hide Remove;
    RemoveOfConcat(a, b, PROXY_CONNECTION);
  }

  lemma NormIsSame(hs: seq<Header>, o: Options)
    requires o.forceClose ==> !Has(hs, PROXY_CONNECTION)
    ensures Norm(hs, o) == hs
  {
    hide Remove, Has;
    if o.forceClose {
      RemoveAbsent(hs, PROXY_CONNECTION);
    }
  }

  lemma NoneInParts(p: Parts, name: string)
    requires !Has(p.All(), name)
    ensures !Has(p.before, name) && !Same(p.host.name, name) && !Has(p.behind, name)
  {
    hide Same;
    assert p.host in p.All();
    forall x | x in p.before ensures x in p.All() {}
    forall x | x in p.behind ensures x in p.All() {}
  }

  /** What is read back: up to the host header as written, then its continuation lines, then the rest unless cut off. */
  function Reread(p: Parts): seq<Header> {
    var v := p.host.value;
    p.before + ([p.host.(value := Trim(Split(v, CRLF)[0]))] + (Extra(v) + if CutsOff(v) then [] else p.behind))
  }

  lemma ReadsBack(line: string, p: Parts, hs: seq<Header>, o: Options)
    requires Unbroken(line) && PartsOf(p, hs, o)
    ensures Parse(Emit(Head(line, hs))) == Head(line, Reread(p))
  {
    hide Split, ParseLines, EmitHeaders, CleanList, CleanValue, Contains, Unbroken, Extra, CutsOff, Trim, Has, Same, Before, Value;
    var body := EmitHeaders(hs);
    SplitLine(line, body);
    assert ([line] + Split(body, CRLF))[1..] == Split(body, CRLF);
    ReadClean(p.before, [p.host] + p.behind);
    ReadBroken(p.host, p.behind);
    var v := p.host.value;
    var h := p.host.(value := Trim(Split(v, CRLF)[0]));
    assert [h] + Extra(v) + (if CutsOff(v) then [] else p.behind) == [h] + (Extra(v) + if CutsOff(v) then [] else p.behind);
  }

  /** The headers that stand behind the host header when the second rewrite begins its changes. */
  function Carried(p: Parts, o: Options): seq<Header> {
    Norm(Extra(p.host.value), o) + if CutsOff(p.host.value) then [] else p.behind
  }

  lemma RereadIsNormal(p: Parts, hs: seq<Header>, o: Options)
    requires PartsOf(p, hs, o) && (o.forceClose ==> !Has(hs, PROXY_CONNECTION))
    ensures Norm(Reread(p), o)
         == p.before + ([p.host.(value := Trim(Split(p.host.value, CRLF)[0]))] + Carried(p, o))
  {
    hide CleanList, CleanValue, Contains, Extra, CutsOff, Trim, Has, Same, Before, Value, Split, Norm;
    var v := p.host.value;
    var h, rest := p.host.(value := Trim(Split(v, CRLF)[0])), if CutsOff(v) then [] else p.behind;
    if o.forceClose {
      NoneInParts(p, PROXY_CONNECTION);
    }
    NoneIsNone(h, PROXY_CONNECTION);
    NormOfConcat(p.before, [h] + (Extra(v) + rest), o);
    NormOfConcat([h], Extra(v) + rest, o);
    NormOfConcat(Extra(v), rest, o);
    NormIsSame(p.before, o);
    NormIsSame([h], o);
    NormIsSame(rest, o);
  }

  lemma NoneIsNone(h: Header, name: string)
    ensures Has([h], name) <==> Same(h.name, name)
    ensures !Has([], name)
  {
    hide Same;
    assert h in [h];
  }

  lemma SecondComputed(p: Parts, hs: seq<Header>, o: Options)
    requires PartsOf(p, hs, o) && !o.addOrigin && OverrideSurvives(o) && (o.forceClose ==> !Has(hs, PROXY_CONNECTION))
    ensures Computed(Reread(p), o) == Sets(p.UpTo() + Carried(p, o), Later(o))
  {
    hide Computed, CleanList, CleanValue, Contains, Has, Same, Before, Value, Split, Norm, Reread, Carried, Sets, Set, Trim, Later, OverrideSurvives;
    SurvivingForm(Reread(p), o);
    RereadIsNormal(p, hs, o);
    SetHost(p.before, p.host.(value := Trim(Split(p.host.value, CRLF)[0])), Carried(p, o), Value(o));
    assert p.before + ([p.host] + Carried(p, o)) == p.UpTo() + Carried(p, o);
  }

  /** The computed list is not changed by its own later changes. */
  lemma FirstIsFixed(hs0: seq<Header>, p: Parts, o: Options)
    requires !o.addOrigin && OverrideSurvives(o) && PartsOf(p, Computed(hs0, o), o)
    ensures Front(p.UpTo(), Later(o)) == p.UpTo() && Tail(p.UpTo(), p.behind, Later(o)) == p.behind
  {
    hide Computed, CleanList, CleanValue, Contains, Has, Same, Before, Value, Norm, Sets, Set, Later, OverrideSurvives, Front, Tail;
    var hs := Computed(hs0, o);
    ComputedIsIdempotent(hs0, o);
    SurvivingForm(hs, o);
    ComputedIsNormal(hs0, o);
    NormIsSame(hs, o);
    SetHost(p.before, p.host, p.behind, Value(o));
    assert hs == p.UpTo() + p.behind;
    SetsInParts(p.UpTo(), p.behind, Later(o));
    SameCut(Front(p.UpTo(), Later(o)), Tail(p.UpTo(), p.behind, Later(o)), p.UpTo(), p.behind);
  }

  lemma SameCut<T>(a: seq<T>, b: seq<T>, c: seq<T>, d: seq<T>)
    requires a + b == c + d && |a| == |c|
    ensures a == c && b == d
  {
    assert (a + b)[..|a|] == a && (c + d)[..|c|] == c;
    assert (a + b)[|a|..] == b && (c + d)[|c|..] == d;
  }

  /** With the same headers in front, heads whose clean rests differ are written differently. */
  lemma WrittenAlike(line: string, p: seq<Header>, a: seq<Header>, b: seq<Header>)
    requires CleanList(a) && CleanList(b)
    ensures Emit(Head(line, p + a)) == Emit(Head(line, p + b)) <==> a == b
  {
    hide EmitHeaders, EmitLines, CleanList, ParseLines, Split;
    EmitAppend(p, a);
    EmitAppend(p, b);
    HeadersReparse(a);
    HeadersReparse(b);
    var pre := line + CRLF + EmitLines(p);
    assert Emit(Head(line, p + a)) == pre + EmitHeaders(a);
    assert Emit(Head(line, p + b)) == pre + EmitHeaders(b);
    if pre + EmitHeaders(a) == pre + EmitHeaders(b) {
      SameCut(pre, EmitHeaders(a), pre, EmitHeaders(b));
    }
  }

  lemma CarriedIsClean(p: Parts, hs: seq<Header>, o: Options)
    requires PartsOf(p, hs, o)
    ensures CleanList(Carried(p, o))
  {
    hide CleanHeader, CleanValue, Contains, Has, Same, Before, Value, Split, Norm, ParseLines;
    var v := p.host.value;
    PartsAreWhole(v, CRLF);
    ParsedLinesAreClean(Continuation(v));
    NormIsClean(Extra(v), o);
  }

  // ---------------------------------------------------------------- exactly when nothing changes

  /**
   The lines of a surviving override beyond the first do no harm: either none of them is blank and
   none adds a header that the rewrite keeps, or a blank one cuts off the rest of the head and just
   the headers that stood there are added again by those lines and by the settings.
   */
  predicate Harmless(hs: seq<Header>, o: Options) {
    OverrideSurvives(o) ==>
      var v := Trim(o.host.value);
      var extra := Norm(Extra(v), o);
      if CutsOff(v) then
        var n := |Before(hs)|;
        n < |hs| && hs[n + 1..] == Tail(hs[..n + 1], extra, Later(o))
      else extra == []
  }

  lemma TextIsFixedIff(line: string, hs0: seq<Header>, o: Options)
    requires Unbroken(line) && CleanList(hs0) && !o.addOrigin && OverrideSurvives(o)
    ensures var hs := Computed(hs0, o);
            Rewritten(Emit(Head(line, hs)), o) == Emit(Head(line, hs)) <==> Harmless(hs, o)
  {
    hide Computed, CleanList, CleanValue, Contains, Has, Same, Norm, Sets, Later, OverrideSurvives, Front, Tail, Unbroken,
      Parse, Emit, Reread, Extra, CutsOff, Trim, Before;
    var hs := Computed(hs0, o);
    var p := TakeApart(hs0, o);
    var c, up := Carried(p, o), p.UpTo();
    ComputedIsNormal(hs0, o);
    ReadsBack(line, p, hs, o);
    SecondComputed(p, hs, o);
    SetsInParts(up, c, Later(o));
    FirstIsFixed(hs0, p, o);
    CarriedIsClean(p, hs, o);
    LaterIsClean(o);
    TailIsClean(up, c, Later(o));
    assert hs == up + p.behind;
    WrittenAlike(line, up, Tail(up, c, Later(o)), p.behind);
    HarmlessMeans(p, hs, o);
  }

  lemma HarmlessMeans(p: Parts, hs: seq<Header>, o: Options)
    requires PartsOf(p, hs, o) && OverrideSurvives(o)
    requires Tail(p.UpTo(), p.behind, Later(o)) == p.behind
    ensures Harmless(hs, o) <==> Tail(p.UpTo(), Carried(p, o), Later(o)) == p.behind
  {
    hide CleanList, CleanValue, Contains, Has, Same, Norm, Sets, Later, Front, Tail, Extra, CutsOff, Trim, Before, LastSet, Changes;
    var n, v := |p.before|, p.host.value;
    assert hs[..n + 1] == p.UpTo() && hs[n + 1..] == p.behind;
    var extra := Norm(Extra(v), o);
    if CutsOff(v) {
      assert Carried(p, o) == extra;
    } else {
      SetsInParts(p.UpTo(), Carried(p, o), Later(o));
      assert extra == [] ==> Carried(p, o) == p.behind;
    }
  }

  lemma UntouchedOverrideIsGood(hs: seq<Header>, o: Options)
    requires !o.addOrigin && !OverrideSurvives(o)
    ensures GoodOptions(hs, o)
  {
  }

  /**
   Without origin headers, rewriting a rewritten head changes nothing if and only if the lines of the
   surviving host override do no harm. In particular it changes nothing when the override is one
   line, is replaced by a change line, or is not given.
   */
  lemma RewriteIsIdempotentIff(text: string, o: Options)
    requires !o.addOrigin
    ensures Rewritten(Rewritten(text, o), o) == Rewritten(text, o) <==> Harmless(Computed(Parse(text).headers, o), o)
  {
    hide Computed, CleanList, Parse, Emit, OverrideSurvives, Harmless, GoodOptions;
    var h := Parse(text);
    ParsedIsClean(text);
    if OverrideSurvives(o) {
      TextIsFixedIff(h.line, h.headers, o);
    } else {
      UntouchedOverrideIsGood(h.headers, o);
      RewriteIsIdempotent(text, o);
      AbsentIsHarmless(Computed(h.headers, o), o);
    }
  }

  lemma AbsentIsHarmless(hs: seq<Header>, o: Options)
    requires !OverrideSurvives(o)
    ensures Harmless(hs, o)
  {
    hide OverrideSurvives;
  }

  // ---------------------------------------------------------------- particular overrides

  function Override(v: string): Options { Options(Some(v), "", "", false, false) }

  lemma NoChanges(v: string)
    ensures Changes(Override(v)) == [] && Later(Override(v)) == []
  {
    hide Trim;
    NowhereIsNone("", "\n");
    assert Split("", "\n") == [""];
    assert Trim("") == "" by { TrimOf(""); }
    NowhereIsNone("", ":");
    assert ParseLine("") == None;
    assert LineChanges([""]) == LineChanges([""][1..]) == [];
  }

  lemma OverrideStays(v: string)
    requires Trimmed(v) && v != ""
    ensures OverrideSurvives(Override(v)) && Trim(v) == v
  {
    hide Trim, Changes;
    TrimOf(v);
    NoChanges(v);
  }

  lemma TwoLines(a: string, b: string)
    requires Unbroken(a) && Unbroken(b)
    ensures Continuation(a + CRLF + b) == [b]
  {
    hide Split, Unbroken;
    SplitLine(a, b);
    SplitUnbroken(b);
  }

  lemma SplitUnbroken(s: string)
    requires Unbroken(s)
    ensures Split(s, CRLF) == [s]
  {
    hide Split, Contains;
    SplitNone(s, CRLF);
  }

  /** An override whose second line is a header repeats that header on every rewrite, whatever the request. */
  lemma ExtraHeaderRepeats(text: string)
    ensures var o := Override("a" + CRLF + "X: b"); Rewritten(Rewritten(text, o), o) != Rewritten(text, o)
  {
    hide Rewritten, Parse, Computed, Trim, Split, CleanHeader, ParseLine, Unbroken, OverrideSurvives, Contains;
    var v, h := "a" + CRLF + "X: b", Header("X", "b");
    var o := Override(v);
    OverrideStays(v);
    PlainIsClean("a");
    PlainIsClean("X");
    PlainIsClean("b");
    assert CleanHeader(h) by { CleanFromParts(h); }
    HeaderLineIsUnbroken(h);
    HeaderLineParses(h);
    assert HeaderLine(h) == "X: b";
    TwoLines("a", "X: b");
    assert Continuation(v) == ["X: b"];
    ParseCons("X: b", [], h);
    assert ["X: b"] + [] == ["X: b"];
    assert Extra(v) == [h];
    RewriteIsIdempotentIff(text, o);
  }

  lemma CleanFromParts(h: Header)
    requires CleanValue(h.name) && !Contains(h.name, ":") && CleanValue(h.value)
    ensures CleanHeader(h)
  {
  }

  /**
   An override whose second line is no header is written and read back as two lines, so the head does
   not read back as the computed list, and still the second rewrite changes nothing.
   */
  lemma PlainSecondLineIsHarmless(text: string)
    ensures var o, h := Override("a" + CRLF + "b"), Parse(text);
            && Parse(Rewritten(text, o)) != Head(h.line, Computed(h.headers, o))
            && Rewritten(Rewritten(text, o), o) == Rewritten(text, o)
  {
    hide Rewritten, Parse, Computed, Trim, Split, Unbroken, OverrideSurvives, Contains, Find;
    var v := "a" + CRLF + "b";
    var o := Override(v);
    OverrideStays(v);
    PlainIsClean("a");
    PlainIsClean("b");
    TwoLines("a", "b");
    NotFound("b", ":");
    assert Continuation(v) == ["b"];
    assert Extra(v) == [] by { NoHeader("b"); }
    RewriteIsIdempotentIff(text, o);
    BrokenPair("a", "b");
    ReparsesIffGood(text, o);
  }

  lemma NoHeader(line: string)
    requires Find(line, ":").None?
    ensures ParseLines([line]) == []
  {
    hide Find;
    assert [line][1..] == [];
  }

  lemma BrokenPair(a: string, b: string)
    ensures !Unbroken(a + CRLF + b)
  {
    var s := a + CRLF + b;
    BreakAt(s, |a|);
    assert At(s, CRLF, |a|);
  }

  /** An override with a blank line drops, on the second rewrite, the headers that stand behind it. */
  lemma BlankLineDropsHeaders()
    ensures var o, text := Override("a" + CRLF + CRLF + "b"), Emit(Head("GET", [Header(HOST, "h"), Header("Y", "z")]));
            Rewritten(Rewritten(text, o), o) != Rewritten(text, o)
  {
    hide Rewritten, Parse, Emit, Trim, Split, Unbroken, OverrideSurvives, Contains, CleanHeader, Set, Sets, Same;
    var v, host, y := "a" + CRLF + CRLF + "b", Header(HOST, "h"), Header("Y", "z");
    var o, head := Override(v), Head("GET", [host, y]);
    PlainIsClean("GET");
    PlainIsClean("Y");
    PlainIsClean("z");
    PlainIsClean("h");
    PlainIsClean(HOST);
    CleanFromParts(host);
    CleanFromParts(y);
    CleanReparses(head);
    OverrideStays(v);
    NoChanges(v);
    CutByBlank(v);
    SurvivingForm(head.headers, o);
    SetsNone(Set(head.headers, Header(HOST, v)));
    SetFirst(host, y, v);
    RewriteIsIdempotentIff(Emit(head), o);
  }

  lemma CutByBlank(v: string)
    requires v == "a" + CRLF + CRLF + "b"
    ensures CutsOff(v) && Extra(v) == []
  {
    hide Split;
    PlainIsClean("a");
    PlainIsClean("");
    SplitLine("a", CRLF + "b");
    SplitLine("", "b");
    assert v == "a" + CRLF + (CRLF + "b") && CRLF + "b" == "" + CRLF + "b";
    assert Continuation(v) == [""] + Split("b", CRLF);
  }

  lemma SetFirst(host: Header, y: Header, v: string)
    requires host.name == HOST
    ensures Set([host, y], Header(HOST, v)) == [Header(HOST, v), y]
    ensures Before([Header(HOST, v), y]) == []
  {
    hide Lower;
    assert [host, y][1..] == [y];
  }
}
