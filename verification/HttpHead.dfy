/** Rewriting the head of a forwarded HTTP request: parse, change the header list, write out again. */
module HttpHead {
  import opened Wrappers
  import opened Text
  import opened HeaderList

  const CRLF: string := "\r\n"

  datatype Head = Head(line: string, headers: seq<Header>)

  // ---------------------------------------------------------------- parsing and writing

  function ParseLine(line: string): Option<Header> {
    match SplitOnce(line, ':')
    case None => None
    case Some((name, value)) => Some(Header(Trim(name), Trim(value)))
  }

  /** Header lines up to the first empty one; a line without a colon is skipped. */
  function ParseLines(lines: seq<string>): seq<Header> {
    if lines == [] || lines[0] == "" then []
    else match ParseLine(lines[0])
      case None => ParseLines(lines[1..])
      case Some(h) => [h] + ParseLines(lines[1..])
  }

  function Parse(text: string): Head {
    var lines := Split(text, CRLF);
    Head(lines[0], ParseLines(lines[1..]))
  }

  function HeaderLine(h: Header): string { h.name + ": " + h.value }

  function EmitHeaders(hs: seq<Header>): string {
    if hs == [] then CRLF else HeaderLine(hs[0]) + CRLF + EmitHeaders(hs[1..])
  }

  function Emit(h: Head): string { h.line + CRLF + EmitHeaders(h.headers) }

  /** A head with one header, as it is written. */
  lemma EmittedText(line: string, name: string, value: string)
    ensures Emit(Head(line, [Header(name, value)])) == line + "\r\n" + name + ": " + value + "\r\n" + "\r\n"
  {
    var h := Header(name, value);
    assert [h][1..] == [];
    assert EmitHeaders([h]) == name + ": " + value + CRLF + CRLF;
  }

  predicate Unbroken(s: string) { !Contains(s, CRLF) }

  predicate CleanValue(v: string) { Trimmed(v) && Unbroken(v) }

  predicate CleanHeader(h: Header) { CleanValue(h.name) && !Contains(h.name, ":") && CleanValue(h.value) }

  predicate CleanList(hs: seq<Header>) { forall h | h in hs :: CleanHeader(h) }

  predicate Clean(h: Head) { Unbroken(h.line) && CleanList(h.headers) }

  // ---------------------------------------------------------------- reparsing

  lemma BreakAt(s: string, i: nat)
    ensures At(s, CRLF, i) <==> i + 1 < |s| && s[i] == '\r' && s[i + 1] == '\n'
  {
    if i + 1 < |s| {
      assert s[i..][0] == s[i] && s[i..][1] == s[i + 1];
      assert s[i..][..2] == [s[i], s[i + 1]];
    }
  }

  lemma NotBroken(s: string, i: nat)
    requires Unbroken(s) && i + 1 < |s|
    ensures !(s[i] == '\r' && s[i + 1] == '\n')
  {
    BreakAt(s, i);
    assert At(s, CRLF, i) ==> Contains(s, CRLF);
  }

  lemma SplitLine(part: string, rest: string)
    requires Unbroken(part)
    ensures Split(part + CRLF + rest, CRLF) == [part] + Split(rest, CRLF)
  {
    hide Unbroken, Split;
    var s := part + CRLF + rest;
    forall i | 0 <= i < |part| ensures !At(s, CRLF, i) {
      BreakAt(s, i);
      if i + 1 < |part| {
        NotBroken(part, i);
      } else {
        assert s[i + 1] == '\r';
      }
    }
    hide At;
    SplitPart(part, CRLF, rest);
  }

  lemma HeaderLineIsUnbroken(h: Header)
    requires CleanHeader(h)
    ensures Unbroken(HeaderLine(h))
  {
    var s, n := HeaderLine(h), |h.name|;
    forall i | 0 <= i <= |s| ensures !At(s, CRLF, i) {
      hide Unbroken, Trimmed, At;
      BreakAt(s, i);
      if i + 1 < n {
        NotBroken(h.name, i);
      } else if n + 2 <= i && i + 1 < |s| {
        NotBroken(h.value, i - n - 2);
      }
    }
  }

  lemma HeaderLineParses(h: Header)
    requires CleanHeader(h)
    ensures ParseLine(HeaderLine(h)) == Some(h)
  {
    hide Find, Trim, Trimmed, Unbroken, Contains;
    var s, n := HeaderLine(h), |h.name|;
    ColonIsFound(h.name, " " + h.value);
    assert s == h.name + ":" + (" " + h.value);
    assert s[..n] == h.name && s[n + 1..] == " " + h.value;
    SpaceTrims(h.name, h.value);
  }

  lemma ColonIsFound(name: string, rest: string)
    requires !Contains(name, ":")
    ensures Find(name + ":" + rest, ":") == Some(|name|)
  {
    hide Find;
    var s, n := name + ":" + rest, |name|;
    assert s[n..][0] == ':';
    assert At(s, ":", n);
    assert Contains(s, ":");
    forall i | 0 <= i < n ensures !At(s, ":", i) {
      assert name[i..][0] == s[i..][0];
      assert !At(name, ":", i);
    }
  }

  lemma SpaceTrims(name: string, value: string)
    requires Trimmed(name) && Trimmed(value)
    ensures Trim(name) == name && Trim(" " + value) == value
  {
    TrimOf(name);
    TrimOf(value);
    TrimStartOf(value);
    assert (" " + value)[1..] == value;
  }

  lemma ParseCons(line: string, rest: seq<string>, h: Header)
    requires line != "" && ParseLine(line) == Some(h)
    ensures ParseLines([line] + rest) == [h] + ParseLines(rest)
  {
    hide ParseLine;
    assert ([line] + rest)[1..] == rest;
  }

  lemma {:induction false} HeadersReparse(hs: seq<Header>)
    requires CleanList(hs)
    ensures ParseLines(Split(EmitHeaders(hs), CRLF)) == hs
  {
    hide CleanHeader, ParseLine, Split;
    if hs == [] {
      assert Unbroken("");
      SplitLine("", "");
      assert "" + CRLF + "" == CRLF;
    } else {
      var h, rest := hs[0], EmitHeaders(hs[1..]);
      HeadersReparse(hs[1..]);
      HeaderLineIsUnbroken(h);
      HeaderLineParses(h);
      hide ParseLines, Unbroken;
      SplitLine(HeaderLine(h), rest);
      ParseCons(HeaderLine(h), Split(rest, CRLF), h);
      assert hs == [h] + hs[1..];
    }
  }

  lemma CleanReparses(h: Head)
    requires Clean(h)
    ensures Parse(Emit(h)) == h
  {
    hide CleanList, ParseLines, EmitHeaders, Unbroken, Split;
    HeadersReparse(h.headers);
    SplitLine(h.line, EmitHeaders(h.headers));
    assert ([h.line] + Split(EmitHeaders(h.headers), CRLF))[1..] == Split(EmitHeaders(h.headers), CRLF);
  }

  lemma SliceIsClean(s: string, i: nat, j: nat, sub: string)
    requires i <= j <= |s| && !Contains(s, sub)
    ensures !Contains(s[i..j], sub)
  {
    hide Contains;
    if Contains(s[i..j], sub) {
      SliceContains(s, i, j, sub);
    }
  }

  lemma TrimKeepsOut(s: string, sub: string)
    requires !Contains(s, sub)
    ensures !Contains(Trim(s), sub)
  {
    hide Contains, Trim;
    TrimIsTrimmed(s);
    var k := |s| - |TrimStart(s)|;
    SliceIsClean(s, k, k + |Trim(s)|, sub);
  }

  lemma ParsedLineIsClean(line: string)
    requires Unbroken(line)
    ensures ParseLine(line).Some? ==> CleanHeader(ParseLine(line).value)
  {
    hide Contains, Trim, Trimmed, Find;
    match Find(line, ":")
    case None =>
    case Some(i) =>
      BeforeFirst(line, ":");
      var name, value := line[..i], line[i + 1..];
      SliceIsClean(line, 0, i, CRLF);
      SliceIsClean(line, i + 1, |line|, CRLF);
      assert line[0..i] == name && line[i + 1..|line|] == value;
      TrimKeepsOut(name, CRLF);
      TrimKeepsOut(name, ":");
      TrimKeepsOut(value, CRLF);
      TrimIsTrimmed(name);
      TrimIsTrimmed(value);
  }

  lemma {:induction false} ParsedLinesAreClean(lines: seq<string>)
    requires forall l | l in lines :: Unbroken(l)
    ensures CleanList(ParseLines(lines))
  {
    hide CleanHeader, Unbroken, ParseLine;
    if lines != [] {
      ParsedLineIsClean(lines[0]);
      ParsedLinesAreClean(lines[1..]);
    }
  }

  /** Whatever is parsed is clean. */
  lemma ParsedIsClean(text: string)
    ensures Clean(Parse(text))
  {
    hide CleanList, ParseLines, Split, Contains;
    PartsAreWhole(text, CRLF);
    ParsedLinesAreClean(Split(text, CRLF)[1..]);
  }

  /** A head is read back exactly as it was written if and only if it is clean. */
  lemma ReparsesIffClean(h: Head)
    ensures Parse(Emit(h)) == h <==> Clean(h)
  {
    hide Clean, Parse, Emit;
    ParsedIsClean(Emit(h));
    if Clean(h) {
      CleanReparses(h);
    }
  }
}
