/** rewrite_http_request_head: the header list it computes, what that keeps, and when rewriting twice changes nothing. */
module HeadRewrite {
  import opened Wrappers
  import opened Text
  import opened HeaderList
  import opened HttpHead

  /** `ip` is the address part of the remote peer. */
  datatype Options = Options(host: Option<string>, change: string, ip: string, addOrigin: bool, forceClose: bool)

  const HOST: string := "Host"
  const FORWARDED: string := "X-Forwarded-For"
  const REAL_IP: string := "X-Real-IP"
  const PROXY_CONNECTION: string := "Proxy-Connection"
  const CONNECTION: string := "Connection"
  const CLOSE := Header(CONNECTION, "close")

  // ---------------------------------------------------------------- the computed list

  function HostChange(host: Option<string>): seq<Header> {
    if host.Some? && Trim(host.value) != "" then [Header(HOST, Trim(host.value))] else []
  }

  /** One `name: value` change per line that has a colon. */
  function LineChanges(lines: seq<string>): seq<Header> {
    if lines == [] then []
    else match ParseLine(Trim(lines[0]))
      case None => LineChanges(lines[1..])
      case Some(h) => [h] + LineChanges(lines[1..])
  }

  function Changes(o: Options): seq<Header> { LineChanges(Split(o.change, "\n")) }

  function Forwarded(hs: seq<Header>, ip: string): string {
    match Get(hs, FORWARDED)
    case Some(v) => if v != "" then v + ", " + ip else ip
    case None => ip
  }

  function WithOrigin(hs: seq<Header>, ip: string): seq<Header> {
    Set(Set(hs, Header(FORWARDED, Forwarded(hs, ip))), Header(REAL_IP, ip))
  }

  function Configured(hs: seq<Header>, o: Options): seq<Header> { Sets(Sets(hs, HostChange(o.host)), Changes(o)) }

  function Closing(hs: seq<Header>): seq<Header> { Set(Remove(hs, PROXY_CONNECTION), CLOSE) }

  function Computed(hs: seq<Header>, o: Options): seq<Header> {
    var hs1 := Configured(hs, o);
    var hs2 := if o.addOrigin then WithOrigin(hs1, o.ip) else hs1;
    if o.forceClose then Closing(hs2) else hs2
  }

  function Rewritten(text: string, o: Options): string {
    Emit(Head(Parse(text).line, Computed(Parse(text).headers, o)))
  }

  // ---------------------------------------------------------------- the program's loops

  method ParseHead(text: string) returns (line: string, hs: seq<Header>)
    ensures Head(line, hs) == Parse(text)
  {
    hide Split, ParseLine;
    var lines := Split(text, CRLF);
    line, hs := lines[0], [];
    var i := 1;
    assert lines[1..] == lines[i..];
    while i < |lines| && lines[i] != ""
      invariant 1 <= i <= |lines| && ParseLines(lines[1..]) == hs + ParseLines(lines[i..])
    {
      assert lines[i..][1..] == lines[i + 1..];
      match ParseLine(lines[i]) {
        case None =>
        case Some(h) =>
          assert hs + ([h] + ParseLines(lines[i + 1..])) == (hs + [h]) + ParseLines(lines[i + 1..]);
          hs := hs + [h];
      }
      i := i + 1;
    }
    assert ParseLines(lines[i..]) == [];
  }

  method WriteHead(line: string, hs: seq<Header>) returns (out: string)
    ensures out == Emit(Head(line, hs))
  {
    out := line + CRLF;
    assert hs[0..] == hs;
    for i := 0 to |hs|
      invariant Emit(Head(line, hs)) == out + EmitHeaders(hs[i..])
    {
      hide Emit;
      ghost var rest := EmitHeaders(hs[i + 1..]);
      assert hs[i..][1..] == hs[i + 1..];
      assert out + (HeaderLine(hs[i]) + CRLF + rest) == (out + (HeaderLine(hs[i]) + CRLF)) + rest;
      out := out + (HeaderLine(hs[i]) + CRLF);
    }
    assert hs[|hs|..] == [];
    out := out + CRLF;
  }

  method ApplyChanges(hs: seq<Header>, lines: seq<string>) returns (r: seq<Header>)
    ensures r == Sets(hs, LineChanges(lines))
  {
    r := hs;
    assert lines[0..] == lines;
    for i := 0 to |lines|
      invariant Sets(hs, LineChanges(lines)) == Sets(r, LineChanges(lines[i..]))
    {
      hide Trim, ParseLine, Set;
      assert lines[i..][1..] == lines[i + 1..];
      match ParseLine(Trim(lines[i])) {
        case None =>
        case Some(h) =>
          assert ([h] + LineChanges(lines[i + 1..]))[1..] == LineChanges(lines[i + 1..]);
          r := SetHeader(r, h.name, h.value);
      }
    }
  }

  method RewriteHead(text: string, o: Options) returns (out: string)
    ensures out == Rewritten(text, o)
  {
    hide Parse, Sets, LineChanges, Set, Get, Remove, Emit, Split, Trim;
    var line, hs := ParseHead(text);
    SetsOne(hs, Header(HOST, if o.host.Some? then Trim(o.host.value) else ""));
    if o.host.Some? && Trim(o.host.value) != "" {
      hs := SetHeader(hs, HOST, Trim(o.host.value));
    }
    hs := ApplyChanges(hs, Split(o.change, "\n"));
    if o.addOrigin {
      var forwarded := Forwarded(hs, o.ip);
      hs := SetHeader(hs, FORWARDED, forwarded);
      hs := SetHeader(hs, REAL_IP, o.ip);
    }
    if o.forceClose {
      hs := RemoveHeader(hs, PROXY_CONNECTION);
      hs := SetHeader(hs, CONNECTION, "close");
    }
    out := WriteHead(line, hs);
  }

  lemma SetsOne(hs: seq<Header>, h: Header)
    ensures Sets(hs, [h]) == Set(hs, h) && Sets(hs, []) == hs
  {
    hide Set;
    assert [h][1..] == [];
  }

  // ---------------------------------------------------------------- lookups after rewriting

  /** The names a rewrite itself sets or removes are pairwise different. */
  lemma NamesDiffer(name: string)
    ensures Same(HOST, name) ==> |name| == 4
    ensures Same(REAL_IP, name) ==> |name| == 9
    ensures Same(CONNECTION, name) ==> |name| == 10
    ensures Same(FORWARDED, name) ==> |name| == 15
    ensures Same(PROXY_CONNECTION, name) ==> |name| == 16
  {
    hide Lower;
  }

  /** The value of a header, by name, in a rewritten head. */
  function Expected(hs: seq<Header>, o: Options, name: string): Option<string> {
    if o.forceClose && Same(PROXY_CONNECTION, name) then None
    else if o.forceClose && Same(CONNECTION, name) then Some("close")
    else if o.addOrigin && Same(REAL_IP, name) then Some(o.ip)
    else if o.addOrigin && Same(FORWARDED, name) then Some(Forwarded(Configured(hs, o), o.ip))
    else ConfiguredValue(hs, o, name)
  }

  /** The last change line wins over the host override, which wins over the request. */
  function ConfiguredValue(hs: seq<Header>, o: Options, name: string): Option<string> {
    if LastSet(Changes(o), name).Some? then LastSet(Changes(o), name)
    else if o.host.Some? && Trim(o.host.value) != "" && Same(HOST, name) then Some(Trim(o.host.value))
    else Get(hs, name)
  }

  lemma ConfiguredLookup(hs: seq<Header>, o: Options, name: string)
    ensures Get(Configured(hs, o), name) == ConfiguredValue(hs, o, name)
  {
    hide Get, Sets, Set, LastSet, Changes, Trim, Same;
    var change := HostChange(o.host);
    GetOfSets(Sets(hs, change), Changes(o), name);
    if change != [] {
      SetsOne(hs, change[0]);
      GetOfSet(hs, change[0], name);
    } else {
      SetsNone(hs);
    }
  }

  lemma OriginLookup(hs: seq<Header>, ip: string, name: string)
    ensures Get(WithOrigin(hs, ip), name)
         == if Same(REAL_IP, name) then Some(ip) else if Same(FORWARDED, name) then Some(Forwarded(hs, ip)) else Get(hs, name)
  {
    hide Get, Set, Same;
    var h := Header(FORWARDED, Forwarded(hs, ip));
    GetOfSet(hs, h, name);
    GetOfSet(Set(hs, h), Header(REAL_IP, ip), name);
  }

  lemma ClosingLookup(hs: seq<Header>, name: string)
    ensures Get(Closing(hs), name)
         == if Same(PROXY_CONNECTION, name) then None else if Same(CONNECTION, name) then Some("close") else Get(hs, name)
  {
    hide Get, Set, Same, Remove;
    GetOfRemove(hs, PROXY_CONNECTION, name);
    GetOfSet(Remove(hs, PROXY_CONNECTION), CLOSE, name);
    NamesDiffer(name);
  }

  /**
   What each header of the rewritten head is: no Proxy-Connection and a first Connection of "close"
   when closing is forced, the origin headers when asked for, then the configured changes, and the
   request's own value otherwise.
   */
  lemma RewrittenLookup(hs: seq<Header>, o: Options, name: string)
    ensures Get(Computed(hs, o), name) == Expected(hs, o, name)
  {
    hide Get, Configured, ConfiguredValue, WithOrigin, Closing, Same, Forwarded;
    var hs1 := Configured(hs, o);
    ConfiguredLookup(hs, o, name);
    OriginLookup(hs1, o.ip, name);
    ClosingLookup(if o.addOrigin then WithOrigin(hs1, o.ip) else hs1, name);
    NamesDiffer(name);
  }

  lemma {:induction false} RemovedIsGone(hs: seq<Header>, name: string)
    ensures !Has(Remove(hs, name), name)
  {
    hide Lower, Same;
    if hs != [] {
      RemovedIsGone(hs[1..], name);
    }
  }

  /** Not even a later duplicate of Proxy-Connection survives. */
  lemma NoProxyConnection(hs: seq<Header>, o: Options)
    requires o.forceClose
    ensures !Has(Computed(hs, o), PROXY_CONNECTION)
  {
    hide Lower, Set, Has, Remove, Configured, WithOrigin;
    var hs1 := Configured(hs, o);
    var hs2 := if o.addOrigin then WithOrigin(hs1, o.ip) else hs1;
    RemovedIsGone(hs2, PROXY_CONNECTION);
    SetHas(Remove(hs2, PROXY_CONNECTION), CLOSE, PROXY_CONNECTION);
    NamesDiffer(PROXY_CONNECTION);
  }

  // ---------------------------------------------------------------- untouched headers

  function Names(changes: seq<Header>): seq<string> {
    if changes == [] then [] else [changes[0].name] + Names(changes[1..])
  }

  lemma {:induction false} AllNamed(changes: seq<Header>, more: seq<string>)
    ensures forall c | c in changes :: Named(c.name, more + Names(changes))
    decreases |changes|
  {
    hide Lower;
    if changes != [] {
      AllNamed(changes[1..], more + [changes[0].name]);
      assert more + [changes[0].name] + Names(changes[1..]) == more + Names(changes);
      assert changes[0].name in more + Names(changes);
      assert Named(changes[0].name, more + Names(changes));
    }
  }

  /** Every name the options can touch. */
  function Touched(o: Options): seq<string> {
    (if HostChange(o.host) != [] then [HOST] else [])
    + (if o.addOrigin then [FORWARDED, REAL_IP] else [])
    + (if o.forceClose then [PROXY_CONNECTION, CONNECTION] else [])
    + Names(Changes(o))
  }

  lemma NamedMember(name: string, names: seq<string>)
    requires name in names
    ensures Named(name, names)
  {
    hide Lower;
  }

  lemma TouchedAreNamed(o: Options)
    ensures HostChange(o.host) != [] ==> Named(HOST, Touched(o))
    ensures o.addOrigin ==> Named(FORWARDED, Touched(o)) && Named(REAL_IP, Touched(o))
    ensures o.forceClose ==> Named(PROXY_CONNECTION, Touched(o)) && Named(CONNECTION, Touched(o))
    ensures forall c | c in Changes(o) :: Named(c.name, Touched(o))
  {
    hide Named, Changes, HostChange, Names;
    if HostChange(o.host) != [] {
      NamedMember(HOST, Touched(o));
    }
    if o.addOrigin {
      NamedMember(FORWARDED, Touched(o));
      NamedMember(REAL_IP, Touched(o));
    }
    if o.forceClose {
      NamedMember(PROXY_CONNECTION, Touched(o));
      NamedMember(CONNECTION, Touched(o));
    }
    AllNamed(Changes(o), Touched(o)[..|Touched(o)| - |Names(Changes(o))|]);
    assert Touched(o)[..|Touched(o)| - |Names(Changes(o))|] + Names(Changes(o)) == Touched(o);
  }

  lemma ConfiguredKeepsOthers(hs: seq<Header>, o: Options)
    ensures Others(Configured(hs, o), Touched(o)) == Others(hs, Touched(o))
  {
    hide Named, Changes, Touched, Sets, Others, Trim;
    TouchedAreNamed(o);
    SetsKeepOthers(hs, HostChange(o.host), Touched(o));
    SetsKeepOthers(Sets(hs, HostChange(o.host)), Changes(o), Touched(o));
  }

  /** The headers a rewrite does not touch keep their names, values and order. */
  lemma UntouchedSurvive(hs: seq<Header>, o: Options)
    ensures Others(Computed(hs, o), Touched(o)) == Others(hs, Touched(o))
  {
    hide Named, Touched, Configured, Others, Set, Remove, Forwarded;
    var t, hs1 := Touched(o), Configured(hs, o);
    TouchedAreNamed(o);
    ConfiguredKeepsOthers(hs, o);
    var hs2 := if o.addOrigin then WithOrigin(hs1, o.ip) else hs1;
    if o.addOrigin {
      var h := Header(FORWARDED, Forwarded(hs1, o.ip));
      SetKeepsOthers(hs1, h, t);
      SetKeepsOthers(Set(hs1, h), Header(REAL_IP, o.ip), t);
    }
    if o.forceClose {
      RemoveKeepsOthers(hs2, PROXY_CONNECTION, t);
      SetKeepsOthers(Remove(hs2, PROXY_CONNECTION), CLOSE, t);
    }
  }

  // ---------------------------------------------------------------- when the output reads back

  lemma {:induction false} SetKeepsClean(hs: seq<Header>, h: Header)
    requires CleanList(hs) && CleanHeader(h)
    ensures CleanList(Set(hs, h))
  {
    hide Same, CleanValue, Contains;
    if hs != [] {
      assert CleanHeader(hs[0]);
      SetKeepsClean(hs[1..], h);
    }
  }

  lemma {:induction false} SetsKeepClean(hs: seq<Header>, changes: seq<Header>)
    requires CleanList(hs) && CleanList(changes)
    ensures CleanList(Sets(hs, changes))
    decreases |changes|
  {
    hide CleanHeader, Set;
    if changes != [] {
      SetKeepsClean(hs, changes[0]);
      SetsKeepClean(Set(hs, changes[0]), changes[1..]);
    }
  }

  lemma {:induction false} RemoveKeepsClean(hs: seq<Header>, name: string)
    requires CleanList(hs)
    ensures CleanList(Remove(hs, name))
  {
    hide CleanHeader, Same;
    if hs != [] {
      RemoveKeepsClean(hs[1..], name);
    }
  }

  lemma {:induction false} GetIsClean(hs: seq<Header>, name: string)
    requires CleanList(hs) && Get(hs, name).Some?
    ensures CleanValue(Get(hs, name).value)
  {
    hide Same, CleanValue;
    assert hs[0] in hs;
    if !Same(hs[0].name, name) {
      GetIsClean(hs[1..], name);
    }
  }

  /** A line of the change list holds no line feed, so it cannot hold a line break either. */
  lemma LineIsUnbroken(line: string)
    requires !Contains(line, "\n")
    ensures Unbroken(line)
  {
    forall i | 0 <= i <= |line| ensures !At(line, CRLF, i) {
      BreakAt(line, i);
      if i + 1 < |line| {
        assert line[i + 1..][0] == line[i + 1];
        assert !At(line, "\n", i + 1);
      }
    }
  }

  lemma {:induction false} LineChangesAreClean(lines: seq<string>)
    requires forall l | l in lines :: !Contains(l, "\n")
    ensures CleanList(LineChanges(lines))
  {
    hide Contains, Trim, ParseLine, CleanHeader;
    if lines != [] {
      TrimKeepsOut(lines[0], "\n");
      LineIsUnbroken(Trim(lines[0]));
      ParsedLineIsClean(Trim(lines[0]));
      LineChangesAreClean(lines[1..]);
    }
  }

  lemma ChangesAreClean(o: Options)
    ensures CleanList(Changes(o))
  {
    hide Contains, Split, LineChanges;
    PartsAreWhole(o.change, "\n");
    LineChangesAreClean(Split(o.change, "\n"));
  }

  /** Text without control characters, spaces or colons. */
  lemma PlainIsClean(name: string)
    requires forall c | c in name :: c > ' ' && c != ':'
    ensures CleanValue(name) && !Contains(name, ":")
  {
    assert name != "" ==> name[0] in name && name[|name| - 1] in name;
    forall i | 0 <= i <= |name| ensures !At(name, CRLF, i) {
      BreakAt(name, i);
      assert i < |name| ==> name[i] in name;
    }
    forall i | 0 <= i <= |name| ensures !At(name, ":", i) {
      assert i < |name| ==> name[i..][0] == name[i] && name[i] in name;
    }
  }

  lemma CleanName(name: string, value: string)
    requires name == HOST || name == FORWARDED || name == REAL_IP || name == CONNECTION
    ensures CleanHeader(Header(name, value)) <==> CleanValue(value)
  {
    hide CleanValue, Contains;
    PlainIsClean(name);
  }

  /** The host override reaches the output: no change line replaces it. */
  predicate OverrideSurvives(o: Options) {
    o.host.Some? && Trim(o.host.value) != "" && LastSet(Changes(o), HOST).None?
  }

  /** What the caller's settings must satisfy: checkable before anything is written. */
  predicate GoodOptions(hs: seq<Header>, o: Options) {
    && (OverrideSurvives(o) ==> Unbroken(Trim(o.host.value)))
    && (o.addOrigin ==> CleanValue(o.ip) && (o.ip == "" ==> Forwarded(Configured(hs, o), o.ip) == ""))
  }

  lemma CloseIsClean()
    ensures CleanHeader(CLOSE)
  {
    CleanName(CONNECTION, "close");
    PlainIsClean("close");
  }

  lemma TrimmedValue(s: string)
    ensures CleanValue(Trim(s)) <==> Unbroken(Trim(s))
  {
    hide Trim, Trimmed, Unbroken;
    TrimIsTrimmed(s);
  }

  lemma EmptyIsClean()
    ensures CleanValue("")
  {
    BreakAt("", 0);
  }

  lemma ConfiguredIsClean(hs: seq<Header>, o: Options)
    requires CleanList(hs) && (OverrideSurvives(o) ==> Unbroken(Trim(o.host.value)))
    ensures CleanList(Configured(hs, o))
  {
    hide CleanHeader, Trim, Unbroken, CleanList, Sets, Set, Changes, LastSet;
    ChangesAreClean(o);
    if HostChange(o.host) == [] {
      SetsNone(hs);
      SetsKeepClean(hs, Changes(o));
    } else {
      var v := Trim(o.host.value);
      var h := Header(HOST, if OverrideSurvives(o) then v else "");
      TrimmedValue(o.host.value);
      EmptyIsClean();
      CleanName(HOST, h.value);
      SetKeepsClean(hs, h);
      SetsKeepClean(Set(hs, h), Changes(o));
      SetsOne(hs, Header(HOST, v));
      if !OverrideSurvives(o) {
        OverrideIsReplaced(hs, v, o);
      }
    }
  }

  lemma OverrideIsReplaced(hs: seq<Header>, v: string, o: Options)
    requires LastSet(Changes(o), HOST).Some?
    ensures Sets(Set(hs, Header(HOST, v)), Changes(o)) == Sets(Set(hs, Header(HOST, "")), Changes(o))
  {
    hide Sets, Set, LastSet, Changes, Has, Lower;
    var bad, good := Header(HOST, v), Header(HOST, "");
    SetHas(hs, bad, HOST);
    SetIsAbsorbed(Set(hs, bad), good, Changes(o));
    SetOverwrites(hs, bad, good);
  }

  lemma JoinedIsClean(v: string, ip: string)
    requires CleanValue(v) && v != "" && CleanValue(ip) && ip != ""
    ensures CleanValue(v + ", " + ip)
  {
    var s, n := v + ", " + ip, |v|;
    forall i | 0 <= i <= |s| ensures !At(s, CRLF, i) {
      hide Unbroken, Trimmed, At;
      BreakAt(s, i);
      if i + 1 < n {
        NotBroken(v, i);
      } else if n + 2 <= i && i + 1 < |s| {
        NotBroken(ip, i - n - 2);
      }
    }
  }

  lemma ForwardedIsClean(hs: seq<Header>, ip: string)
    requires CleanList(hs) && CleanValue(ip)
    ensures CleanValue(Forwarded(hs, ip)) <==> (ip == "" ==> Forwarded(hs, ip) == "")
  {
    hide CleanList, Get;
    if Get(hs, FORWARDED).Some? && Get(hs, FORWARDED).value != "" {
      var v := Get(hs, FORWARDED).value;
      hide CleanValue;
      GetIsClean(hs, FORWARDED);
      if ip != "" {
        JoinedIsClean(v, ip);
      } else {
        TrailingSpace(v + ", " + ip);
      }
    }
  }

  lemma TrailingSpace(s: string)
    requires s != "" && s[|s| - 1] == ' '
    ensures !CleanValue(s)
  {
  }

  lemma OriginIsClean(hs: seq<Header>, ip: string)
    requires CleanList(hs) && CleanValue(ip) && (ip == "" ==> Forwarded(hs, ip) == "")
    ensures CleanList(WithOrigin(hs, ip))
  {
    hide CleanList, CleanHeader, CleanValue, Set, Forwarded;
    ForwardedIsClean(hs, ip);
    CleanName(FORWARDED, Forwarded(hs, ip));
    CleanName(REAL_IP, ip);
    SetKeepsClean(hs, Header(FORWARDED, Forwarded(hs, ip)));
    SetKeepsClean(Set(hs, Header(FORWARDED, Forwarded(hs, ip))), Header(REAL_IP, ip));
  }

  lemma GoodIsClean(hs: seq<Header>, o: Options)
    requires CleanList(hs) && GoodOptions(hs, o)
    ensures CleanList(Computed(hs, o))
  {
    hide CleanList, CleanHeader, CleanValue, Set, Remove, Configured, WithOrigin, Unbroken, OverrideSurvives, Forwarded;
    ConfiguredIsClean(hs, o);
    var hs1 := Configured(hs, o);
    if o.addOrigin {
      OriginIsClean(hs1, o.ip);
    }
    if o.forceClose {
      var hs2 := if o.addOrigin then WithOrigin(hs1, o.ip) else hs1;
      CloseIsClean();
      RemoveKeepsClean(hs2, PROXY_CONNECTION);
      SetKeepsClean(Remove(hs2, PROXY_CONNECTION), CLOSE);
    }
  }

  lemma CleanHostIsGood(hs: seq<Header>, o: Options)
    requires CleanList(Computed(hs, o)) && OverrideSurvives(o)
    ensures Unbroken(Trim(o.host.value))
  {
    hide CleanList, Computed, Unbroken, Trim, Get, LastSet, Changes, Forwarded, Lower, Configured;
    RewrittenLookup(hs, o, HOST);
    NamesDiffer(HOST);
    GetIsClean(Computed(hs, o), HOST);
  }

  lemma CleanOriginIsGood(hs: seq<Header>, o: Options)
    requires CleanList(Computed(hs, o)) && o.addOrigin
    ensures CleanValue(o.ip) && CleanValue(Forwarded(Configured(hs, o), o.ip))
  {
    hide CleanList, CleanValue, Computed, Unbroken, Trim, Get, LastSet, Changes, Forwarded, Lower, Configured, ConfiguredValue;
    RewrittenLookup(hs, o, REAL_IP);
    RewrittenLookup(hs, o, FORWARDED);
    NamesDiffer(REAL_IP);
    NamesDiffer(FORWARDED);
    GetIsClean(Computed(hs, o), REAL_IP);
    GetIsClean(Computed(hs, o), FORWARDED);
  }

  /**
   Reading the rewritten head back gives exactly the computed header list if and only if the settings
   are good: the host override, unless replaced, has no line break inside, and the peer address is a
   clean header value that does not leave a dangling comma.
   */
  lemma ReparsesIffGood(text: string, o: Options)
    ensures var h := Parse(text);
            Parse(Rewritten(text, o)) == Head(h.line, Computed(h.headers, o)) <==> GoodOptions(h.headers, o)
  {
    hide CleanList, Computed, Parse, Emit, OverrideSurvives, Forwarded, Configured, CleanValue, Unbroken, Trim;
    var h := Parse(text);
    ParsedIsClean(text);
    ReparsesIffClean(Head(h.line, Computed(h.headers, o)));
    if GoodOptions(h.headers, o) {
      GoodIsClean(h.headers, o);
    } else if CleanList(Computed(h.headers, o)) {
      CleanIsGood(h.headers, o);
    }
  }

  lemma DanglingComma(hs: seq<Header>)
    ensures CleanValue(Forwarded(hs, "")) ==> Forwarded(hs, "") == ""
  {
    hide Get, CleanValue;
    var v := Forwarded(hs, "");
    if v != "" {
      TrailingSpace(v);
    }
  }

  lemma CleanIsGood(hs: seq<Header>, o: Options)
    requires CleanList(Computed(hs, o))
    ensures GoodOptions(hs, o)
  {
    hide CleanList, CleanValue, Computed, Unbroken, Trim, OverrideSurvives, Forwarded, Configured;
    if OverrideSurvives(o) {
      CleanHostIsGood(hs, o);
    }
    if o.addOrigin {
      CleanOriginIsGood(hs, o);
      DanglingComma(Configured(hs, o));
    }
  }

  // ---------------------------------------------------------------- rewriting twice

  lemma {:induction false} SetsJoin(hs: seq<Header>, a: seq<Header>, b: seq<Header>)
    ensures Sets(Sets(hs, a), b) == Sets(hs, a + b)
    decreases |a|
  {
    hide Set;
    if a == [] {
      assert a + b == b;
    } else {
      SetsJoin(Set(hs, a[0]), a[1..], b);
      assert (a + b)[1..] == a[1..] + b;
    }
  }

  /** Without origin headers a forced rewrite is one removal followed by one list of changes. */
  lemma ComputedIsSets(hs: seq<Header>, o: Options)
    requires !o.addOrigin
    ensures var changes := HostChange(o.host) + Changes(o);
            Computed(hs, o) ==
            if o.forceClose then Sets(Remove(hs, PROXY_CONNECTION), Remove(changes, PROXY_CONNECTION) + [CLOSE])
            else Sets(hs, changes)
  {
    hide Sets, Set, Remove, HostChange, Changes;
    var changes := HostChange(o.host) + Changes(o);
    SetsJoin(hs, HostChange(o.host), Changes(o));
    RemoveOfSets(hs, changes, PROXY_CONNECTION);
    SetsAppend(Remove(hs, PROXY_CONNECTION), Remove(changes, PROXY_CONNECTION), CLOSE);
  }

  lemma KeepsOne(h: Header, name: string)
    requires !Same(h.name, name)
    ensures Remove([h], name) == [h]
  {
    hide Same;
    RemoveCons([h], name);
    assert [h][1..] == [];
  }

  /** The header list is a fixed point of the rewrite that produced it. */
  lemma ComputedIsIdempotent(hs: seq<Header>, o: Options)
    requires !o.addOrigin
    ensures Computed(Computed(hs, o), o) == Computed(hs, o)
  {
    hide Sets, Remove, Computed, HostChange, Changes, Same;
    var changes := HostChange(o.host) + Changes(o);
    ComputedIsSets(hs, o);
    ComputedIsSets(Computed(hs, o), o);
    if o.forceClose {
      var rest := Remove(changes, PROXY_CONNECTION);
      var all := rest + [CLOSE];
      var base := Remove(hs, PROXY_CONNECTION);
      RemoveTwice(changes, PROXY_CONNECTION);
      RemoveTwice(hs, PROXY_CONNECTION);
      NamesDiffer(PROXY_CONNECTION);
      NamesDiffer(CONNECTION);
      RemoveOfConcat(rest, [CLOSE], PROXY_CONNECTION);
      assert Remove([CLOSE], PROXY_CONNECTION) == [CLOSE] by { KeepsOne(CLOSE, PROXY_CONNECTION); }
      RemoveOfSets(base, all, PROXY_CONNECTION);
      SetsIsIdempotent(base, all);
    } else {
      SetsIsIdempotent(hs, changes);
    }
  }

  /** With good settings and no origin headers, rewriting a rewritten head changes nothing. */
  lemma RewriteIsIdempotent(text: string, o: Options)
    requires !o.addOrigin && GoodOptions(Parse(text).headers, o)
    ensures Rewritten(Rewritten(text, o), o) == Rewritten(text, o)
  {
    hide Computed, Parse, Emit, GoodOptions;
    ReparsesIffGood(text, o);
    ComputedIsIdempotent(Parse(text).headers, o);
  }

  // ---------------------------------------------------------------- where the values come from

  /**
   The forwarded-for value: the address behind what the last change line of that name sets, or else
   behind what the request carried, or alone if that is empty or absent.
   */
  lemma ForwardedFromRequest(hs: seq<Header>, o: Options)
    requires o.addOrigin
    ensures var prior := if LastSet(Changes(o), FORWARDED).Some? then LastSet(Changes(o), FORWARDED) else Get(hs, FORWARDED);
            Get(Computed(hs, o), FORWARDED)
            == Some(if prior.Some? && prior.value != "" then prior.value + ", " + o.ip else o.ip)
  {
    hide Get, Computed, Configured, LastSet, Changes, Trim, Lower;
    RewrittenLookup(hs, o, FORWARDED);
    ConfiguredLookup(hs, o, FORWARDED);
    NamesDiffer(FORWARDED);
  }

  lemma {:induction false} LineChangesConcat(a: seq<string>, b: seq<string>)
    ensures LineChanges(a + b) == LineChanges(a) + LineChanges(b)
  {
    hide ParseLine, Trim;
    if a == [] {
      assert a + b == b;
    } else {
      assert (a + b)[0] == a[0] && (a + b)[1..] == a[1..] + b;
      LineChangesConcat(a[1..], b);
    }
  }

  /** A change line sets the text before its first colon to the text behind it, both trimmed. */
  lemma LineWithColon(line: string, name: string, value: string)
    requires Trim(line) == name + ":" + value && !Contains(name, ":")
    ensures LineChanges([line]) == [Header(Trim(name), Trim(value))]
  {
    hide Trim, Contains, Find;
    var s, n := Trim(line), |name|;
    ColonIsFound(name, value);
    assert s[..n] == name && s[n + 1..] == value;
    assert [line][1..] == [];
  }

  /** A line without a colon, a blank one included, changes nothing. */
  lemma LineWithoutColon(line: string)
    requires !Contains(Trim(line), ":")
    ensures LineChanges([line]) == []
  {
    hide Trim, Contains, Find;
    NotFound(Trim(line), ":");
    assert [line][1..] == [];
  }

  lemma LinesOfText(line: string, rest: string)
    requires !Contains(line, "\n")
    ensures Split(line + "\n" + rest, "\n") == [line] + Split(rest, "\n")
  {
    hide Split;
    var s := line + "\n" + rest;
    forall i | 0 <= i < |line| ensures !At(s, "\n", i) {
      assert s[i..][0] == line[i..][0];
      assert !At(line, "\n", i);
    }
    hide At;
    SplitPart(line, "\n", rest);
  }

  /** The text that lists headers as change lines. */
  function ChangeText(hs: seq<Header>): string {
    if hs == [] then "" else HeaderLine(hs[0]) + "\n" + ChangeText(hs[1..])
  }

  lemma HeaderLineTrims(h: Header)
    requires CleanHeader(h)
    ensures Trim(HeaderLine(h)) == h.name + ":" + if h.value == "" then "" else " " + h.value
  {
    var s := HeaderLine(h);
    assert s[0] == if h.name == "" then ':' else h.name[0];
    TrimStartOf(s);
    if h.value == "" {
      assert s[|s| - 1] == ' ' && s[..|s| - 1] == h.name + ":";
      assert TrimEnd(h.name + ":") == h.name + ":";
    } else {
      assert s[|s| - 1] == h.value[|h.value| - 1];
      assert s == h.name + ":" + (" " + h.value);
    }
  }

  lemma HeaderLineChanges(h: Header)
    requires CleanHeader(h)
    ensures LineChanges([HeaderLine(h)]) == [h]
  {
    hide Trim, Contains, LineChanges;
    var tail := if h.value == "" then "" else " " + h.value;
    HeaderLineTrims(h);
    LineWithColon(HeaderLine(h), h.name, tail);
    SpaceTrims(h.name, h.value);
    TrimOf("");
  }

  lemma NoFeed(h: Header)
    requires !Contains(h.name, "\n") && !Contains(h.value, "\n")
    ensures !Contains(HeaderLine(h), "\n")
  {
    var s, n := HeaderLine(h), |h.name|;
    forall i | 0 <= i <= |s| ensures !At(s, "\n", i) {
      if i < n {
        assert s[i..][0] == h.name[i..][0] && !At(h.name, "\n", i);
      } else if n + 2 <= i < |s| {
        assert s[i..][0] == h.value[i - n - 2..][0] && !At(h.value, "\n", i - n - 2);
      } else if i < |s| {
        assert s[i..][0] == s[i];
      }
    }
  }

  /** Any list of clean headers written one per line is read back as exactly those changes, in order. */
  lemma {:induction false} ChangesReadBack(hs: seq<Header>, o: Options)
    requires CleanList(hs) && (forall h | h in hs :: !Contains(h.name, "\n") && !Contains(h.value, "\n"))
    requires o.change == ChangeText(hs)
    ensures Changes(o) == hs
    decreases |hs|
  {
    hide Trim, Contains, CleanHeader, Split, LineChanges, HeaderLine;
    if hs == [] {
      NoChangeText();
    } else {
      var h, rest := hs[0], ChangeText(hs[1..]);
      assert h in hs;
      NoFeed(h);
      LinesOfText(HeaderLine(h), rest);
      ChangesReadBack(hs[1..], o.(change := rest));
      LineChangesConcat([HeaderLine(h)], Split(rest, "\n"));
      HeaderLineChanges(h);
      assert hs == [h] + hs[1..];
    }
  }

  lemma NoChangeText()
    ensures LineChanges(Split("", "\n")) == []
  {
    assert !Contains("", "\n");
    SplitNone("", "\n");
    TrimOf("");
    assert !Contains("", ":");
    LineWithoutColon("");
  }
}
