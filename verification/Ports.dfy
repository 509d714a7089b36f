/** Port lists, the ports tunnels expand to, and the check each start makes against the allow list. */
module Ports {
  import opened Wrappers
  import opened Text

  const MAX_PORT: nat := 65535

  predicate IsDigit(c: char) { '0' <= c <= '9' }

  function ParseDigits(s: string, acc: nat): Option<nat> {
    if s == "" then Some(acc)
    else if !IsDigit(s[0]) then None
    else
      var next := acc * 10 + (s[0] as int - '0' as int);
      if next > MAX_PORT then None else ParseDigits(s[1..], next)
  }

  /** Parsing an unsigned 16-bit number: an optional plus sign and at least one digit. */
  function ParsePort(s: string): Option<nat> {
    var digits := if s != "" && s[0] == '+' then s[1..] else s;
    if digits == "" then None else ParseDigits(digits, 0)
  }

  function Range(lo: nat, hi: nat): seq<nat>
    decreases hi - lo
  {
    if lo > hi then [] else [lo] + Range(lo + 1, hi)
  }

  /** The ports one entry of a list stands for; a malformed entry stands for none. */
  function EntryPorts(part: string): seq<nat> {
    match SplitOnce(part, '-')
    case Some((a, b)) =>
      (match (ParsePort(Trim(a)), ParsePort(Trim(b)))
       case (Some(start), Some(end)) => if start <= end then Range(start, end) else Range(end, start)
       case _ => [])
    case None =>
      match ParsePort(part)
      case Some(port) => [port]
      case None => []
  }

  function PartsPorts(parts: seq<string>): seq<nat> {
    if parts == [] then []
    else
      var part := Trim(parts[|parts| - 1]);
      PartsPorts(parts[..|parts| - 1]) + if part == "" then [] else EntryPorts(part)
  }

  function PortsOf(s: string): seq<nat> { PartsPorts(Split(s, ",")) }

  /** expand_ports */
  method ExpandPorts(s: string) returns (out: seq<nat>)
    ensures out == PortsOf(s)
  {
    var parts := Split(s, ",");
    out := [];
    for i := 0 to |parts|
      invariant out == PartsPorts(parts[..i])
    {
      hide Trim, ParsePort, SplitOnce;
      assert parts[..i + 1][..i] == parts[..i];
      var part := Trim(parts[i]);
      ghost var before := out;
      if part != "" {
        match SplitOnce(part, '-') {
          case Some((a, b)) =>
            match (ParsePort(Trim(a)), ParsePort(Trim(b))) {
              case (Some(start), Some(end)) =>
                var lo, hi := if start <= end then start else end, if start <= end then end else start;
                out := Extend(out, lo, hi);
              case _ =>
            }
          case None =>
            match ParsePort(part) {
              case Some(port) => out := out + [port];
              case None =>
            }
        }
        assert out == before + EntryPorts(part);
      }
    }
    assert parts[..|parts|] == parts;
  }

  method Extend(out: seq<nat>, lo: nat, hi: nat) returns (r: seq<nat>)
    ensures r == out + Range(lo, hi)
  {
    r := out;
    var p := lo;
    while p <= hi
      invariant lo <= p && r + Range(p, hi) == out + Range(lo, hi)
    {
      assert r + ([p] + Range(p + 1, hi)) == (r + [p]) + Range(p + 1, hi);
      r := r + [p];
      p := p + 1;
    }
    assert r + [] == r;
  }

  // ---------------------------------------------------------------- the allow list

  predicate EntryAllows(item: string, port: nat) {
    match SplitOnce(item, '-')
    case Some((start, end)) =>
      (match ParsePort(Trim(start))
       case None => false
       case Some(start) =>
         match ParsePort(Trim(end))
         case None => false
         case Some(end) =>
           var (lo, hi) := if start <= end then (start, end) else (end, start);
           lo <= port <= hi)
    case None => ParsePort(item) == Some(port)
  }

  /** port_allowed */
  predicate PortAllowed(allow: string, port: nat) {
    exists part | part in Split(allow, ",") :: Trim(part) != "" && EntryAllows(Trim(part), port)
  }

  lemma {:induction false} RangeMembers(lo: nat, hi: nat, p: nat)
    ensures p in Range(lo, hi) <==> lo <= p <= hi
    decreases hi - lo
  {
    if lo <= hi {
      RangeMembers(lo + 1, hi, p);
    }
  }

  lemma EntryAgrees(part: string, port: nat)
    ensures EntryAllows(part, port) <==> port in EntryPorts(part)
  {
    hide Trim, ParsePort, Range;
    match SplitOnce(part, '-') {
      case Some((a, b)) =>
        match (ParsePort(Trim(a)), ParsePort(Trim(b))) {
          case (Some(start), Some(end)) =>
            RangeMembers(start, end, port);
            RangeMembers(end, start, port);
          case _ =>
        }
      case None =>
    }
  }

  lemma {:induction false} PartsAgree(parts: seq<string>, port: nat)
    ensures port in PartsPorts(parts)
       <==> exists part | part in parts :: Trim(part) != "" && EntryAllows(Trim(part), port)
  {
    hide Trim, EntryAllows, EntryPorts;
    if parts != [] {
      var init, last := parts[..|parts| - 1], parts[|parts| - 1];
      assert parts == init + [last];
      PartsAgree(init, port);
      EntryAgrees(Trim(last), port);
      assert last in parts;
    }
  }

  /** A port is allowed if and only if the expanded list contains it. */
  lemma AllowedIffListed(allow: string, port: nat)
    ensures PortAllowed(allow, port) <==> port in PortsOf(allow)
  {
    hide PartsPorts, EntryAllows, Split, Trim;
    PartsAgree(Split(allow, ","), port);
  }

  // ---------------------------------------------------------------- written ports

  lemma {:induction false} ParseAppend(s: string, acc: nat, c: char)
    requires IsDigit(c)
    ensures ParseDigits(s + [c], acc) ==
            match ParseDigits(s, acc)
            case None => None
            case Some(v) => ParseDigits([c], v)
  {
    if s == "" {
      assert s + [c] == [c];
    } else {
      assert (s + [c])[1..] == s[1..] + [c];
      if IsDigit(s[0]) {
        var next := acc * 10 + (s[0] as int - '0' as int);
        if next <= MAX_PORT {
          ParseAppend(s[1..], next, c);
        }
      }
    }
  }

  lemma ParseOne(c: char, v: nat)
    requires IsDigit(c)
    ensures var n := v * 10 + (c as int - '0' as int); ParseDigits([c], v) == if n > MAX_PORT then None else Some(n)
  {
    assert [c][1..] == "";
  }

  lemma {:induction false} DigitsOfDecimal(n: nat)
    ensures forall c | c in Decimal(n) :: IsDigit(c)
    ensures ParseDigits(Decimal(n), 0) == if n <= MAX_PORT then Some(n) else None
  {
    if n < 10 {
      ParseOne(Decimal(n)[0], 0);
    } else {
      var c := ('0' as int + n % 10) as char;
      DigitsOfDecimal(n / 10);
      ParseAppend(Decimal(n / 10), 0, c);
      if n / 10 <= MAX_PORT {
        ParseOne(c, n / 10);
      }
    }
  }

  /** Decimal notation reads back as the same number, for exactly the numbers that are ports. */
  lemma DecimalParses(n: nat)
    ensures ParsePort(Decimal(n)) == if n <= MAX_PORT then Some(n) else None
  {
    hide Decimal, ParseDigits;
    DigitsOfDecimal(n);
    assert Decimal(n)[0] in Decimal(n);
  }

  /** The number a string of digits stands for, read from its end. */
  function Value(s: string): int {
    if s == "" then 0 else 10 * Value(s[..|s| - 1]) + (s[|s| - 1] as int - '0' as int)
  }

  predicate AllDigits(s: string) { forall i | 0 <= i < |s| :: IsDigit(s[i]) }

  lemma {:induction false} DigitsMean(s: string)
    requires AllDigits(s)
    ensures Value(s) >= 0 && ParseDigits(s, 0) == if Value(s) <= MAX_PORT then Some(Value(s)) else None
  {
    if s != "" {
      var init, c := s[..|s| - 1], s[|s| - 1];
      DigitsMean(init);
      assert s == init + [c];
      ParseAppend(init, 0, c);
      if Value(init) <= MAX_PORT {
        ParseOne(c, Value(init));
      }
    }
  }

  lemma {:induction false} OtherwiseNone(s: string, acc: nat)
    requires !AllDigits(s)
    ensures ParseDigits(s, acc) == None
    decreases |s|
  {
    if IsDigit(s[0]) {
      var i :| 0 <= i < |s| && !IsDigit(s[i]);
      assert s[1..][i - 1] == s[i];
      var next := acc * 10 + (s[0] as int - '0' as int);
      if next <= MAX_PORT {
        OtherwiseNone(s[1..], next);
      }
    }
  }

  /** A port is one or more digits, behind at most one plus sign, whose number is at most 65535; nothing else is. */
  lemma ParsePortIff(s: string, n: nat)
    ensures var d := if s != "" && s[0] == '+' then s[1..] else s;
            ParsePort(s) == Some(n) <==> d != "" && AllDigits(d) && Value(d) == n && n <= 65535
  {
    hide ParseDigits, Value;
    var d := if s != "" && s[0] == '+' then s[1..] else s;
    if AllDigits(d) {
      DigitsMean(d);
    } else {
      OtherwiseNone(d, 0);
    }
  }

  lemma NoneOf(s: string, c: char)
    requires c !in s
    ensures !Contains(s, [c])
  {
    forall i | 0 <= i <= |s| ensures !At(s, [c], i) {
      assert i < |s| ==> s[i..][0] == s[i] && s[i] in s;
    }
  }

  lemma PartsOne(s: string)
    requires Trim(s) == s && s != ""
    ensures PartsPorts([s]) == EntryPorts(s)
  {
    hide Trim, EntryPorts;
    assert [s][..0] == [];
    assert PartsPorts([]) == [];
  }

  /** The list written for a chosen or given port names exactly that port. */
  lemma WrittenPortIsListed(port: nat)
    requires port <= MAX_PORT
    ensures PortsOf(Decimal(port)) == [port]
  {
    hide Decimal, ParsePort, Split, Contains, Find;
    var s := Decimal(port);
    DigitsOfDecimal(port);
    DecimalParses(port);
    NoneOf(s, ',');
    NoneOf(s, '-');
    SplitNone(s, ",");
    NotFound(s, "-");
    assert s[0] in s && s[|s| - 1] in s;
    TrimOf(s);
    hide Trim;
    assert EntryPorts(s) == [port];
    PartsOne(s);
  }

  lemma {:induction false} PartsPortsConcat(a: seq<string>, b: seq<string>)
    ensures PartsPorts(a + b) == PartsPorts(a) + PartsPorts(b)
    decreases |b|
  {
    hide Trim, EntryPorts;
    if b == [] {
      assert a + b == a;
    } else {
      PartsPortsConcat(a, b[..|b| - 1]);
      assert (a + b)[..|a + b| - 1] == a + b[..|b| - 1];
      var part := Trim(b[|b| - 1]);
      var ports := if part == "" then [] else EntryPorts(part);
      calc {
        PartsPorts(a + b);
        (PartsPorts(a) + PartsPorts(b[..|b| - 1])) + ports;
        PartsPorts(a) + (PartsPorts(b[..|b| - 1]) + ports);
        PartsPorts(a) + PartsPorts(b);
      }
    }
  }

  /** A list made of two lists names the ports of the first and then those of the second. */
  lemma ListsJoin(a: string, b: string)
    ensures PortsOf(a + "," + b) == PortsOf(a) + PortsOf(b)
  {
    hide Split, PartsPorts;
    SplitJoined(a, ',', b);
    PartsPortsConcat(Split(a, ","), Split(b, ","));
  }

  lemma {:induction false} RangeIs(lo: nat, hi: nat, i: nat)
    requires lo + i <= hi
    ensures |Range(lo, hi)| == hi - lo + 1 && Range(lo, hi)[i] == lo + i
    decreases hi - lo
  {
    if i > 0 {
      RangeIs(lo + 1, hi, i - 1);
    } else if lo < hi {
      RangeIs(lo + 1, hi, 0);
    }
  }

  /** Two ports joined by a dash stand for all from the smaller to the greater, whichever comes first. */
  lemma RangeIsListed(a: nat, b: nat, i: nat)
    requires a <= MAX_PORT && b <= MAX_PORT
    ensures var lo, hi := if a <= b then a else b, if a <= b then b else a;
            var ports := PortsOf(Decimal(a) + "-" + Decimal(b));
            |ports| == hi - lo + 1 && (i < |ports| ==> ports[i] == lo + i)
  {
    hide Decimal, ParsePort, Split, Contains, Find, Range, Trim;
    var x, y := Decimal(a), Decimal(b);
    var s := x + "-" + y;
    DigitsOfDecimal(a);
    DigitsOfDecimal(b);
    DecimalParses(a);
    DecimalParses(b);
    NoneOf(s, ',');
    SplitNone(s, ",");
    NoneOf(x, '-');
    FirstDash(x, y);
    assert s[..|x|] == x && s[|x| + 1..] == y;
    TrimmedDigits(x);
    TrimmedDigits(y);
    EndsTrim(s, x, y);
    PartsOne(s);
    var lo, hi := if a <= b then a else b, if a <= b then b else a;
    assert EntryPorts(s) == Range(lo, hi);
    RangeIs(lo, hi, 0);
    if i <= hi - lo {
      RangeIs(lo, hi, i);
    }
  }

  lemma FirstDash(x: string, y: string)
    requires !Contains(x, "-")
    ensures Find(x + "-" + y, "-") == Some(|x|)
  {
    hide Find;
    var s, n := x + "-" + y, |x|;
    assert s[n..][0] == '-';
    assert At(s, "-", n);
    assert Contains(s, "-");
    forall i | 0 <= i < n ensures !At(s, "-", i) {
      assert x[i..][0] == s[i..][0];
      assert !At(x, "-", i);
    }
  }

  lemma TrimmedDigits(s: string)
    requires s != "" && forall c | c in s :: IsDigit(c)
    ensures Trim(s) == s
  {
    hide Trim;
    assert s[0] in s && s[|s| - 1] in s;
    TrimOf(s);
  }

  lemma EndsTrim(s: string, x: string, y: string)
    requires s == x + "-" + y && x != "" && y != "" && (forall c | c in x :: IsDigit(c)) && (forall c | c in y :: IsDigit(c))
    ensures Trim(s) == s && s != ""
  {
    hide Trim;
    assert x[0] in x && y[|y| - 1] in y && s[0] == x[0] && s[|s| - 1] == y[|y| - 1];
    TrimOf(s);
  }

  // ---------------------------------------------------------------- tunnels

  /** What the program looks at in a tunnel besides its id and owner; `rest` is everything else. */
  datatype Tunnel = Tunnel(
    mode: string, ports: string, serverIp: string, serverPort: nat, status: bool, remark: string,
    targetAddr: string, target: string, rest: string)

  function CommasToBreaks(s: string): string {
    if s == "" then "" else [if s[0] == ',' then '\n' else s[0]] + CommasToBreaks(s[1..])
  }

  function TargetOf(base: string, item: string): string {
    if ':' in item then item else if base != "" then base + ":" + item else "127.0.0.1:" + item
  }

  function PartsTargets(base: string, parts: seq<string>): seq<string> {
    if parts == [] then []
    else
      var item := Trim(parts[0]);
      (if item == "" then [] else [TargetOf(base, item)]) + PartsTargets(base, parts[1..])
  }

  /** expand_targets */
  function TargetsOf(t: Tunnel): seq<string> { PartsTargets(t.targetAddr, Split(CommasToBreaks(t.target), "\n")) }

  predicate IsSecret(mode: string) { mode == "secret" || mode == "p2p" }

  /** The copy of a tunnel for the `i`-th of its ports. */
  function CopyFor(t: Tunnel, ports: seq<nat>, targets: seq<string>, i: nat): Tunnel
    requires i < |ports|
  {
    var copy := t.(serverPort := ports[i]);
    if |ports| <= 1 then copy
    else copy.(remark := t.remark + "_" + Decimal(ports[i]), target := if i < |targets| then targets[i] else t.target)
  }

  function CopiesOf(t: Tunnel, ports: seq<nat>, targets: seq<string>, n: nat): seq<Tunnel>
    requires n <= |ports|
  {
    if n == 0 then [] else CopiesOf(t, ports, targets, n - 1) + [CopyFor(t, ports, targets, n - 1)]
  }

  /** One tunnel's share of expand_runtime_tunnels. */
  function Expansion(t: Tunnel): seq<Tunnel> {
    if IsSecret(Lower(t.mode)) || PortsOf(t.ports) == [] then [t]
    else CopiesOf(t, PortsOf(t.ports), TargetsOf(t), |PortsOf(t.ports)|)
  }

  /** validate_tunnel_ports */
  predicate PassesCheck(allow: string, t: Tunnel) {
    IsSecret(Lower(Trim(t.mode))) || Trim(allow) == ""
    || (var ports := PortsOf(t.ports);
        forall p | p in (if ports == [] && t.serverPort > 0 then [t.serverPort] else ports) :: PortAllowed(allow, p))
  }

  lemma {:induction false} CopiesShare(t: Tunnel, ports: seq<nat>, targets: seq<string>, n: nat, c: Tunnel)
    requires n <= |ports| && c in CopiesOf(t, ports, targets, n)
    ensures c.ports == t.ports && c.mode == t.mode && c.serverPort in ports
  {
    hide Decimal;
    if c in CopiesOf(t, ports, targets, n - 1) {
      CopiesShare(t, ports, targets, n - 1, c);
    } else {
      assert c == CopyFor(t, ports, targets, n - 1);
    }
  }

  /** Every expanded tunnel's port is one its own list names, unless the list names none. */
  lemma ExpansionListsPort(t: Tunnel, c: Tunnel)
    requires c in Expansion(t)
    ensures c.mode == t.mode && c.ports == t.ports
    ensures IsSecret(Lower(c.mode)) || PortsOf(c.ports) == [] || c.serverPort in PortsOf(c.ports)
  {
    hide PortsOf, Lower, CopiesOf, TargetsOf;
    if !IsSecret(Lower(t.mode)) && PortsOf(t.ports) != [] {
      CopiesShare(t, PortsOf(t.ports), TargetsOf(t), |PortsOf(t.ports)|, c);
    }
  }

  lemma {:induction false} CopiesInOrder(t: Tunnel, ports: seq<nat>, targets: seq<string>, n: nat, i: nat)
    requires i < n <= |ports|
    ensures |CopiesOf(t, ports, targets, n)| == n && CopiesOf(t, ports, targets, n)[i].serverPort == ports[i]
  {
    hide Decimal;
    if i < n - 1 {
      CopiesInOrder(t, ports, targets, n - 1, i);
    } else if n > 1 {
      CopiesInOrder(t, ports, targets, n - 1, 0);
    }
  }

  /** Unless it is secret, a tunnel that names ports expands to one copy per port, in the order of its list. */
  lemma ExpansionFollowsList(t: Tunnel, i: nat)
    requires !IsSecret(Lower(t.mode)) && i < |PortsOf(t.ports)|
    ensures |Expansion(t)| == |PortsOf(t.ports)| && Expansion(t)[i].serverPort == PortsOf(t.ports)[i]
  {
    hide PortsOf, Lower, CopiesOf, TargetsOf;
    CopiesInOrder(t, PortsOf(t.ports), TargetsOf(t), |PortsOf(t.ports)|, i);
  }

  lemma {:induction false} CopiesAt(t: Tunnel, ports: seq<nat>, targets: seq<string>, n: nat, i: nat)
    requires i < n <= |ports|
    ensures |CopiesOf(t, ports, targets, n)| == n && CopiesOf(t, ports, targets, n)[i] == CopyFor(t, ports, targets, i)
  {
    hide CopyFor;
    if i < n - 1 {
      CopiesAt(t, ports, targets, n - 1, i);
    } else if n > 1 {
      CopiesAt(t, ports, targets, n - 1, 0);
    }
  }

  /**
   The i-th copy of a tunnel with several ports listens on the i-th, says so in its remark and goes to
   the i-th listed target, or to the tunnel's own text if fewer are listed; a single port changes
   nothing but the port. All else is the tunnel's.
   */
  lemma CopyGoesTo(t: Tunnel, i: nat)
    requires !IsSecret(Lower(t.mode)) && i < |PortsOf(t.ports)|
    ensures var ports, targets := PortsOf(t.ports), TargetsOf(t);
            |Expansion(t)| == |ports|
            && Expansion(t)[i] == t.(
                 serverPort := ports[i],
                 remark := if |ports| == 1 then t.remark else t.remark + "_" + Decimal(ports[i]),
                 target := if |ports| == 1 || i >= |targets| then t.target else targets[i])
  {
    hide PortsOf, Lower, CopiesOf, TargetsOf, Decimal;
    CopiesAt(t, PortsOf(t.ports), TargetsOf(t), |PortsOf(t.ports)|, i);
  }

  /** Target entries, each followed by a comma or a line break. */
  function TargetText(entries: seq<string>, seps: seq<char>): string
    requires |seps| == |entries|
  {
    if entries == [] then "" else entries[0] + [seps[0]] + TargetText(entries[1..], seps[1..])
  }

  predicate IsEntry(s: string) { ',' !in s && '\n' !in s }

  lemma {:induction false} BreaksConcat(a: string, b: string)
    ensures CommasToBreaks(a + b) == CommasToBreaks(a) + CommasToBreaks(b)
  {
    if a == "" {
      assert a + b == b;
    } else {
      assert (a + b)[0] == a[0] && (a + b)[1..] == a[1..] + b;
      BreaksConcat(a[1..], b);
    }
  }

  lemma {:induction false} NoCommas(s: string)
    requires ',' !in s
    ensures CommasToBreaks(s) == s
  {
    if s != "" {
      assert s[0] in s && s == [s[0]] + s[1..];
      NoCommas(s[1..]);
    }
  }

  lemma EntryIsPart(e: string, sep: char, rest: string)
    requires IsEntry(e) && (sep == ',' || sep == '\n')
    ensures Split(CommasToBreaks(e + [sep] + rest), "\n") == [e] + Split(CommasToBreaks(rest), "\n")
  {
    hide Split, CommasToBreaks;
    BreaksConcat(e + [sep], rest);
    BreaksConcat(e, [sep]);
    NoCommas(e);
    assert CommasToBreaks([sep]) == "\n" by { OneBreak(sep); }
    var tail := CommasToBreaks(rest);
    var s := e + "\n" + tail;
    forall i | 0 <= i < |e| ensures !At(s, "\n", i) {
      assert s[i..][0] == e[i] && e[i] in e;
    }
    hide At;
    SplitPart(e, "\n", tail);
  }

  lemma OneBreak(sep: char)
    requires sep == ',' || sep == '\n'
    ensures CommasToBreaks([sep]) == "\n"
  {
    assert [sep][1..] == "";
  }

  lemma {:induction false} PartsOfTargets(base: string, entries: seq<string>, seps: seq<char>)
    requires |seps| == |entries| && (forall e | e in entries :: IsEntry(e)) && (forall c | c in seps :: c == ',' || c == '\n')
    ensures PartsTargets(base, Split(CommasToBreaks(TargetText(entries, seps)), "\n")) == PartsTargets(base, entries)
    decreases |entries|
  {
    hide Split, CommasToBreaks, Trim, TargetOf, IsEntry;
    if entries == [] {
      NoTargets(base);
    } else {
      var rest := TargetText(entries[1..], seps[1..]);
      assert entries[0] in entries && seps[0] in seps;
      forall e | e in entries[1..] ensures IsEntry(e) { assert e in entries; }
      forall c | c in seps[1..] ensures c == ',' || c == '\n' { assert c in seps; }
      EntryIsPart(entries[0], seps[0], rest);
      PartsOfTargets(base, entries[1..], seps[1..]);
      assert ([entries[0]] + Split(CommasToBreaks(rest), "\n"))[1..] == Split(CommasToBreaks(rest), "\n");
    }
  }

  lemma NoTargets(base: string)
    ensures PartsTargets(base, Split(CommasToBreaks(""), "\n")) == PartsTargets(base, [])
  {
    assert !Contains("", "\n");
    SplitNone("", "\n");
    TrimOf("");
    assert [""][1..] == [];
  }

  lemma {:induction false} TargetAt(base: string, entries: seq<string>, i: nat)
    requires i < |entries| && forall e | e in entries :: Trim(e) != ""
    ensures |PartsTargets(base, entries)| == |entries| && PartsTargets(base, entries)[i] == TargetOf(base, Trim(entries[i]))
  {
    hide Trim, TargetOf;
    assert entries[0] in entries;
    if i > 0 {
      TargetAt(base, entries[1..], i - 1);
    } else if |entries| > 1 {
      TargetAt(base, entries[1..], 0);
    }
  }

  /**
   Target entries separated by commas or line breaks stand for one target each, in order: as written
   if they name a port after a colon, else as a port of the tunnel's target address, else of 127.0.0.1.
   */
  lemma TargetsAreEntries(t: Tunnel, entries: seq<string>, seps: seq<char>, i: nat)
    requires |seps| == |entries| && i < |entries| && t.target == TargetText(entries, seps)
    requires forall e | e in entries :: IsEntry(e) && Trim(e) != ""
    requires forall c | c in seps :: c == ',' || c == '\n'
    ensures var e := Trim(entries[i]);
            && |TargetsOf(t)| == |entries|
            && TargetsOf(t)[i] == if ':' in e then e else (if t.targetAddr != "" then t.targetAddr else "127.0.0.1") + ":" + e
  {
    hide Split, CommasToBreaks, Trim, PartsTargets, IsEntry;
    PartsOfTargets(t.targetAddr, entries, seps);
    TargetAt(t.targetAddr, entries, i);
  }

  /** A secret or p2p tunnel is neither expanded nor checked, whatever ports it names. */
  lemma SecretStaysWhole(allow: string, t: Tunnel)
    requires Lower(t.mode) == "secret" || Lower(t.mode) == "p2p"
    ensures Expansion(t) == [t] && PassesCheck(allow, t)
  {
    hide Lower, Trim, PortsOf;
    TrimmedMode(t.mode);
  }

  /** An empty allow list refuses nothing. */
  lemma EmptyListRefusesNothing(allow: string, t: Tunnel)
    requires Trim(allow) == ""
    ensures PassesCheck(allow, t)
  {
  }

  /** A non-empty one passes a tunnel that is not secret exactly when it lists every port the tunnel names, or its own if none. */
  lemma CheckMeans(allow: string, t: Tunnel)
    requires Trim(allow) != "" && !IsSecret(Lower(Trim(t.mode)))
    ensures PassesCheck(allow, t)
       <==> && (forall p | p in PortsOf(t.ports) :: p in PortsOf(allow))
            && (PortsOf(t.ports) == [] && t.serverPort > 0 ==> t.serverPort in PortsOf(allow))
  {
    hide PortsOf, PortAllowed, Lower, Trim;
    forall p ensures PortAllowed(allow, p) <==> p in PortsOf(allow) { AllowedIffListed(allow, p); }
  }

  lemma {:induction false} LowerAt(s: string, i: nat)
    requires i < |s|
    ensures Lower(s)[i] == LowerChar(s[i])
  {
    if i > 0 {
      LowerAt(s[1..], i - 1);
    }
  }

  /** A mode that is recognised when starting carries no white space, so the check saw the same mode. */
  lemma TrimmedMode(mode: string)
    requires Trimmed(Lower(mode))
    ensures Trim(mode) == mode
  {
    hide Lower, Trim;
    if mode != "" {
      LowerAt(mode, 0);
      LowerAt(mode, |mode| - 1);
    }
    TrimOf(mode);
  }

  /** The modes that open a listener. */
  predicate Listens(mode: string) {
    mode == "tcp" || mode == "tcptrans" || mode == "file" || mode == "httpproxy" || mode == "socks5" || mode == "udp"
  }

  /** expand_runtime_tunnels */
  function Expanded(ts: seq<Tunnel>): seq<Tunnel> {
    if ts == [] then [] else Expanded(ts[..|ts| - 1]) + Expansion(ts[|ts| - 1])
  }

  method ExpandTunnels(ts: seq<Tunnel>) returns (out: seq<Tunnel>)
    ensures out == Expanded(ts)
  {
    out := [];
    for i := 0 to |ts|
      invariant out == Expanded(ts[..i])
    {
      hide Lower, PortsOf, TargetsOf, CopiesOf;
      assert ts[..i + 1][..i] == ts[..i];
      var t := ts[i];
      if IsSecret(Lower(t.mode)) {
        out := out + [t];
        continue;
      }
      var ports := ExpandPorts(t.ports);
      var targets := TargetsOf(t);
      if ports == [] {
        out := out + [t];
        continue;
      }
      var copies := CopyAll(t, ports, targets);
      out := out + copies;
    }
    assert ts[..|ts|] == ts;
  }

  method CopyAll(t: Tunnel, ports: seq<nat>, targets: seq<string>) returns (copies: seq<Tunnel>)
    ensures copies == CopiesOf(t, ports, targets, |ports|)
  {
    hide CopyFor;
    copies := [];
    for j := 0 to |ports|
      invariant copies == CopiesOf(t, ports, targets, j)
    {
      copies := copies + [CopyFor(t, ports, targets, j)];
    }
  }

  lemma {:induction false} ExpandedFrom(ts: seq<Tunnel>, c: Tunnel)
    requires c in Expanded(ts)
    ensures exists t | t in ts :: c in Expansion(t)
  {
    hide Expansion;
    var last := ts[|ts| - 1];
    if c !in Expansion(last) {
      ExpandedFrom(ts[..|ts| - 1], c);
    }
  }

  lemma SecretIsTrimmed(mode: string)
    requires IsSecret(Lower(mode))
    ensures Trim(mode) == mode
  {
    hide Lower, Trim;
    TrimmedMode(mode);
  }

  /**
   With an allow list, an expanded tunnel of any mode that is not secret when trimmed has an allowed
   port if it passes the check.
   */
  lemma ListeningPortIsAllowed(allow: string, ts: seq<Tunnel>, c: Tunnel)
    requires c in Expanded(ts) && PassesCheck(allow, c)
    requires Trim(allow) != "" && c.serverPort != 0 && !IsSecret(Lower(Trim(c.mode)))
    ensures PortAllowed(allow, c.serverPort) && c.serverPort in PortsOf(allow)
  {
    hide PortsOf, Lower, Trim, PortAllowed, Expansion, Expanded, IsSecret;
    ExpandedFrom(ts, c);
    var t :| t in ts && c in Expansion(t);
    ExpansionListsPort(t, c);
    if IsSecret(Lower(c.mode)) {
      SecretIsTrimmed(c.mode);
    }
    AllowedIffListed(allow, c.serverPort);
  }

  /** The check lets a port outside the allow list through exactly for modes that are secret when trimmed. */
  lemma EscapesCheckIffSecret(allow: string, ts: seq<Tunnel>, c: Tunnel)
    requires c in Expanded(ts) && Trim(allow) != "" && c.serverPort != 0 && !PortAllowed(allow, c.serverPort)
    ensures PassesCheck(allow, c) <==> IsSecret(Lower(Trim(c.mode)))
  {
    hide PortsOf, Lower, Trim, PortAllowed, Expanded, IsSecret;
    if PassesCheck(allow, c) && !IsSecret(Lower(Trim(c.mode))) {
      ListeningPortIsAllowed(allow, ts, c);
    }
  }

  lemma {:induction false} AlreadyLower(s: string)
    requires forall i | 0 <= i < |s| :: !('A' <= s[i] <= 'Z')
    ensures Lower(s) == s
  {
    if s != "" {
      assert s == [s[0]] + s[1..];
      AlreadyLower(s[1..]);
    }
  }

  lemma PaddedSecret()
    ensures Trim("secret ") == "secret" && Lower("secret") == "secret" && !IsSecret(Lower("secret "))
  {
    AlreadyLower("secret");
    assert "secret "[..6] == "secret";
    assert TrimStart("secret ") == "secret ";
    assert TrimEnd("secret ") == TrimEnd("secret");
  }
}

/** Tunnel listeners: threads that claim a key in the shared set and give it back when they end. */
module Listeners {
  import opened Text
  import opened Ports

  type Call = nat

  /** A start that has claimed its key; `spawned` once its thread exists. */
  datatype Claim = Claim(tunnel: Tunnel, spawned: bool)

  datatype State = State(listeners: set<string>, claims: map<Call, Claim>)

  datatype Action =
    | Start(call: Call, tunnel: Tunnel)    // start_tunnel_task up to the claim
    | Spawn(call: Call)                    // its thread begins
    | Exit(call: Call)                     // its thread ends, for whatever reason

  const START := State({}, map[])

  function Key(t: Tunnel): string { Lower(t.mode) + ":" + t.serverIp + ":" + Decimal(t.serverPort) }

  /** A tunnel that reaches the claim: active, allowed, not secret and with a port. */
  predicate Startable(allow: string, t: Tunnel) {
    t.status && PassesCheck(allow, t) && !IsSecret(Lower(t.mode)) && t.serverPort != 0
  }

  function Step(allow: string, s: State, a: Action): State {
    match a
    case Start(call, t) =>
      if call in s.claims || !Startable(allow, t) || Key(t) in s.listeners then s
      else State(s.listeners + {Key(t)}, s.claims[call := Claim(t, false)])
    case Spawn(call) =>
      if call !in s.claims then s else s.(claims := s.claims[call := s.claims[call].(spawned := true)])
    case Exit(call) =>
      if call !in s.claims || !s.claims[call].spawned then s
      else State(s.listeners - {Key(s.claims[call].tunnel)}, s.claims - {call})
  }

  function Run(allow: string, actions: seq<Action>): State {
    if actions == [] then START else Step(allow, Run(allow, actions[..|actions| - 1]), actions[|actions| - 1])
  }

  ghost predicate Inv(allow: string, s: State) {
    && (forall k :: k in s.listeners <==> exists c | c in s.claims :: Key(s.claims[c].tunnel) == k)
    && (forall c, d | c in s.claims && d in s.claims && c != d :: Key(s.claims[c].tunnel) != Key(s.claims[d].tunnel))
    && (forall c | c in s.claims :: Startable(allow, s.claims[c].tunnel))
  }

  lemma StepKeeps(allow: string, s: State, a: Action)
    requires Inv(allow, s)
    ensures Inv(allow, Step(allow, s, a))
  {
    hide Key, Startable;
    var s' := Step(allow, s, a);
    forall k ensures k in s'.listeners <==> exists c | c in s'.claims :: Key(s'.claims[c].tunnel) == k {
      if c :| c in s.claims && Key(s.claims[c].tunnel) == k {
        assert c in s'.claims ==> Key(s'.claims[c].tunnel) == k;
      }
      if a.Start? && a.call in s'.claims {
        assert Key(s'.claims[a.call].tunnel) in s'.listeners;
      }
    }
  }

  /**
   After any interleaving, the claimed keys are exactly those of the live listener threads, no two
   live threads share a key, and each passed the start check.
   */
  lemma {:induction false} OneListenerPerKey(allow: string, actions: seq<Action>)
    ensures Inv(allow, Run(allow, actions))
  {
    hide Step, Key, Startable;
    if actions != [] {
      OneListenerPerKey(allow, actions[..|actions| - 1]);
      StepKeeps(allow, Run(allow, actions[..|actions| - 1]), actions[|actions| - 1]);
    }
  }

  // ---------------------------------------------------------------- which starts claim a key

  /**
   A start claims a key exactly when its tunnel is active, passes the check, is not secret, has a port,
   and no live listener has the key; it then leaves all other claims alone.
   */
  lemma StartClaimsIff(allow: string, s: State, call: Call, t: Tunnel)
    requires Inv(allow, s) && call !in s.claims
    ensures var s' := Step(allow, s, Start(call, t));
            && (call in s'.claims
                <==> && t.status && PassesCheck(allow, t) && !IsSecret(Lower(t.mode)) && t.serverPort != 0
                     && forall d | d in s.claims :: Key(s.claims[d].tunnel) != Key(t))
            && (call in s'.claims ==> s'.claims == s.claims[call := Claim(t, false)])
            && (call !in s'.claims ==> s' == s)
  {
    hide Key, PassesCheck, Lower;
  }

  /** Secret and p2p tunnels, inactive ones and those without a port claim nothing. */
  lemma NothingToClaim(allow: string, s: State, call: Call, t: Tunnel)
    requires Lower(t.mode) == "secret" || Lower(t.mode) == "p2p" || !t.status || t.serverPort == 0
    ensures Step(allow, s, Start(call, t)) == s
  {
    hide Key, PassesCheck, Lower;
  }

  /** A listener that ends frees its key: the next start of the same tunnel claims it again. */
  lemma ExitFreesKey(allow: string, s: State, call: Call, again: Call)
    requires Inv(allow, s) && call in s.claims && s.claims[call].spawned && (again == call || again !in s.claims)
    ensures var t := s.claims[call].tunnel;
            var s' := Step(allow, Step(allow, s, Exit(call)), Start(again, t));
            again in s'.claims && s'.claims[again] == Claim(t, false)
  {
    hide Key, PassesCheck, Lower;
    StepKeeps(allow, s, Exit(call));
    StartClaimsIff(allow, Step(allow, s, Exit(call)), again, s.claims[call].tunnel);
  }

  // ---------------------------------------------------------------- keys

  lemma {:induction false} DecimalIsInjective(m: nat, n: nat)
    requires Decimal(m) == Decimal(n)
    ensures m == n
  {
    var s := Decimal(m);
    if m >= 10 && n >= 10 {
      assert Decimal(m / 10) == s[..|s| - 1] == Decimal(n / 10);
      DecimalIsInjective(m / 10, n / 10);
    }
    assert ('0' as int + m % 10) as char == s[|s| - 1] == ('0' as int + n % 10) as char;
  }

  lemma {:induction false} FirstColon(a: string, b: string, x: string, y: string)
    requires ':' !in a && ':' !in b && a + ":" + x == b + ":" + y
    ensures a == b && x == y
  {
    if a == "" || b == "" {
      assert (a + ":" + x)[0] == (b + ":" + y)[0];
      assert a == "" ==> (a + ":" + x)[1..] == x;
      assert b == "" ==> (b + ":" + y)[1..] == y;
    } else {
      assert (a + ":" + x)[0] == a[0] && (b + ":" + y)[0] == b[0];
      assert (a + ":" + x)[1..] == a[1..] + ":" + x && (b + ":" + y)[1..] == b[1..] + ":" + y;
      FirstColon(a[1..], b[1..], x, y);
    }
  }

  lemma {:induction false} LastColon(x: string, y: string, a: string, b: string)
    requires ':' !in a && ':' !in b && x + ":" + a == y + ":" + b
    ensures x == y && a == b
    decreases |a|
  {
    var s, t := x + ":" + a, y + ":" + b;
    assert s[|s| - 1] == t[|t| - 1];
    if a == "" || b == "" {
      assert a == "" ==> s[..|s| - 1] == x;
      assert b == "" ==> t[..|t| - 1] == y;
    } else {
      assert s[..|s| - 1] == x + ":" + a[..|a| - 1] && t[..|t| - 1] == y + ":" + b[..|b| - 1];
      LastColon(x, y, a[..|a| - 1], b[..|b| - 1]);
    }
  }

  /** Listeners share a key only if they agree on mode, address and port, so no other start is refused. */
  lemma KeyIsInjective(t: Tunnel, u: Tunnel)
    requires Listens(Lower(t.mode)) && Listens(Lower(u.mode)) && Key(t) == Key(u)
    ensures Lower(t.mode) == Lower(u.mode) && t.serverIp == u.serverIp && t.serverPort == u.serverPort
  {
    hide Lower, Decimal;
    var x, y := t.serverIp + ":" + Decimal(t.serverPort), u.serverIp + ":" + Decimal(u.serverPort);
    assert Key(t) == Lower(t.mode) + ":" + x && Key(u) == Lower(u.mode) + ":" + y;
    FirstColon(Lower(t.mode), Lower(u.mode), x, y);
    DigitsOfDecimal(t.serverPort);
    DigitsOfDecimal(u.serverPort);
    LastColon(t.serverIp, u.serverIp, Decimal(t.serverPort), Decimal(u.serverPort));
    DecimalIsInjective(t.serverPort, u.serverPort);
  }

  // ---------------------------------------------------------------- a mode with white space

  /**
   A tunnel with mode "secret " is exempt from the check, which trims, but not from the claim, which
   does not: whatever single port `p` is allowed, it can hold the key of another port `q`.
   */
  lemma PaddedModeEscapesCheck(p: nat, q: nat)
    requires p <= MAX_PORT && 0 < q <= MAX_PORT && p != q
    ensures var c := Tunnel("secret ", Decimal(q), "", q, true, "", "", "", "");
            c in Expanded([c]) && Startable(Decimal(p), c) && !PortAllowed(Decimal(p), q)
  {
    hide Decimal, PortAllowed, Trim, Lower, PortsOf, TargetsOf;
    var c := Tunnel("secret ", Decimal(q), "", q, true, "", "", "", "");
    PaddedSecret();
    WrittenPortIsListed(p);
    WrittenPortIsListed(q);
    AllowedIffListed(Decimal(p), q);
    assert CopiesOf(c, [q], TargetsOf(c), 0) == [];
    assert CopiesOf(c, [q], TargetsOf(c), 1) == [c];
    assert Expansion(c) == [c];
    assert [c][..0] == [] && Expanded([]) == [];
    assert Expanded([c]) == Expanded([]) + Expansion(c);
  }
}
