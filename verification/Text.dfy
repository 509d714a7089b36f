/** The string operations the program relies on, and the laws the other modules need of them. */
module Text {
  import opened Wrappers

  predicate IsSpace(c: char) {
    c == ' ' || c == '\t' || c == '\n' || c == '\r' || c == '\U{000B}' || c == '\U{000C}'
  }

  function TrimStart(s: string): string {
    if s != "" && IsSpace(s[0]) then TrimStart(s[1..]) else s
  }

  function TrimEnd(s: string): string {
    if s != "" && IsSpace(s[|s| - 1]) then TrimEnd(s[..|s| - 1]) else s
  }

  function Trim(s: string): string { TrimEnd(TrimStart(s)) }

  /** Without white space at either end. */
  predicate Trimmed(s: string) { s == "" || (!IsSpace(s[0]) && !IsSpace(s[|s| - 1])) }

  /** `sub` stands in `s` at position `i`. */
  predicate At(s: string, sub: string, i: nat) { i <= |s| && sub <= s[i..] }

  predicate Contains(s: string, sub: string) { exists i | 0 <= i <= |s| :: At(s, sub, i) }

  /** The first position of `sub` in `s`. */
  function Find(s: string, sub: string): (r: Option<nat>)
    ensures r.Some? ==> At(s, sub, r.value) && forall i | 0 <= i < r.value :: !At(s, sub, i)
    ensures r.None? ==> !Contains(s, sub)
    decreases |s|
  {
    if At(s, sub, 0) then Some(0)
    else if s == "" then None
    else
      assert forall i | 1 <= i <= |s| :: At(s, sub, i) == At(s[1..], sub, i - 1) by { ShiftAt(s, sub); }
      match Find(s[1..], sub)
      case None => None
      case Some(i) => Some(i + 1)
  }

  lemma ShiftAt(s: string, sub: string)
    requires s != ""
    ensures forall i | 1 <= i <= |s| :: At(s, sub, i) == At(s[1..], sub, i - 1)
  {
    forall i | 1 <= i <= |s| ensures At(s, sub, i) == At(s[1..], sub, i - 1) {
      assert s[1..][i - 1..] == s[i..];
    }
  }

  function Split(s: string, sep: string): (parts: seq<string>)
    requires sep != ""
    ensures |parts| >= 1
    decreases |s|
  {
    match Find(s, sep)
    case None => [s]
    case Some(i) => [s[..i]] + Split(s[i + |sep|..], sep)
  }

  /** The parts around the first occurrence of a character. */
  function SplitOnce(s: string, c: char): Option<(string, string)> {
    match Find(s, [c])
    case None => None
    case Some(i) => Some((s[..i], s[i + 1..]))
  }

  /** Splitting off a part in which no separator begins. */
  lemma SplitPart(part: string, sep: string, rest: string)
    requires sep != ""
    requires forall i | 0 <= i < |part| :: !At(part + sep + rest, sep, i)
    ensures Split(part + sep + rest, sep) == [part] + Split(rest, sep)
  {
    var s := part + sep + rest;
    assert s[|part|..] == sep + rest;
    assert At(s, sep, |part|);
    assert Contains(s, sep);
    var i := Find(s, sep).value;
    assert i == |part|;
    assert s[..i] == part && s[i + |sep|..] == rest;
  }

  lemma CharAt(s: string, c: char, i: nat)
    ensures At(s, [c], i) <==> i < |s| && s[i] == c
  {
    if i < |s| {
      assert s[i..][0] == s[i];
    }
  }

  lemma FirstChar(a: string, c: char, b: string)
    ensures match Find(a, [c])
            case Some(i) => i < |a| && Find(a + [c] + b, [c]) == Some(i)
            case None => Find(a + [c] + b, [c]) == Some(|a|)
  {
    hide Find, At;
    var s := a + [c] + b;
    var n := if Find(a, [c]).Some? then Find(a, [c]).value else |a|;
    forall j | 0 <= j <= |a| ensures At(s, [c], j) <==> j == |a| || At(a, [c], j) {
      CharAt(s, c, j);
      CharAt(a, c, j);
    }
    if Find(a, [c]).Some? {
      CharAt(a, c, n);
    }
    assert At(s, [c], n);
    assert Contains(s, [c]);
    assert forall j | 0 <= j < n :: !At(s, [c], j);
  }

  /** Joining two texts with a one-character separator joins their parts. */
  lemma {:induction false} SplitJoined(a: string, c: char, b: string)
    ensures Split(a + [c] + b, [c]) == Split(a, [c]) + Split(b, [c])
    decreases |a|
  {
    hide Find, At, Contains;
    var s := a + [c] + b;
    FirstChar(a, c, b);
    match Find(a, [c])
    case Some(i) =>
      assert s[i + 1..] == a[i + 1..] + [c] + b && s[..i] == a[..i];
      SplitJoined(a[i + 1..], c, b);
    case None =>
      assert s[..|a|] == a && s[|a| + 1..] == b;
  }

  lemma SplitNone(s: string, sep: string)
    requires sep != "" && !Contains(s, sep)
    ensures Split(s, sep) == [s]
  {
  }

  lemma NotFound(s: string, sub: string)
    requires !Contains(s, sub)
    ensures Find(s, sub) == None
  {
    hide Find;
  }

  lemma SliceContains(s: string, i: nat, j: nat, sub: string)
    requires i <= j <= |s| && Contains(s[i..j], sub)
    ensures Contains(s, sub)
  {
    var k :| 0 <= k <= j - i && At(s[i..j], sub, k);
    assert s[i..j][k..] == s[i + k..j];
    assert s[i + k..j] <= s[i + k..];
    assert At(s, sub, i + k);
  }

  /** What comes before the first occurrence contains none. */
  lemma BeforeFirst(s: string, sub: string)
    requires sub != "" && Find(s, sub).Some?
    ensures !Contains(s[..Find(s, sub).value], sub)
  {
    var n := Find(s, sub).value;
    if Contains(s[..n], sub) {
      var k :| 0 <= k <= n && At(s[..n], sub, k);
      assert s[..n][k..] == s[k..n];
      assert s[k..n] <= s[k..];
      assert At(s, sub, k);
      assert false;
    }
  }

  lemma FoundFits(s: string, sub: string)
    requires Find(s, sub).Some?
    ensures Find(s, sub).value + |sub| <= |s|
  {
    hide Find;
  }

  lemma {:induction false} PartsAreWhole(s: string, sep: string)
    requires sep != ""
    ensures forall p | p in Split(s, sep) :: !Contains(p, sep)
    decreases |s|
  {
    hide Contains, Find, At;
    var r := Find(s, sep);
    if r.Some? {
      BeforeFirst(s, sep);
      FoundFits(s, sep);
      PartsAreWhole(s[r.value + |sep|..], sep);
    }
  }

  lemma TrimStartOf(s: string)
    requires s == "" || !IsSpace(s[0])
    ensures TrimStart(s) == s
  {
  }

  lemma TrimOf(s: string)
    requires Trimmed(s)
    ensures Trim(s) == s
  {
  }

  lemma {:induction false} TrimStartStarts(s: string)
    ensures TrimStart(s) == "" || !IsSpace(TrimStart(s)[0])
    ensures |TrimStart(s)| <= |s| && TrimStart(s) == s[|s| - |TrimStart(s)|..]
    decreases |s|
  {
    if s != "" && IsSpace(s[0]) {
      TrimStartStarts(s[1..]);
    }
  }

  lemma {:induction false} TrimEndEnds(s: string)
    ensures TrimEnd(s) == "" || !IsSpace(TrimEnd(s)[|TrimEnd(s)| - 1])
    ensures TrimEnd(s) <= s
    decreases |s|
  {
    if s != "" && IsSpace(s[|s| - 1]) {
      TrimEndEnds(s[..|s| - 1]);
    }
  }

  lemma TrimStartOfTrimEnd(s: string)
    requires s == "" || !IsSpace(s[0])
    ensures TrimEnd(s) == "" || !IsSpace(TrimEnd(s)[0])
  {
    hide TrimEnd, IsSpace;
    TrimEndEnds(s);
  }

  /** Trimming yields a trimmed part of the text. */
  lemma TrimIsTrimmed(s: string)
    ensures Trimmed(Trim(s))
    ensures var k := |s| - |TrimStart(s)|; 0 <= k && k + |Trim(s)| <= |s| && Trim(s) == s[k..k + |Trim(s)|]
  {
    hide TrimStart, TrimEnd, IsSpace;
    TrimStartStarts(s);
    var t := TrimStart(s);
    TrimEndEnds(t);
    TrimStartOfTrimEnd(t);
  }

  /** Decimal notation. */
  function Decimal(n: nat): (s: string)
    ensures s != ""
  {
    if n < 10 then [('0' as int + n) as char] else Decimal(n / 10) + [('0' as int + n % 10) as char]
  }

  function LowerChar(c: char): char {
    if 'A' <= c <= 'Z' then (c as int + 32) as char else c
  }

  /** ASCII lower case. */
  function Lower(s: string): (r: string)
    ensures |r| == |s|
  {
    if s == "" then "" else [LowerChar(s[0])] + Lower(s[1..])
  }
}
