/**
 Byte-level framing: little-endian integers and the three length-prefixed wire formats
 (mux frames, RNP1 messages, blobs), with the reader and writer that work on byte streams.
 */
module Frames {
  import opened Wrappers
  import opened Division

  newtype byte = b: int | 0 <= b < 256
  type u64 = i: int | 0 <= i < 0x1_0000_0000_0000_0000

  const MAX_FRAME: nat := 16 * 1024 * 1024
  const MAGIC: seq<byte> := [0x52, 0x4E, 0x50, 0x31] // "RNP1"

  const FRAME_OPEN: byte := 1
  const FRAME_DATA: byte := 2
  const FRAME_CLOSE: byte := 3

  // ---------------------------------------------------------------- integers

  function Pow256(width: nat): (p: nat)
    ensures p > 0
  {
    if width == 0 then 1 else 256 * Pow256(width - 1)
  }

  function LittleEndian(n: nat, width: nat): (s: seq<byte>)
    ensures |s| == width
  {
    if width == 0 then [] else [(n % 256) as byte] + LittleEndian(n / 256, width - 1)
  }

  function FromLittleEndian(s: seq<byte>): (n: nat)
    ensures n < Pow256(|s|)
  {
    if s == [] then 0 else s[0] as nat + 256 * FromLittleEndian(s[1..])
  }

  lemma {:induction false} LittleEndianRoundTrip(n: nat, width: nat)
    requires n < Pow256(width)
    ensures FromLittleEndian(LittleEndian(n, width)) == n
  {
    if width > 0 {
      LittleEndianRoundTrip(n / 256, width - 1);
      assert LittleEndian(n, width)[1..] == LittleEndian(n / 256, width - 1);
    }
  }

  lemma LittleEndianCons(b: byte, n: nat, width: nat)
    ensures LittleEndian(b as nat + 256 * n, width + 1) == [b] + LittleEndian(n, width)
  {
    var m := b as nat + 256 * n;
    assert m % 256 == b as nat && m / 256 == n;
  }

  lemma {:induction false} LittleEndianIsCanonical(s: seq<byte>)
    ensures LittleEndian(FromLittleEndian(s), |s|) == s
  {
    hide LittleEndian;
    if s != [] {
      LittleEndianIsCanonical(s[1..]);
      LittleEndianCons(s[0], FromLittleEndian(s[1..]), |s| - 1);
      assert s == [s[0]] + s[1..];
    } else {
      assert |LittleEndian(0, 0)| == 0;
    }
  }

  /** The least significant byte comes first. */
  lemma {:induction false} LittleEndianAt(n: nat, width: nat, i: nat)
    requires i < width
    ensures LittleEndian(n, width)[i] as nat == n / Pow256(i) % 256
  {
    if i > 0 {
      LittleEndianAt(n / 256, width - 1, i - 1);
      DivideTwice(n, Pow256(i - 1));
    }
  }

  lemma DivideTwice(n: nat, p: nat)
    requires p > 0
    ensures n / 256 / p == n / (256 * p)
  {
    var q, r := n / 256, n % 256;
    var a, b := q / p, q % p;
    assert q == a * p + b;
    assert n == a * (256 * p) + (256 * b + r) by {
      assert n == 256 * (a * p + b) + r;
      assert 256 * (a * p) == a * (256 * p);
    }
    Quotient(n, 256 * p, a, 256 * b + r);
  }

  lemma Widths()
    ensures Pow256(4) == 0x1_0000_0000
    ensures Pow256(8) == 0x1_0000_0000_0000_0000
  {
  }

  // ---------------------------------------------------------------- frames

  /** The three formats: mux frames, RNP1 messages and bare blobs. */
  datatype Format = Mux | Rnp1 | Blob

  /** `kind` and `id` are carried by mux frames only and are zero in the other formats. */
  datatype Frame = Frame(kind: byte, id: u64, payload: seq<byte>)

  predicate WellFormed(format: Format, f: Frame) {
    && |f.payload| <= MAX_FRAME
    && if format.Mux? then FRAME_OPEN <= f.kind <= FRAME_CLOSE else f.kind == 0 && f.id == 0
  }

  function HeaderLen(format: Format): nat {
    match format
    case Mux => 13
    case Rnp1 => 8
    case Blob => 4
  }

  function Header(format: Format, f: Frame): (h: seq<byte>)
    ensures |h| == HeaderLen(format)
  {
    match format
    case Mux => [f.kind] + LittleEndian(f.id, 8) + LittleEndian(|f.payload|, 4)
    case Rnp1 => MAGIC + LittleEndian(|f.payload|, 4)
    case Blob => LittleEndian(|f.payload|, 4)
  }

  function Encode(format: Format, f: Frame): (s: seq<byte>)
    ensures |s| == HeaderLen(format) + |f.payload|
  {
    Header(format, f) + f.payload
  }

  /** A mux frame: kind, id in 8 bytes, payload length in 4, payload. */
  lemma MuxLayout(f: Frame)
    ensures var s := Encode(Mux, f);
            && |s| == 13 + |f.payload| && s[0] == f.kind && s[1..9] == LittleEndian(f.id, 8)
            && s[9..13] == LittleEndian(|f.payload|, 4) && s[13..] == f.payload
  {
    hide LittleEndian;
  }

  /** A message: the four letters RNP1, length in 4 bytes, body; a blob: the same without the letters. */
  lemma MessageLayout(body: seq<byte>)
    ensures Encode(Rnp1, Frame(0, 0, body)) == [82, 78, 80, 49] + LittleEndian(|body|, 4) + body
    ensures Encode(Blob, Frame(0, 0, body)) == LittleEndian(|body|, 4) + body
  {
    hide LittleEndian;
  }

  /** The header of the next frame without its payload, and the payload length it announces. */
  function ParseHeader(format: Format, h: seq<byte>): (r: Option<(Frame, nat)>)
    requires |h| == HeaderLen(format)
  {
    var len := FromLittleEndian(h[|h| - 4..]);
    if len > MAX_FRAME then None
    else match format
      case Mux =>
        Widths();
        if FRAME_OPEN <= h[0] <= FRAME_CLOSE
        then Some((Frame(h[0], FromLittleEndian(h[1..9]), []), len)) else None
      case Rnp1 => if h[..4] == MAGIC then Some((Frame(0, 0, []), len)) else None
      case Blob => Some((Frame(0, 0, []), len))
  }

  /** The frame at the front of `s`, if a whole acceptable one is there. */
  function DecodeOne(format: Format, s: seq<byte>): (r: Option<Frame>)
    ensures r.Some? ==> HeaderLen(format) + |r.value.payload| <= |s|
  {
    var n := HeaderLen(format);
    if |s| < n then None
    else match ParseHeader(format, s[..n])
      case None => None
      case Some((f, len)) =>
        if |s| < n + len then None else Some(f.(payload := s[n..n + len]))
  }

  lemma HeaderParses(format: Format, f: Frame)
    requires WellFormed(format, f)
    ensures ParseHeader(format, Header(format, f)) == Some((f.(payload := []), |f.payload|))
  {
    Widths();
    var h := Header(format, f);
    assert h[|h| - 4..] == LittleEndian(|f.payload|, 4);
    LittleEndianRoundTrip(|f.payload|, 4);
    if format.Mux? {
      assert h[1..9] == LittleEndian(f.id, 8);
      LittleEndianRoundTrip(f.id, 8);
    } else if format.Rnp1? {
      assert h[..4] == MAGIC;
    }
  }

  lemma ParsedHeaderIsCanonical(format: Format, h: seq<byte>, f: Frame)
    requires |h| == HeaderLen(format)
    requires ParseHeader(format, h) == Some((f.(payload := []), |f.payload|))
    ensures WellFormed(format, f) && Header(format, f) == h
  {
    Widths();
    LittleEndianIsCanonical(h[|h| - 4..]);
    if format.Mux? {
      LittleEndianIsCanonical(h[1..9]);
      assert h == [h[0]] + h[1..9] + h[9..];
    } else if format.Rnp1? {
      assert h == h[..4] + h[4..];
    } else {
      assert h[0..] == h;
    }
  }

  /** What was encoded is decoded, whatever follows it. */
  lemma DecodeOneOfEncode(format: Format, f: Frame, rest: seq<byte>)
    requires WellFormed(format, f)
    ensures DecodeOne(format, Encode(format, f) + rest) == Some(f)
  {
    HeaderParses(format, f);
    var s := Encode(format, f) + rest;
    var n := HeaderLen(format);
    assert s[..n] == Header(format, f);
    assert s[n..n + |f.payload|] == f.payload;
  }

  /** What is decoded is exactly the encoding that stands at the front. */
  lemma EncodeOfDecodeOne(format: Format, s: seq<byte>)
    requires DecodeOne(format, s).Some?
    ensures WellFormed(format, DecodeOne(format, s).value)
    ensures Encode(format, DecodeOne(format, s).value) <= s
  {
    var f := DecodeOne(format, s).value;
    var n := HeaderLen(format);
    ParsedHeaderIsCanonical(format, s[..n], f);
    assert s[..n + |f.payload|] == s[..n] + s[n..n + |f.payload|];
  }

  // ---------------------------------------------------------------- streams of frames

  predicate AllWellFormed(format: Format, fs: seq<Frame>) {
    forall f | f in fs :: WellFormed(format, f)
  }

  function EncodeAll(format: Format, fs: seq<Frame>): (s: seq<byte>) {
    if fs == [] then [] else Encode(format, fs[0]) + EncodeAll(format, fs[1..])
  }

  /** Everything a reader gets out of `s` before the first short or unacceptable frame. */
  function DecodeAll(format: Format, s: seq<byte>): (fs: seq<Frame>)
    decreases |s|
  {
    match DecodeOne(format, s)
    case None => []
    case Some(f) => [f] + DecodeAll(format, s[HeaderLen(format) + |f.payload|..])
  }

  lemma {:induction false} EncodeAllAppend(format: Format, fs: seq<Frame>, gs: seq<Frame>)
    ensures EncodeAll(format, fs + gs) == EncodeAll(format, fs) + EncodeAll(format, gs)
  {
    hide Encode;
    if fs == [] {
      assert fs + gs == gs;
    } else {
      var all := fs + gs;
      assert all[1..] == fs[1..] + gs;
      calc {
        EncodeAll(format, all);
        Encode(format, fs[0]) + EncodeAll(format, fs[1..] + gs);
        { EncodeAllAppend(format, fs[1..], gs); }
        Encode(format, fs[0]) + (EncodeAll(format, fs[1..]) + EncodeAll(format, gs));
        EncodeAll(format, fs) + EncodeAll(format, gs);
      }
    }
  }

  lemma EncodeAllOne(format: Format, f: Frame)
    ensures EncodeAll(format, [f]) == Encode(format, f)
  {
    assert [f][1..] == [];
  }

  /** The number of frames of `fs` that lie wholly within the first `cut` bytes. */
  function WholeWithin(format: Format, fs: seq<Frame>, cut: nat): (n: nat)
    ensures n <= |fs|
  {
    if fs == [] || cut < |Encode(format, fs[0])| then 0
    else 1 + WholeWithin(format, fs[1..], cut - |Encode(format, fs[0])|)
  }

  lemma EncodeAllCons(format: Format, f: Frame, fs: seq<Frame>)
    ensures EncodeAll(format, [f] + fs) == Encode(format, f) + EncodeAll(format, fs)
  {
    hide Encode;
    assert ([f] + fs)[1..] == fs;
  }

  lemma TakeLength(format: Format, fs: seq<Frame>, n: nat)
    requires n < |fs|
    ensures |EncodeAll(format, fs[..n + 1])| == |Encode(format, fs[0])| + |EncodeAll(format, fs[1..][..n])|
  {
    hide Encode, EncodeAll;
    EncodeAllCons(format, fs[0], fs[1..][..n]);
    assert fs[..n + 1] == [fs[0]] + fs[1..][..n];
  }

  /** `n` is the greatest number of frames that fit. */
  predicate Greatest(format: Format, fs: seq<Frame>, cut: nat, n: nat) {
    n <= |fs| && |EncodeAll(format, fs[..n])| <= cut && (n < |fs| ==> cut < |EncodeAll(format, fs[..n + 1])|)
  }

  lemma GreatestStep(format: Format, fs: seq<Frame>, cut: nat, m: nat)
    requires fs != [] && |Encode(format, fs[0])| <= cut
    requires Greatest(format, fs[1..], cut - |Encode(format, fs[0])|, m)
    ensures Greatest(format, fs, cut, m + 1)
  {
    hide Encode, EncodeAll;
    TakeLength(format, fs, m);
    if m + 1 < |fs| {
      TakeLength(format, fs, m + 1);
    }
  }

  lemma NoneIsGreatest(format: Format, fs: seq<Frame>, cut: nat)
    requires fs == [] || cut < |Encode(format, fs[0])|
    ensures Greatest(format, fs, cut, 0)
  {
    hide Encode;
    assert fs[..0] == [];
    if fs != [] {
      assert fs[..1] == [fs[0]];
      EncodeAllOne(format, fs[0]);
    }
  }

  lemma {:induction false} WholeWithinIsGreatest(format: Format, fs: seq<Frame>, cut: nat)
    ensures Greatest(format, fs, cut, WholeWithin(format, fs, cut))
  {
    hide Encode, Greatest;
    if fs == [] || cut < |Encode(format, fs[0])| {
      NoneIsGreatest(format, fs, cut);
    } else {
      var one := |Encode(format, fs[0])|;
      WholeWithinIsGreatest(format, fs[1..], cut - one);
      GreatestStep(format, fs, cut, WholeWithin(format, fs[1..], cut - one));
    }
  }

  lemma ShortCutDecodesNothing(format: Format, f: Frame, s: seq<byte>)
    requires WellFormed(format, f) && s < Encode(format, f)
    ensures DecodeOne(format, s) == None
  {
    if DecodeOne(format, s).Some? {
      EncodeOfDecodeOne(format, s);
      var g := DecodeOne(format, s).value;
      var whole := Encode(format, f);
      assert whole == Encode(format, g) + whole[|Encode(format, g)|..];
      assert whole + [] == whole;
      DecodeOneOfEncode(format, f, []);
      DecodeOneOfEncode(format, g, whole[|Encode(format, g)|..]);
    }
  }

  /**
   Cutting an encoded stream after any number of bytes yields exactly the frames that lie wholly
   before the cut, in order: no frame is invented, reordered, duplicated or altered.
   */
  lemma {:induction false} CutDecodesToPrefix(format: Format, fs: seq<Frame>, cut: nat)
    requires AllWellFormed(format, fs)
    requires cut <= |EncodeAll(format, fs)|
    ensures DecodeAll(format, EncodeAll(format, fs)[..cut]) == fs[..WholeWithin(format, fs, cut)]
    decreases |fs|
  {
    hide Encode, DecodeOne, WellFormed, EncodeAll, DecodeAll;
    var s := EncodeAll(format, fs)[..cut];
    if fs == [] {
      NothingToDecode(format, s);
    } else {
      var one, more := Encode(format, fs[0]), EncodeAll(format, fs[1..]);
      assert fs == [fs[0]] + fs[1..];
      EncodeAllCons(format, fs[0], fs[1..]);
      if cut < |one| {
        assert s == one[..cut];
        ShortCutDecodesNothing(format, fs[0], s);
        DecodeNone(format, s);
      } else {
        var rest := more[..cut - |one|];
        CutBehind(one, more, cut);
        DecodeCons(format, fs[0], rest);
        CutDecodesToPrefix(format, fs[1..], cut - |one|);
        var m := WholeWithin(format, fs[1..], cut - |one|);
        assert fs[..m + 1] == [fs[0]] + fs[1..][..m];
      }
    }
  }

  lemma CutBehind(a: seq<byte>, b: seq<byte>, n: nat)
    requires |a| <= n <= |a| + |b|
    ensures (a + b)[..n] == a + b[..n - |a|]
  {
  }

  lemma NothingToDecode(format: Format, s: seq<byte>)
    requires s <= EncodeAll(format, [])
    ensures DecodeAll(format, s) == []
  {
  }

  lemma DecodeNone(format: Format, s: seq<byte>)
    requires DecodeOne(format, s).None?
    ensures DecodeAll(format, s) == []
  {
    hide DecodeOne;
  }

  /** An encoded frame in front is decoded first, and then the rest. */
  lemma DecodeCons(format: Format, f: Frame, rest: seq<byte>)
    requires WellFormed(format, f)
    ensures DecodeAll(format, Encode(format, f) + rest) == [f] + DecodeAll(format, rest)
  {
    hide DecodeOne, WellFormed;
    DecodeOneOfEncode(format, f, rest);
    assert (Encode(format, f) + rest)[|Encode(format, f)|..] == rest;
    hide Encode;
  }

  /** A whole stream decodes to the frames that were written. */
  lemma StreamRoundTrip(format: Format, fs: seq<Frame>)
    requires AllWellFormed(format, fs)
    ensures DecodeAll(format, EncodeAll(format, fs)) == fs
  {
    hide EncodeAll, DecodeAll, WholeWithin, WellFormed;
    var s := EncodeAll(format, fs);
    CutDecodesToPrefix(format, fs, |s|);
    assert s[..|s|] == s;
    var n := WholeWithin(format, fs, |s|);
    WholeWithinIsGreatest(format, fs, |s|);
    if n < |fs| {
      assert fs == fs[..n + 1] + fs[n + 1..];
      EncodeAllAppend(format, fs[..n + 1], fs[n + 1..]);
    }
    assert fs[..|fs|] == fs;
  }

  /** On arbitrary bytes the reader yields only frames whose encodings are literally there. */
  lemma {:induction false} DecodingIsCanonical(format: Format, s: seq<byte>)
    ensures AllWellFormed(format, DecodeAll(format, s))
    ensures EncodeAll(format, DecodeAll(format, s)) <= s
    decreases |s|
  {
    hide Encode, EncodeAll, DecodeOne, WellFormed;
    match DecodeOne(format, s)
    case None => EncodeNothing(format);
    case Some(f) =>
      EncodeOfDecodeOne(format, s);
      var rest := s[|Encode(format, f)|..];
      DecodingIsCanonical(format, rest);
      assert s == Encode(format, f) + rest;
      EncodeAllCons(format, f, DecodeAll(format, rest));
  }

  lemma EncodeNothing(format: Format)
    ensures EncodeAll(format, []) == []
  {
  }

  /** A byte string that ends inside a frame (or at a frame boundary). */
  ghost predicate Unfinished(format: Format, tail: seq<byte>) {
    exists f: Frame :: WellFormed(format, f) && tail < Encode(format, f)
  }

  /**
   Any frames whose encodings stand at the front of a stream that holds `done` and then an
   unfinished frame are the first frames of `done`.
   */
  lemma {:induction false} FramesOnWireArePrefix(format: Format, got: seq<Frame>, done: seq<Frame>, tail: seq<byte>)
    requires AllWellFormed(format, got) && AllWellFormed(format, done)
    requires Unfinished(format, tail)
    requires EncodeAll(format, got) <= EncodeAll(format, done) + tail
    ensures got <= done
    decreases |got|
  {
    hide Encode, DecodeOne, WellFormed, EncodeAll, Unfinished;
    if got != [] {
      var s, more := EncodeAll(format, done) + tail, EncodeAll(format, got[1..]);
      assert got == [got[0]] + got[1..];
      EncodeAllCons(format, got[0], got[1..]);
      if done == [] {
        EncodeNothing(format);
        assert s == tail;
        UnfinishedHoldsNoFrame(format, got[0], more, tail);
      } else {
        var rest := EncodeAll(format, done[1..]) + tail;
        assert done == [done[0]] + done[1..];
        EncodeAllCons(format, done[0], done[1..]);
        assert s == Encode(format, done[0]) + rest;
        FirstFrameIsSame(format, got[0], more, done[0], rest);
        FramesOnWireArePrefix(format, got[1..], done[1..], tail);
      }
    }
  }

  lemma UnfinishedHoldsNoFrame(format: Format, g: Frame, more: seq<byte>, tail: seq<byte>)
    requires WellFormed(format, g) && Unfinished(format, tail)
    ensures !(Encode(format, g) + more <= tail)
  {
    hide Encode, DecodeOne, WellFormed;
    var f: Frame :| WellFormed(format, f) && tail < Encode(format, f);
    ShortCutDecodesNothing(format, f, tail);
    if Encode(format, g) + more <= tail {
      var one := Encode(format, g);
      assert tail == one + tail[|one|..];
      DecodeOneOfEncode(format, g, tail[|one|..]);
    }
  }

  /** Two streams of which one begins the other begin with the same frame. */
  lemma FirstFrameIsSame(format: Format, g: Frame, more: seq<byte>, f: Frame, rest: seq<byte>)
    requires WellFormed(format, g) && WellFormed(format, f) && Encode(format, g) + more <= Encode(format, f) + rest
    ensures g == f && more <= rest
  {
    hide Encode, DecodeOne, WellFormed;
    var s, one := Encode(format, f) + rest, Encode(format, g);
    assert s == one + s[|one|..];
    DecodeOneOfEncode(format, g, s[|one|..]);
    DecodeOneOfEncode(format, f, rest);
    assert s[|one|..] == rest;
    assert (one + more)[|one|..] == more;
  }
}
