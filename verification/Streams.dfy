/** Byte streams that may be cut at any point, and the readers and writers of framed data on them. */
module Streams {
  import opened Wrappers
  import opened Frames
  import opened FlowMeter

  /** The reading end of a connection. `unread` is what will still arrive before end of input. */
  class Source {
    var unread: seq<byte>

    constructor (bytes: seq<byte>)
      ensures unread == bytes
    {
      unread := bytes;
    }

    /** One read call: some bytes, however many happen to be available; none only at the end. */
    method Read(cap: nat) returns (chunk: seq<byte>)
      requires cap > 0
      modifies this
      ensures chunk + unread == old(unread) && |chunk| <= cap
      ensures chunk == [] <==> old(unread) == []
    {
      if unread == [] {
        return [];
      }
      var n :| 1 <= n <= cap && n <= |unread|;
      chunk, unread := unread[..n], unread[n..];
    }

    method ReadExact(n: nat) returns (r: Option<seq<byte>>)
      modifies this
      ensures r.Some? <==> n <= |old(unread)|
      ensures r.Some? ==> r.value == old(unread)[..n] && unread == old(unread)[n..]
      ensures r.None? ==> unread == []
    {
      var got: seq<byte> := [];
      while |got| < n
        invariant |got| <= n && got + unread == old(unread)
        decreases n - |got|
      {
        var chunk := Read(n - |got|);
        if chunk == [] {
          return None;
        }
        got := got + chunk;
      }
      r := Some(got);
    }
  }

  /** The writing end. The transport takes `room` more bytes and then fails for good. */
  class Sink {
    var written: seq<byte>
    var room: nat
    var shut: bool     // the writing direction has been shut down

    constructor (room: nat)
      ensures written == [] && this.room == room && !shut
    {
      written, this.room, shut := [], room, false;
    }

    method Shutdown()
      modifies this`shut
      ensures shut
    {
      shut := true;
    }

    method WriteAll(data: seq<byte>) returns (ok: bool)
      modifies this`written, this`room
      ensures ok <==> |data| <= old(room)
      ensures ok ==> written == old(written) + data && room == old(room) - |data|
      ensures !ok ==> written == old(written) + data[..old(room)] && room == 0
    {
      ok := |data| <= room;
      var n := if ok then |data| else room;
      written, room := written + data[..n], room - n;
      assert ok ==> data[..n] == data;
    }
  }

  /** Writing the pieces of a frame one after the other, stopping at the first failure. */
  method WritePieces(sink: Sink, pieces: seq<seq<byte>>) returns (ok: bool)
    modifies sink
    ensures ok <==> |Flatten(pieces)| <= old(sink.room)
    ensures ok ==> sink.written == old(sink.written) + Flatten(pieces)
    ensures !ok ==> sink.written == old(sink.written) + Flatten(pieces)[..old(sink.room)]
  {
    hide Flatten;
    var i := 0;
    ghost var sent: seq<byte> := [];
    ok := true;
    assert pieces[0..] == pieces && [] + Flatten(pieces) == Flatten(pieces);
    while i < |pieces|
      invariant i <= |pieces| && ok && sent + Flatten(pieces[i..]) == Flatten(pieces)
      invariant sink.written == old(sink.written) + sent && sink.room == old(sink.room) - |sent|
    {
      FlattenStep(pieces, i);
      var piece := pieces[i];
      ghost var rest, room := Flatten(pieces[i + 1..]), sink.room;
      Regroup(sent, piece, rest);
      ok := sink.WriteAll(piece);
      if !ok {
        CutInSecond(sent, piece, rest, room);
        Regroup(old(sink.written), sent, piece[..room]);
        return;
      }
      Regroup(old(sink.written), sent, piece);
      sent := sent + piece;
      i := i + 1;
    }
    assert pieces[i..] == [];
    FlattenNone();
    assert sent + [] == sent;
  }

  lemma Regroup(a: seq<byte>, b: seq<byte>, c: seq<byte>)
    ensures a + (b + c) == (a + b) + c
  {
  }

  lemma FlattenNone()
    ensures Flatten([]) == []
  {
  }

  lemma CutInSecond(a: seq<byte>, b: seq<byte>, c: seq<byte>, n: nat)
    requires n <= |b|
    ensures (a + (b + c))[..|a| + n] == a + b[..n]
  {
  }

  function Flatten(pieces: seq<seq<byte>>): seq<byte> {
    if pieces == [] then [] else pieces[0] + Flatten(pieces[1..])
  }

  lemma FlattenStep(pieces: seq<seq<byte>>, i: nat)
    requires i < |pieces|
    ensures Flatten(pieces[i..]) == pieces[i] + Flatten(pieces[i + 1..])
  {
    assert pieces[i..][1..] == pieces[i + 1..];
  }

  lemma FlattenCons(x: seq<byte>, rest: seq<seq<byte>>)
    ensures Flatten([x] + rest) == x + Flatten(rest)
  {
    assert ([x] + rest)[1..] == rest;
  }

  lemma FlattenFour(a: seq<byte>, b: seq<byte>, c: seq<byte>, d: seq<byte>)
    ensures Flatten([a, b, c, d]) == a + b + c + d
  {
    hide Flatten;
    assert [a, b, c, d] == [a] + [b, c, d] && [b, c, d] == [b] + [c, d] && [c, d] == [c] + [d] && [d] == [d] + [];
    FlattenNone();
    FlattenCons(d, []);
    FlattenCons(c, [d]);
    FlattenCons(b, [c, d]);
    FlattenCons(a, [b, c, d]);
    Regroup(b, c, d);
    Regroup(a, b + c, d);
    Regroup(a, b, c);
  }

  /** Whether the mux session lets a frame pass to the transport at all. */
  predicate Passes(cap: nat, flow: Flow, f: Frame) {
    |f.payload| <= MAX_FRAME && (f.kind == FRAME_DATA ==> Accepts(cap, flow, Amount(|f.payload|, 0)))
  }

  /**
   send_frame: refuses an oversized payload, meters DATA before anything is written, then writes the
   header pieces and the payload. A refused frame leaves no byte and no trace in the counter; a frame
   that passes is written whole, or up to the point where the transport fails.
   */
  method SendFrame(sink: Sink, counter: FlowCounter, cap: nat, f: Frame) returns (ok: bool)
    requires FRAME_OPEN <= f.kind <= FRAME_CLOSE
    modifies sink, counter
    ensures ok <==> Passes(cap, old(counter.State()), f) && |Encode(Mux, f)| <= old(sink.room)
    ensures ok ==> WellFormed(Mux, f) && sink.written == old(sink.written) + Encode(Mux, f)
    ensures !ok && Passes(cap, old(counter.State()), f) ==>
              sink.written == old(sink.written) + Encode(Mux, f)[..old(sink.room)]
    ensures !Passes(cap, old(counter.State()), f) ==> sink.written == old(sink.written)
    ensures counter.State() == if Passes(cap, old(counter.State()), f) && f.kind == FRAME_DATA
                               then Recorded(cap, old(counter.State()), Amount(|f.payload|, 0))
                               else old(counter.State())
  {
    if |f.payload| > MAX_FRAME {
      return false;
    }
    if f.kind == FRAME_DATA {
      var accepted := counter.Record(cap, Amount(|f.payload|, 0));
      if !accepted {
        return false;
      }
    }
    var pieces := [[f.kind], LittleEndian(f.id, 8), LittleEndian(|f.payload|, 4), f.payload];
    FlattenFour(pieces[0], pieces[1], pieces[2], pieces[3]);
    ok := WritePieces(sink, pieces);
  }

  /** write_message after serialisation: magic, length, body. */
  method WriteMessage(sink: Sink, body: seq<byte>) returns (ok: bool)
    modifies sink
    ensures var bytes := Encode(Rnp1, Frame(0, 0, body));
            && (ok <==> |body| <= MAX_FRAME && |bytes| <= old(sink.room))
            && (ok ==> sink.written == old(sink.written) + bytes)
            && (!ok ==> sink.written == old(sink.written)
                        + if |body| <= MAX_FRAME then bytes[..old(sink.room)] else [])
  {
    if |body| > MAX_FRAME {
      return false;
    }
    FlattenFour(MAGIC, LittleEndian(|body|, 4), body, []);
    assert Encode(Rnp1, Frame(0, 0, body)) == Flatten([MAGIC, LittleEndian(|body|, 4), body, []]);
    ok := WritePieces(sink, [MAGIC, LittleEndian(|body|, 4), body, []]);
  }

  /** read_message before deserialisation: the body of the next message, or an error. */
  method ReadMessage(source: Source) returns (r: Option<seq<byte>>)
    modifies source
    ensures DecodeOne(Rnp1, old(source.unread)) == if r.Some? then Some(Frame(0, 0, r.value)) else None
    ensures r.Some? ==> old(source.unread) == Encode(Rnp1, Frame(0, 0, r.value)) + source.unread
  {
    hide DecodeOne, Encode, BodyAt;
    ghost var s := source.unread;
    var magic := source.ReadExact(4);
    if magic.None? {
      ShortIsNothing(s);
      return None;
    }
    if magic.value != MAGIC {
      WrongMagicIsNothing(s);
      return None;
    }
    r := ReadBody(source);
    BodyIsPayload(Rnp1, s, 4);
    if r.Some? {
      MessageIsConsumed(s, r.value, source.unread);
    }
  }

  lemma ShortIsNothing(s: seq<byte>)
    requires |s| < 4
    ensures DecodeOne(Rnp1, s) == None
  {
  }

  lemma WrongMagicIsNothing(s: seq<byte>)
    requires |s| >= 4 && s[..4] != MAGIC
    ensures DecodeOne(Rnp1, s) == None
  {
    assert |s| >= 8 ==> s[..8][..4] == s[..4];
  }

  lemma MessageIsConsumed(s: seq<byte>, body: seq<byte>, rest: seq<byte>)
    requires DecodeOne(Rnp1, s) == Some(Frame(0, 0, body)) && |s| >= 8 + |body|
    requires s[4..][4 + |body|..] == rest
    ensures s == Encode(Rnp1, Frame(0, 0, body)) + rest
  {
    hide DecodeOne;
    EncodeOfDecodeOne(Rnp1, s);
    hide Encode;
    var n := |Encode(Rnp1, Frame(0, 0, body))|;
    assert s == s[..n] + s[n..];
    assert s[n..] == s[4..][4 + |body|..];
  }

  /** write_blob. */
  method WriteBlob(sink: Sink, data: seq<byte>) returns (ok: bool)
    modifies sink
    ensures var bytes := Encode(Blob, Frame(0, 0, data));
            && (ok <==> |data| <= MAX_FRAME && |bytes| <= old(sink.room))
            && (ok ==> sink.written == old(sink.written) + bytes)
            && (!ok ==> sink.written == old(sink.written)
                        + if |data| <= MAX_FRAME then bytes[..old(sink.room)] else [])
  {
    if |data| > MAX_FRAME {
      return false;
    }
    FlattenFour(LittleEndian(|data|, 4), data, [], []);
    assert Encode(Blob, Frame(0, 0, data)) == Flatten([LittleEndian(|data|, 4), data, [], []]);
    ok := WritePieces(sink, [LittleEndian(|data|, 4), data, [], []]);
  }

  /** read_blob. */
  method ReadBlob(source: Source) returns (r: Option<seq<byte>>)
    modifies source
    ensures DecodeOne(Blob, old(source.unread)) == if r.Some? then Some(Frame(0, 0, r.value)) else None
    ensures r.Some? ==> old(source.unread) == Encode(Blob, Frame(0, 0, r.value)) + source.unread
  {
    ghost var s := source.unread;
    assert s[0..] == s;
    r := ReadBody(source);
    BodyIsPayload(Blob, s, 0);
    if r.Some? {
      EncodeOfDecodeOne(Blob, s);
    }
  }

  /** A length field and that many bytes. */
  function BodyAt(s: seq<byte>): Option<seq<byte>> {
    if |s| < 4 then None
    else
      var len := FromLittleEndian(s[..4]);
      if len > MAX_FRAME || |s| < 4 + len then None else Some(s[4..4 + len])
  }

  method ReadBody(source: Source) returns (r: Option<seq<byte>>)
    modifies source
    ensures r == BodyAt(old(source.unread))
    ensures r.Some? ==> source.unread == old(source.unread)[4 + |r.value|..]
  {
    var field := source.ReadExact(4);
    if field.None? {
      return None;
    }
    var len := FromLittleEndian(field.value);
    if len > MAX_FRAME {
      return None;
    }
    r := source.ReadExact(len);
    assert r.Some? ==> old(source.unread)[4..][..len] == old(source.unread)[4..4 + len];
  }

  lemma BodyIsPayload(format: Format, s: seq<byte>, skip: nat)
    requires !format.Mux? && skip + 4 == HeaderLen(format) && skip <= |s|
    requires format.Rnp1? ==> s[..4] == MAGIC
    ensures DecodeOne(format, s) == match BodyAt(s[skip..]) case None => None case Some(b) => Some(Frame(0, 0, b))
  {
    var n := HeaderLen(format);
    if |s| >= n {
      Slices(s, skip, n);
      var len := FromLittleEndian(s[skip..n]);
      if len <= MAX_FRAME && |s| >= n + len {
        Slices(s, skip, n + len);
      }
    }
  }

  lemma Slices(s: seq<byte>, k: nat, n: nat)
    requires k + 4 <= n <= |s|
    ensures s[..n][k..] == s[k..n] == s[k..][..n - k]
    ensures s[k + 4..n] == s[k..][4..n - k]
    ensures s[..n][..4] == s[..4]
  {
  }
}
