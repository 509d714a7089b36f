/** Taking the request head off a stream and relaying the rest, without losing or inventing a byte. */
module HttpRelay {
  import opened Wrappers
  import opened Frames
  import opened Streams

  const CR: byte := 13
  const LF: byte := 10
  const MAX_HEAD: nat := 64 * 1024
  const COPY_BUFFER: nat := 16 * 1024

  /** The first `n` bytes of `s` end with CR LF CR LF. */
  predicate HeadEndsAt(s: seq<byte>, n: nat) {
    4 <= n <= |s| && s[n - 4] == CR && s[n - 3] == LF && s[n - 2] == CR && s[n - 1] == LF
  }

  predicate HasHead(s: seq<byte>, max: nat) { exists n | 0 <= n <= max :: HeadEndsAt(s, n) }

  /** Whether a head ends somewhere depends only on the bytes before. */
  lemma EndInside(buf: seq<byte>, rest: seq<byte>)
    ensures HeadEndsAt(buf, |buf|) == HeadEndsAt(buf + rest, |buf|)
  {
  }

  lemma NoHeadYet(s: seq<byte>)
    ensures !HeadEndsAt(s, 0)
  {
  }

  lemma HeadIsFound(s: seq<byte>, n: nat, max: nat)
    requires HeadEndsAt(s, n) && n <= max
    ensures HasHead(s, max)
  {
  }

  lemma HeadIsMissing(s: seq<byte>, n: nat, max: nat)
    requires n == max || n == |s|
    requires forall m | 0 <= m <= n :: !HeadEndsAt(s, m)
    ensures !HasHead(s, max)
  {
  }

  /** read_http_head: byte by byte up to the first blank line. */
  method ReadHead(source: Source, max: nat) returns (r: Option<seq<byte>>)
    modifies source
    ensures r.Some? <==> HasHead(old(source.unread), max)
    ensures r.Some? ==> r.value + source.unread == old(source.unread) && |r.value| <= max
    ensures r.Some? ==> HeadEndsAt(old(source.unread), |r.value|)
    ensures r.Some? ==> forall m | 0 <= m < |r.value| :: !HeadEndsAt(old(source.unread), m)
    ensures r.None? ==> source.unread == old(source.unread)[if max < |old(source.unread)| then max else |old(source.unread)|..]
  {
    hide HeadEndsAt, HasHead;
    ghost var s := source.unread;
    var buf: seq<byte> := [];
    NoHeadYet(s);
    while |buf| < max
      invariant |buf| <= max && buf + source.unread == s
      invariant forall m | 0 <= m <= |buf| :: !HeadEndsAt(s, m)
      decreases max - |buf|
    {
      var one := source.Read(1);
      if one == [] {
        break;
      }
      assert (buf + one) + source.unread == s;
      buf := buf + one;
      EndInside(buf, source.unread);
      if HeadEndsAt(buf, |buf|) {
        HeadIsFound(s, |buf|, max);
        return Some(buf);
      }
    }
    EndInside(buf, source.unread);
    HeadIsMissing(s, |buf|, max);
    assert s[|buf|..] == source.unread;
    r := if HeadEndsAt(buf, |buf|) then Some(buf) else None;
  }

  /**
   copy_one_way: read whatever is there and write it, until end of input, which is passed on by
   shutting the target down, or an error, which is not.
   */
  method CopyOneWay(source: Source, target: Sink) returns (ok: bool)
    modifies source, target
    ensures ok <==> |old(source.unread)| <= old(target.room)
    ensures ok ==> source.unread == [] && target.written == old(target.written) + old(source.unread)
    ensures !ok ==> target.written == old(target.written) + old(source.unread)[..old(target.room)]
    ensures target.shut == (ok || old(target.shut))
  {
    ghost var s := source.unread;
    ghost var done: seq<byte> := [];
    while true
      invariant done + source.unread == s
      invariant target.written == old(target.written) + done && target.room == old(target.room) - |done|
      invariant target.shut == old(target.shut)
      decreases |source.unread|
    {
      ghost var rest, room := source.unread, target.room;
      var chunk := source.Read(COPY_BUFFER);
      if chunk == [] {
        target.Shutdown();
        return true;
      }
      ok := target.WriteAll(chunk);
      if !ok {
        assert s == done + (chunk + source.unread);
        CutInSecond(done, chunk, source.unread, room);
        return;
      }
      done := done + chunk;
    }
  }

  /**
   The HTTP branch of serve_link, one direction: any PROXY header, the head, then the relay. When it
   succeeds the target has received the PROXY header and exactly the source stream; when it does not,
   it has received a prefix of that. It succeeds exactly when a head ends within the limit and the
   target takes everything.
   */
  method ServeHttp(source: Source, target: Sink, proxyHeader: seq<byte>) returns (ok: bool)
    modifies source, target
    ensures ok <==> HasHead(old(source.unread), MAX_HEAD)
                    && |proxyHeader| + |old(source.unread)| <= old(target.room)
    ensures ok ==> target.written == old(target.written) + proxyHeader + old(source.unread) && target.shut
    ensures target.written <= old(target.written) + proxyHeader + old(source.unread)
    ensures old(target.written) <= target.written
  {
    ghost var s, w, room := source.unread, target.written, target.room;
    var head := ReadHead(source, MAX_HEAD);
    if head.None? {
      return false;
    }
    ok := target.WriteAll(proxyHeader);
    if !ok {
      return;
    }
    ok := target.WriteAll(head.value);
    if !ok {
      assert s == head.value + source.unread;
      return;
    }
    ghost var rest := source.unread;
    assert s == head.value + rest;
    ok := CopyOneWay(source, target);
    assert w + proxyHeader + s == w + proxyHeader + head.value + rest;
  }
}
