/** Functions of a stream's history, and the laws the session invariant needs of them. */
module MuxHistory {
  import opened Wrappers
  import opened Frames
  import opened MuxProtocol

  // ---------------------------------------------------------------- frames of one id

  /** Where a side stands in OPEN? DATA* CLOSE? for one id; Bad once the order is violated. */
  datatype Place = Fresh | Live | Shut | Bad

  function Advance(w: Place, f: Frame): Place {
    match w
    case Fresh => if f.kind == FRAME_OPEN then Live else Bad
    case Live => if f.kind == FRAME_DATA then Live else if f.kind == FRAME_CLOSE then Shut else Bad
    case _ => Bad
  }

  function Scan(id: u64, start: Place, fs: seq<Frame>): Place {
    if fs == [] then start
    else
      var w := Scan(id, start, fs[..|fs| - 1]);
      var f := fs[|fs| - 1];
      if f.id == id then Advance(w, f) else w
  }

  /** All bytes the DATA frames of `id` carry, in order. */
  function DataOf(id: u64, fs: seq<Frame>): seq<byte> {
    if fs == [] then []
    else
      var f := fs[|fs| - 1];
      DataOf(id, fs[..|fs| - 1]) + if f.id == id && f.kind == FRAME_DATA then f.payload else []
  }

  lemma ScanSnoc(id: u64, start: Place, fs: seq<Frame>, f: Frame)
    ensures Scan(id, start, fs + [f])
         == if f.id == id then Advance(Scan(id, start, fs), f) else Scan(id, start, fs)
    ensures DataOf(id, fs + [f])
         == DataOf(id, fs) + if f.id == id && f.kind == FRAME_DATA then f.payload else []
  {
    assert (fs + [f])[..|fs|] == fs;
  }

  /** Going on from a well-ordered history: the past stays, and nothing follows CLOSE. */
  lemma {:induction false} ScanPrefix(id: u64, start: Place, fs: seq<Frame>, gs: seq<Frame>)
    requires fs <= gs && !Scan(id, start, gs).Bad?
    ensures !Scan(id, start, fs).Bad?
    ensures Scan(id, start, fs).Shut? ==> DataOf(id, gs) == DataOf(id, fs)
    ensures Scan(id, start, fs).Shut? ==> Scan(id, start, gs).Shut?
    decreases |gs|
  {
    if |fs| == |gs| {
      assert fs == gs;
    } else {
      ScanPrefix(id, start, fs, gs[..|gs| - 1]);
    }
  }

  lemma {:induction false} DataPrefix(id: u64, fs: seq<Frame>, gs: seq<Frame>)
    requires fs <= gs
    ensures DataOf(id, fs) <= DataOf(id, gs)
    decreases |gs|
  {
    if |fs| == |gs| {
      assert fs == gs;
    } else {
      DataPrefix(id, fs, gs[..|gs| - 1]);
    }
  }

  lemma {:induction false} NoFramesNoData(id: u64, fs: seq<Frame>)
    requires forall f | f in fs :: f.id != id
    ensures DataOf(id, fs) == []
    ensures forall start :: Scan(id, start, fs) == start
  {
    if fs != [] {
      NoFramesNoData(id, fs[..|fs| - 1]);
      assert fs[|fs| - 1] in fs;
    }
  }

  lemma {:induction false} FreshMeansNothing(id: u64, fs: seq<Frame>)
    requires Scan(id, Fresh, fs).Fresh?
    ensures DataOf(id, fs) == []
    ensures forall f | f in fs :: f.id != id
  {
    if fs != [] {
      FreshMeansNothing(id, fs[..|fs| - 1]);
      assert fs == fs[..|fs| - 1] + [fs[|fs| - 1]];
    }
  }

  lemma {:induction false} AcceptorNeverOpens(id: u64, fs: seq<Frame>, f: Frame)
    requires !Scan(id, Live, fs).Bad? && f in fs && f.id == id
    ensures f.kind != FRAME_OPEN
  {
    var last := fs[|fs| - 1];
    if f != last {
      assert fs == fs[..|fs| - 1] + [last];
      AcceptorNeverOpens(id, fs[..|fs| - 1], f);
    } else if f.kind == FRAME_OPEN {
      assert Advance(Scan(id, Live, fs[..|fs| - 1]), f).Bad? || Scan(id, Live, fs[..|fs| - 1]).Fresh?;
      NeverFreshAgain(id, fs[..|fs| - 1]);
    }
  }

  lemma {:induction false} NeverFreshAgain(id: u64, fs: seq<Frame>)
    ensures !Scan(id, Live, fs).Fresh?
  {
    if fs != [] {
      NeverFreshAgain(id, fs[..|fs| - 1]);
    }
  }

  // ---------------------------------------------------------------- channel contents

  function Payloads(ms: seq<Message>): seq<byte> {
    if ms == [] then []
    else
      var m := ms[|ms| - 1];
      Payloads(ms[..|ms| - 1]) + if m.Payload? then m.bytes else []
  }

  function Ends(ms: seq<Message>): nat {
    if ms == [] then 0 else Ends(ms[..|ms| - 1]) + if ms[|ms| - 1].End? then 1 else 0
  }

  lemma ChannelSnoc(ms: seq<Message>, m: Message)
    ensures Payloads(ms + [m]) == Payloads(ms) + if m.Payload? then m.bytes else []
    ensures Ends(ms + [m]) == Ends(ms) + if m.End? then 1 else 0
  {
    assert (ms + [m])[..|ms|] == ms;
  }

  lemma TakeOneMore(ms: seq<Message>, n: nat)
    requires n < |ms|
    ensures Payloads(ms[..n + 1]) == Payloads(ms[..n]) + if ms[n].Payload? then ms[n].bytes else []
    ensures Ends(ms[..n + 1]) == Ends(ms[..n]) + if ms[n].End? then 1 else 0
  {
    assert ms[..n + 1] == ms[..n] + [ms[n]];
    ChannelSnoc(ms[..n], ms[n]);
  }

  lemma {:induction false} ChannelPrefix(ms: seq<Message>, n: nat)
    requires n <= |ms|
    ensures Payloads(ms[..n]) <= Payloads(ms)
    ensures Ends(ms[..n]) <= Ends(ms)
    decreases |ms|
  {
    if n == |ms| {
      assert ms[..n] == ms;
    } else {
      assert ms[..|ms| - 1][..n] == ms[..n];
      ChannelPrefix(ms[..|ms| - 1], n);
    }
  }

  /** An end marker that is the only one and stands last is met only after everything else. */
  lemma OnlyEndIsLast(ms: seq<Message>, n: nat)
    requires Ends(ms) == 1 && ms[|ms| - 1].End? && n < |ms| && ms[n].End?
    ensures n == |ms| - 1
  {
    if n < |ms| - 1 {
      var front := ms[..|ms| - 1];
      TakeOneMore(front, n);
      assert front[..n + 1] == ms[..n + 1];
      ChannelPrefix(front, n + 1);
    }
  }
}
