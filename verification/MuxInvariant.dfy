/** What every action of a mux session keeps. */
module MuxInvariant {
  import opened Wrappers
  import opened Frames
  import opened MuxProtocol
  import opened MuxHistory

  // ---------------------------------------------------------------- one endpoint

  /** An opener starts before its OPEN; an acceptor may send DATA at once. */
  function StartOf(e: Endpoint, id: u64): Place { if id in e.mine then Fresh else Live }

  predicate WholeOn(tx: Transmit, id: u64, st: Stream) {
    tx.lock.Held? && tx.lock.id == id && st.call.Some? && tx.lock.sent == |Bytes(st.call.value)|
  }

  function PartOf(e: Endpoint): seq<byte> {
    if e.tx.lock.Held? && e.tx.lock.id in e.streams && e.streams[e.tx.lock.id].call.Some?
       && e.tx.lock.sent < |Bytes(e.streams[e.tx.lock.id].call.value)|
    then Bytes(e.streams[e.tx.lock.id].call.value)[..e.tx.lock.sent] else []
  }

  predicate LockOk(e: Endpoint) {
    e.tx.lock.Held? ==>
      && e.tx.lock.id in e.streams && e.streams[e.tx.lock.id].call.Some?
      && e.tx.lock.sent <= |Bytes(e.streams[e.tx.lock.id].call.value)|
      && (e.tx.broken ==> e.tx.lock.sent == 0)
  }

  /** The wire holds whole frames back to back and then a part of the lock holder's frame. */
  ghost predicate TransmitOk(e: Endpoint) {
    && AllWellFormed(Mux, e.tx.done)
    && e.tx.wire == EncodeAll(Mux, e.tx.done) + e.tx.tail
    && Unfinished(Mux, e.tx.tail)
    && LockOk(e)
    && (!e.tx.broken ==> e.tx.tail == PartOf(e))
    && forall f | f in e.tx.done :: f.id in e.streams && (f.kind != FRAME_DATA ==> f.payload == [])
  }

  predicate CallOk(id: u64, st: Stream) {
    match st.phase
    case Opening => st.call == Some(OpenFrame(id))
    case Ready => st.call.Some? ==> st.call.value == DataFrame(id, st.call.value.payload)
                                    && |st.call.value.payload| <= MAX_FRAME
    case Closing => st.call == Some(CloseFrame(id))
    case _ => st.call.None?
  }

  /** The close has begun, or is over. */
  predicate Ending(phase: Phase) { phase.Closing? || phase.Dropping? || phase.Closed? }

  /** Whole or halves, never both; the flag of the one live writer says whether the close has begun. */
  predicate GripOk(st: Stream) {
    var g := st.grip;
    && !(Entire in g.handles && (ReadEnd in g.handles || WriteEnd in g.handles))
    && (Entire in g.handles ==> (g.entireClosed <==> Ending(st.phase)))
    && (WriteEnd in g.handles ==> (g.halfClosed <==> Ending(st.phase)))
    && (Entire !in g.handles && WriteEnd !in g.handles ==> Ending(st.phase))
  }

  predicate PlaceOk(tx: Transmit, start: Place, id: u64, st: Stream) {
    var w := Scan(id, start, tx.done);
    && !w.Bad?
    && (!tx.broken ==>
          match st.phase
          case Opening => w == if WholeOn(tx, id, st) then Live else Fresh
          case Ready => w.Live?
          case Closing => w == if WholeOn(tx, id, st) then Shut else Live
          case _ => st.grip.detached || w.Shut?)
  }

  /** The bytes handed over are those acknowledged, plus at most one unacknowledged write. */
  predicate DataOk(tx: Transmit, id: u64, st: Stream) {
    && DataOf(id, tx.done) == st.acked + st.failed + Unreturned(tx, id, st)
    && (st.failed != [] ==> tx.broken)
  }

  function Unreturned(tx: Transmit, id: u64, st: Stream): seq<byte> {
    if WholeOn(tx, id, st) && st.phase.Ready? then st.call.value.payload else []
  }

  predicate SendOk(tx: Transmit, start: Place, id: u64, st: Stream) {
    CallOk(id, st) && GripOk(st) && PlaceOk(tx, start, id, st) && DataOk(tx, id, st)
  }

  function InFlight(rx: Receive, id: u64): seq<byte> {
    if rx.reader.Sending? && rx.reader.id == id && rx.reader.message.Payload? then rx.reader.message.bytes else []
  }

  function Bit(b: bool): nat { if b then 1 else 0 }

  /** At most one end marker ever: in the channel, or still owed by one of its possible senders. */
  predicate EndOk(rx: Receive, id: u64, st: Stream) {
    Ends(st.chan) + Bit(id in rx.table) + Bit(id in rx.ending) + Bit(rx.reader == Sending(id, End)) <= 1
  }

  predicate ReadOk(st: Stream) {
    && st.taken <= |st.chan|
    && st.out + st.buf == Payloads(st.chan[..st.taken])
    && (st.readClosed ==> st.buf == [])
  }

  predicate ChannelOk(rx: Receive, id: u64, st: Stream) {
    && Payloads(st.chan) + InFlight(rx, id) <= DataOf(id, rx.handled)
    && (id in rx.table ==> Payloads(st.chan) + InFlight(rx, id) == DataOf(id, rx.handled) && !st.readClosed)
  }

  /** Once CLOSE has found the stream, the channel holds all data and then the end marker. */
  predicate FinishedOk(rx: Receive, id: u64, st: Stream) {
    id in rx.finished ==>
      && CloseFrame(id) in rx.handled
      && id !in rx.table && id !in rx.ending
      && !(rx.reader.Sending? && rx.reader.id == id && rx.reader.message.Payload?)
      && Payloads(st.chan) == DataOf(id, rx.handled)
      && if rx.reader == Sending(id, End) then Ends(st.chan) == 0 && !st.readClosed
         else Ends(st.chan) == 1 && st.chan[|st.chan| - 1].End? && (st.readClosed ==> st.taken == |st.chan|)
  }

  predicate ReceiveOk(rx: Receive, id: u64, st: Stream) {
    ReadOk(st) && ChannelOk(rx, id, st) && EndOk(rx, id, st) && FinishedOk(rx, id, st)
  }

  predicate ShapeOk(e: Endpoint) {
    && e.rx.table <= e.streams.Keys && e.rx.ending <= e.streams.Keys && e.rx.finished <= e.streams.Keys
    && e.mine <= e.streams.Keys && e.mine !! e.opening
    && (e.rx.reader.Sending? ==> e.rx.reader.id in e.streams)
    && (e.rx.reader.Sending? && e.rx.reader.message.End? ==> e.rx.reader.id in e.rx.finished)
    && (e.rx.reader.Inserting? ==>
          var id := e.rx.reader.id;
          && id !in e.streams && id !in e.opening && OpenFrame(id) in e.rx.handled
          && DataOf(id, e.rx.handled) == [])
  }

  ghost predicate LocalInv(e: Endpoint) {
    && TransmitOk(e)
    && ShapeOk(e)
    && (forall id | id in e.streams :: SendOk(e.tx, StartOf(e, id), id, e.streams[id]))
    && (forall id | id in e.streams :: ReceiveOk(e.rx, id, e.streams[id]))
  }

  // ---------------------------------------------------------------- changing one part at a time

  lemma SetStreamKeeps(e: Endpoint, id: u64, st: Stream)
    requires LocalInv(e) && id in e.streams
    requires e.tx.lock.Held? && e.tx.lock.id == id ==> st.call == e.streams[id].call
    requires SendOk(e.tx, StartOf(e, id), id, st) && ReceiveOk(e.rx, id, st)
    ensures LocalInv(SetStream(e, id, st))
  {
    hide SendOk, ReceiveOk, Encode, AllWellFormed, EncodeAll, Unfinished, DataOf;
    var e' := SetStream(e, id, st);
    assert PartOf(e') == PartOf(e);
    assert TransmitOk(e') by {
      forall f | f in e'.tx.done ensures f.id in e'.streams && (f.kind != FRAME_DATA ==> f.payload == []) {}
    }
  }

  lemma SetReceiveKeeps(e: Endpoint, rx: Receive)
    requires LocalInv(e) && ShapeOk(e.(rx := rx))
    requires forall id | id in e.streams :: ReceiveOk(rx, id, e.streams[id])
    ensures LocalInv(e.(rx := rx))
  {
    hide SendOk, ReceiveOk, ShapeOk, Encode, AllWellFormed, EncodeAll, Unfinished;
    assert PartOf(e.(rx := rx)) == PartOf(e);
  }

  // ---------------------------------------------------------------- owners of streams

  lemma WriteKeeps(e: Endpoint, id: u64, handle: Handle, payload: seq<byte>)
    requires LocalInv(e)
    ensures LocalInv(DoWrite(e, id, handle, payload))
  {
    hide Encode, Scan, DataOf, ReceiveOk, TransmitOk, ShapeOk;
    if CanUse(e, id, handle) && !WriteClosed(e.streams[id].grip, handle) && |payload| <= MAX_FRAME {
      var st := e.streams[id];
      NotHolding(e, id);
      assert SendOk(e.tx, StartOf(e, id), id, st);
      var st' := st.(call := Some(DataFrame(id, payload)));
      ReadSideOnly(e.rx, id, st, st');
      SetStreamKeeps(e, id, st');
    }
  }

  lemma NotHolding(e: Endpoint, id: u64)
    requires LocalInv(e) && id in e.streams && e.streams[id].call.None?
    ensures !(e.tx.lock.Held? && e.tx.lock.id == id)
  {
  }

  lemma ReadSideOnly(rx: Receive, id: u64, st: Stream, st': Stream)
    requires ReceiveOk(rx, id, st)
    requires st'.chan == st.chan && st'.taken == st.taken && st'.buf == st.buf && st'.out == st.out
          && st'.readClosed == st.readClosed
    ensures ReceiveOk(rx, id, st')
  {
  }

  /** The flag of the live writer decides, so a close begins only where none has begun before. */
  lemma CloseOnceSends(tx: Transmit, start: Place, id: u64, st: Stream, handle: Handle, attached: bool, g: Grip)
    requires SendOk(tx, start, id, st) && AtRest(st) && !(tx.lock.Held? && tx.lock.id == id)
    requires handle in st.grip.handles && !handle.ReadEnd? && (g == st.grip || g == Without(st.grip, handle))
    ensures SendOk(tx, start, id, CloseOnce(st, id, handle, attached, g))
  {
    hide Encode, Scan, DataOf, GripOk, PlaceOk, DataOk, CallOk, CloseOnce;
    CloseOnceGrip(st, id, handle, attached, g);
    CloseOnceCall(id, st, handle, attached, g);
    CloseOncePlace(tx, start, id, st, handle, attached, g);
    CloseOnceData(tx, id, st, handle, attached, g);
  }

  lemma CloseOnceGrip(st: Stream, id: u64, handle: Handle, attached: bool, g: Grip)
    requires GripOk(st) && handle in st.grip.handles && !handle.ReadEnd?
    requires g == st.grip || g == Without(st.grip, handle)
    ensures GripOk(CloseOnce(st, id, handle, attached, g))
  {
  }

  lemma CloseOnceCall(id: u64, st: Stream, handle: Handle, attached: bool, g: Grip)
    requires CallOk(id, st) && AtRest(st)
    ensures CallOk(id, CloseOnce(st, id, handle, attached, g))
  {
  }

  lemma CloseOncePlace(tx: Transmit, start: Place, id: u64, st: Stream, handle: Handle, attached: bool, g: Grip)
    requires GripOk(st) && PlaceOk(tx, start, id, st) && AtRest(st) && !(tx.lock.Held? && tx.lock.id == id)
    requires handle in st.grip.handles && !handle.ReadEnd? && g.detached == st.grip.detached
    ensures PlaceOk(tx, start, id, CloseOnce(st, id, handle, attached, g))
  {
    hide Encode, Scan;
  }

  lemma CloseOnceData(tx: Transmit, id: u64, st: Stream, handle: Handle, attached: bool, g: Grip)
    requires DataOk(tx, id, st) && !(tx.lock.Held? && tx.lock.id == id)
    ensures DataOk(tx, id, CloseOnce(st, id, handle, attached, g))
  {
    hide Encode, DataOf;
  }

  lemma CloseOnceKeeps(e: Endpoint, id: u64, handle: Handle, attached: bool, g: Grip)
    requires LocalInv(e) && CanUse(e, id, handle)
    requires g == e.streams[id].grip || g == Without(e.streams[id].grip, handle)
    ensures LocalInv(SetStream(e, id, CloseOnce(e.streams[id], id, handle, attached, g)))
  {
    hide Encode, Scan, DataOf, SendOk, ReceiveOk, TransmitOk, ShapeOk;
    var st := e.streams[id];
    NotHolding(e, id);
    CloseOnceSends(e.tx, StartOf(e, id), id, st, handle, attached, g);
    ReadSideOnly(e.rx, id, st, CloseOnce(st, id, handle, attached, g));
    SetStreamKeeps(e, id, CloseOnce(st, id, handle, attached, g));
  }

  lemma CloseKeeps(e: Endpoint, id: u64, handle: Handle, attached: bool)
    requires LocalInv(e)
    ensures LocalInv(DoClose(e, id, handle, attached))
  {
    hide LocalInv, CloseOnce;
    if CanUse(e, id, handle) {
      CloseOnceKeeps(e, id, handle, attached, e.streams[id].grip);
    }
  }

  lemma DropKeeps(e: Endpoint, id: u64, handle: Handle, attached: bool)
    requires LocalInv(e)
    ensures LocalInv(DoDrop(e, id, handle, attached))
  {
    hide LocalInv, CloseOnce;
    if id in e.streams && handle.ReadEnd? {
      GripKeeps(e, id, Without(e.streams[id].grip, ReadEnd));
    } else if CanUse(e, id, handle) {
      CloseOnceKeeps(e, id, handle, attached, Without(e.streams[id].grip, handle));
    }
  }

  lemma GripSends(tx: Transmit, start: Place, id: u64, st: Stream, g: Grip)
    requires SendOk(tx, start, id, st) && g.detached == st.grip.detached && GripOk(st.(grip := g))
    ensures SendOk(tx, start, id, st.(grip := g))
  {
    hide Encode, Scan, DataOf, GripOk;
  }

  /** Handles that come and go without closing anything. */
  lemma GripKeeps(e: Endpoint, id: u64, g: Grip)
    requires LocalInv(e) && id in e.streams
    requires g == Without(e.streams[id].grip, ReadEnd) || (CanUse(e, id, Entire) && g == SplitGrip(e.streams[id].grip))
    ensures LocalInv(SetStream(e, id, e.streams[id].(grip := g)))
  {
    hide Encode, Scan, DataOf, ReceiveOk, TransmitOk, ShapeOk, PlaceOk, DataOk, CallOk;
    var st := e.streams[id];
    assert SendOk(e.tx, StartOf(e, id), id, st);
    GripSends(e.tx, StartOf(e, id), id, st, g);
    ReadSideOnly(e.rx, id, st, st.(grip := g));
    SetStreamKeeps(e, id, st.(grip := g));
  }

  lemma SplitKeeps(e: Endpoint, id: u64)
    requires LocalInv(e)
    ensures LocalInv(DoSplit(e, id))
  {
    hide LocalInv;
    if CanUse(e, id, Entire) {
      GripKeeps(e, id, SplitGrip(e.streams[id].grip));
    }
  }

  // ---------------------------------------------------------------- the writer mutex

  lemma AcquireKeeps(e: Endpoint, id: u64)
    requires LocalInv(e)
    ensures LocalInv(DoAcquire(e, id))
  {
    hide Scan, DataOf, ReceiveOk, ShapeOk, AllWellFormed, EncodeAll, Unfinished, Encode, CallOk;
    var e' := DoAcquire(e, id);
    if e' != e {
      assert PartOf(e') == [];
      forall x | x in e.streams ensures SendOk(e'.tx, StartOf(e', x), x, e.streams[x]) {
        assert SendOk(e.tx, StartOf(e, x), x, e.streams[x]);
      }
      assert ShapeOk(e') by { ShapeIgnoresTransmit(e, e'.tx); }
    }
  }

  lemma ShapeIgnoresTransmit(e: Endpoint, tx: Transmit)
    requires ShapeOk(e)
    ensures ShapeOk(e.(tx := tx))
  {
  }

  lemma ShapeIgnoresContents(e: Endpoint, id: u64, st: Stream)
    requires ShapeOk(e) && id in e.streams
    ensures ShapeOk(SetStream(e, id, st))
  {
  }

  lemma CallIsWellFormed(id: u64, st: Stream)
    requires CallOk(id, st) && st.call.Some?
    ensures WellFormed(Mux, st.call.value) && st.call.value.id == id
    ensures st.call.value.kind != FRAME_DATA ==> st.call.value.payload == []
  {
  }

  lemma WholeFrameOnWire(done: seq<Frame>, f: Frame, sent: nat)
    requires sent <= |Bytes(f)|
    ensures EncodeAll(Mux, done) + Bytes(f)[..sent] + Bytes(f)[sent..] == EncodeAll(Mux, done + [f])
  {
    hide Encode, EncodeAll;
    calc {
      EncodeAll(Mux, done) + Bytes(f)[..sent] + Bytes(f)[sent..];
      { assert Bytes(f)[..sent] + Bytes(f)[sent..] == Bytes(f); }
      EncodeAll(Mux, done) + Bytes(f);
      { EncodeAllOne(Mux, f); EncodeAllAppend(Mux, done, [f]); }
      EncodeAll(Mux, done + [f]);
    }
  }

  lemma HolderFacts(e: Endpoint)
    requires LocalInv(e) && e.tx.lock.Held? && !e.tx.broken
    ensures e.tx.lock.id in e.streams && e.streams[e.tx.lock.id].call.Some?
    ensures var f := e.streams[e.tx.lock.id].call.value;
            && WellFormed(Mux, f) && f.id == e.tx.lock.id && (f.kind != FRAME_DATA ==> f.payload == [])
            && (e.tx.lock.sent < |Bytes(f)| ==> e.tx.tail == Bytes(f)[..e.tx.lock.sent])
  {
    hide Scan, DataOf, ReceiveOk, ShapeOk, AllWellFormed, EncodeAll, Encode, PlaceOk, DataOk, CallOk, WellFormed, Unfinished;
    var id := e.tx.lock.id;
    assert SendOk(e.tx, StartOf(e, id), id, e.streams[id]);
    CallIsWellFormed(id, e.streams[id]);
  }

  /** Pushing the bytes of the holder's frame keeps the wire a concatenation of whole frames. */
  lemma PushOnWire(e: Endpoint, n: nat)
    requires LocalInv(e) && DoPush(e, n) != e
    ensures TransmitOk(DoPush(e, n))
  {
    hide Scan, DataOf, SendOk, ReceiveOk, ShapeOk, AllWellFormed, EncodeAll, Encode, WellFormed, Unfinished;
    var Held(id, sent) := e.tx.lock;
    HolderFacts(e);
    var f := e.streams[id].call.value;
    if sent + n == |Bytes(f)| {
      PushLast(e.tx, f, sent, n);
      WellFormedSnoc(e.tx.done, f);
      assert PartOf(DoPush(e, n)) == [];
    } else {
      PushPart(e.tx, f, sent, n);
    }
  }

  lemma PushLast(tx: Transmit, f: Frame, sent: nat, n: nat)
    requires tx.wire == EncodeAll(Mux, tx.done) + tx.tail && WellFormed(Mux, f)
    requires n > 0 && sent + n == |Bytes(f)| && tx.tail == Bytes(f)[..sent]
    ensures tx.wire + Bytes(f)[sent..sent + n] == EncodeAll(Mux, tx.done + [f]) + []
    ensures Unfinished(Mux, [])
  {
    hide EncodeAll, WellFormed, Encode;
    assert Bytes(f)[sent..sent + n] == Bytes(f)[sent..];
    WholeFrameOnWire(tx.done, f, sent);
    assert [] < Encode(Mux, f);
  }

  lemma PushPart(tx: Transmit, f: Frame, sent: nat, n: nat)
    requires tx.wire == EncodeAll(Mux, tx.done) + tx.tail && WellFormed(Mux, f)
    requires sent + n < |Bytes(f)| && tx.tail == Bytes(f)[..sent]
    ensures tx.wire + Bytes(f)[sent..sent + n] == EncodeAll(Mux, tx.done) + Bytes(f)[..sent + n]
    ensures Unfinished(Mux, Bytes(f)[..sent + n])
  {
    hide EncodeAll, WellFormed, Encode;
    assert Bytes(f)[..sent] + Bytes(f)[sent..sent + n] == Bytes(f)[..sent + n];
    assert Bytes(f)[..sent + n] < Encode(Mux, f);
  }

  lemma WellFormedSnoc(fs: seq<Frame>, f: Frame)
    requires AllWellFormed(Mux, fs) && WellFormed(Mux, f)
    ensures AllWellFormed(Mux, fs + [f])
  {
  }

  lemma PushKeeps(e: Endpoint, n: nat)
    requires LocalInv(e)
    ensures LocalInv(DoPush(e, n))
  {
    hide Scan, DataOf, ReceiveOk, ShapeOk, TransmitOk, Encode, CallOk;
    var e' := DoPush(e, n);
    if e' != e {
      PushOnWire(e, n);
      ShapeIgnoresTransmit(e, e'.tx);
      forall x | x in e.streams ensures SendOk(e'.tx, StartOf(e', x), x, e.streams[x]) {
        PushSends(e, n, x);
      }
    }
  }

  lemma PushSends(e: Endpoint, n: nat, x: u64)
    requires LocalInv(e) && DoPush(e, n) != e && x in e.streams
    ensures SendOk(DoPush(e, n).tx, StartOf(e, x), x, e.streams[x])
  {
    hide Scan, DataOf, ReceiveOk, ShapeOk, TransmitOk, Encode, WellFormed, SendOk;
    HolderFacts(e);
    PushSendsOne(e.tx, DoPush(e, n).tx, StartOf(e, x), x, e.streams[x], e.streams[e.tx.lock.id].call.value);
  }

  lemma PushSendsOne(tx: Transmit, tx': Transmit, start: Place, x: u64, st: Stream, f: Frame)
    requires SendOk(tx, start, x, st)
    requires !tx.broken && !tx'.broken && tx.lock.Held? && tx'.lock.Held?
    requires tx.lock.id == tx'.lock.id == f.id && tx.lock.sent < tx'.lock.sent <= |Bytes(f)|
    requires x == f.id ==> st.call == Some(f)
    requires tx'.done == if tx'.lock.sent == |Bytes(f)| then tx.done + [f] else tx.done
    ensures SendOk(tx', start, x, st)
  {
    hide Scan, DataOf, Encode, DataOk;
    ScanSnoc(x, start, tx.done, f);
    assert DataOk(tx', x, st) by { PushData(tx, tx', x, st, f); }
  }

  lemma PushData(tx: Transmit, tx': Transmit, x: u64, st: Stream, f: Frame)
    requires DataOk(tx, x, st) && CallOk(x, st)
    requires !tx.broken && !tx'.broken && tx.lock.Held? && tx'.lock.Held?
    requires tx.lock.id == tx'.lock.id == f.id && tx.lock.sent < tx'.lock.sent <= |Bytes(f)|
    requires x == f.id ==> st.call == Some(f)
    requires tx'.done == if tx'.lock.sent == |Bytes(f)| then tx.done + [f] else tx.done
    ensures DataOk(tx', x, st)
  {
    hide Scan, DataOf, Encode;
    ScanSnoc(x, Live, tx.done, f);
  }

  /** The transport accepted the whole frame: the call returns and the mutex is released. */
  lemma FinishKeeps(e: Endpoint)
    requires LocalInv(e)
    ensures LocalInv(DoFinish(e))
  {
    hide Scan, DataOf, SendOk, ReceiveOk, ShapeOk, TransmitOk, Encode;
    var e' := DoFinish(e);
    if e' != e {
      var id := e.tx.lock.id;
      assert TransmitOk(e') by { ReleaseOnWire(e, e'.tx, e'.streams[id]); }
      assert ShapeOk(e') by { ShapeIgnoresTransmit(e, e'.tx); ShapeIgnoresContents(e.(tx := e'.tx), id, e'.streams[id]); }
      assert ReceiveOk(e'.rx, id, e'.streams[id]) by { ReadSideOnly(e.rx, id, e.streams[id], e'.streams[id]); }
      forall x | x in e.streams ensures SendOk(e'.tx, StartOf(e', x), x, e'.streams[x]) {
        FinishSends(e, x);
      }
    }
  }

  lemma BystanderSends(tx: Transmit, tx': Transmit, start: Place, x: u64, st: Stream)
    requires SendOk(tx, start, x, st)
    requires tx'.done == tx.done && (tx.broken ==> tx'.broken)
    requires !(tx.lock.Held? && tx.lock.id == x) && !(tx'.lock.Held? && tx'.lock.id == x)
    ensures SendOk(tx', start, x, st)
  {
    hide Scan, DataOf, Encode;
  }

  lemma FinishSends(e: Endpoint, x: u64)
    requires LocalInv(e) && x in e.streams && DoFinish(e) != e
    ensures SendOk(DoFinish(e).tx, StartOf(e, x), x, DoFinish(e).streams[x])
  {
    hide Scan, DataOf, ReceiveOk, ShapeOk, TransmitOk, Encode, DataOk;
    var e', st := DoFinish(e), e.streams[x];
    assert SendOk(e.tx, StartOf(e, x), x, st);
    if x != e.tx.lock.id {
      BystanderSends(e.tx, e'.tx, StartOf(e, x), x, st);
    } else {
      FailedOnlyIfBroken(e);
      ReturnedData(e.tx, e'.tx, x, st, e'.streams[x]);
    }
  }

  lemma ReturnedData(tx: Transmit, tx': Transmit, x: u64, st: Stream, st': Stream)
    requires DataOk(tx, x, st) && tx'.done == tx.done && tx'.lock.Free?
    requires WholeOn(tx, x, st) && st.failed == [] && st'.failed == []
    requires st'.acked == if st.phase.Ready? then st.acked + st.call.value.payload else st.acked
    ensures DataOk(tx', x, st')
  {
    hide DataOf, Encode;
  }

  lemma FailSends(e: Endpoint, x: u64)
    requires LocalInv(e) && x in e.streams && DoFail(e) != e
    ensures SendOk(DoFail(e).tx, StartOf(e, x), x, DoFail(e).streams[x])
  {
    hide Scan, DataOf, ReceiveOk, ShapeOk, TransmitOk, Encode, DataOk;
    var e', st := DoFail(e), e.streams[x];
    assert SendOk(e.tx, StartOf(e, x), x, st);
    if x != e.tx.lock.id {
      BystanderSends(e.tx, e'.tx, StartOf(e, x), x, st);
    } else {
      FailedData(e.tx, e'.tx, x, st, e'.streams[x]);
    }
  }

  lemma FailedData(tx: Transmit, tx': Transmit, x: u64, st: Stream, st': Stream)
    requires DataOk(tx, x, st) && tx'.done == tx.done && tx'.lock.Free? && tx'.broken
    requires st'.acked == st.acked
    requires st'.failed == st.failed + Unreturned(tx, x, st)
    ensures DataOk(tx', x, st')
  {
    hide DataOf, Encode;
  }

  lemma FailedOnlyIfBroken(e: Endpoint)
    requires LocalInv(e) && e.tx.lock.Held? && Whole(e, e.tx.lock.id)
    ensures !e.tx.broken && e.streams[e.tx.lock.id].failed == []
  {
    assert SendOk(e.tx, StartOf(e, e.tx.lock.id), e.tx.lock.id, e.streams[e.tx.lock.id]);
  }

  lemma ReleaseOnWire(e: Endpoint, tx: Transmit, st: Stream)
    requires LocalInv(e) && e.tx.lock.Held?
    requires tx.wire == e.tx.wire && tx.done == e.tx.done && tx.tail == e.tx.tail && tx.lock.Free?
    requires tx.broken || (!e.tx.broken && Whole(e, e.tx.lock.id))
    ensures TransmitOk(SetStream(e.(tx := tx), e.tx.lock.id, st))
  {
    hide Scan, DataOf, SendOk, ReceiveOk, ShapeOk, AllWellFormed, EncodeAll, Encode, Unfinished;
  }

  /** The transport failed, before or after the last byte of the frame was taken. */
  lemma FailKeeps(e: Endpoint)
    requires LocalInv(e)
    ensures LocalInv(DoFail(e))
  {
    hide Scan, DataOf, SendOk, ReceiveOk, ShapeOk, TransmitOk, Encode;
    var e' := DoFail(e);
    if e' != e {
      var id := e.tx.lock.id;
      assert TransmitOk(e') by { ReleaseOnWire(e, e'.tx, e'.streams[id]); }
      assert ShapeOk(e') by { ShapeIgnoresTransmit(e, e'.tx); ShapeIgnoresContents(e.(tx := e'.tx), id, e'.streams[id]); }
      assert ReceiveOk(e'.rx, id, e'.streams[id]) by { ReadSideOnly(e.rx, id, e.streams[id], e'.streams[id]); }
      forall x | x in e.streams ensures SendOk(e'.tx, StartOf(e', x), x, e'.streams[x]) {
        FailSends(e, x);
      }
    }
  }

  // ---------------------------------------------------------------- the receive side

  /** Losing senders, stopping the reader or marking the session closed only removes obligations. */
  lemma WeakerReceive(rx: Receive, rx': Receive, id: u64, st: Stream)
    requires ReceiveOk(rx, id, st)
    requires rx'.table <= rx.table && rx'.ending == rx.ending && rx'.handled == rx.handled
          && rx'.finished == rx.finished
    requires rx'.reader == rx.reader || (!rx.reader.Sending? && !rx'.reader.Sending?)
    ensures ReceiveOk(rx', id, st)
  {
    hide DataOf, Payloads, Ends;
  }

  lemma WeakerReceiveKeeps(e: Endpoint, rx: Receive)
    requires LocalInv(e)
    requires rx.table <= e.rx.table && rx.ending == e.rx.ending && rx.handled == e.rx.handled
          && rx.finished == e.rx.finished
    requires rx.reader == e.rx.reader || (rx.reader.Stopped? && !e.rx.reader.Sending?)
    ensures LocalInv(e.(rx := rx))
  {
    hide SendOk, ReceiveOk, TransmitOk, DataOf;
    forall id | id in e.streams ensures ReceiveOk(rx, id, e.streams[id]) {
      WeakerReceive(e.rx, rx, id, e.streams[id]);
    }
    SetReceiveKeeps(e, rx);
  }

  lemma QuietMovesKeep(e: Endpoint)
    requires LocalInv(e)
    ensures LocalInv(DoStopReader(e)) && LocalInv(DoSwapClosed(e)) && LocalInv(DoDropSession(e))
  {
    hide LocalInv;
    WeakerReceiveKeeps(e, e.rx);
    if e.rx.reader.Idle? {
      WeakerReceiveKeeps(e, e.rx.(reader := Stopped));
    }
    WeakerReceiveKeeps(e, e.rx.(stage := Swapped));
    if e.rx.reader.Idle? || e.rx.reader.Stopped? {
      WeakerReceiveKeeps(e, e.rx.(reader := Stopped, table := {}, gone := true));
    }
  }

  lemma DropEntryKeeps(e: Endpoint, id: u64)
    requires LocalInv(e)
    ensures LocalInv(DoDropEntry(e, id))
  {
    hide TransmitOk, ShapeOk, ReceiveOk, Scan, DataOf, Encode;
    if id in e.streams && e.streams[id].phase.Dropping? {
      var rx := e.rx.(table := e.rx.table - {id});
      WeakerReceiveKeeps(e, rx);
      var e1, st := e.(rx := rx), e.streams[id];
      assert SendOk(e1.tx, StartOf(e1, id), id, st) && ReceiveOk(e1.rx, id, st);
      NotHolding(e1, id);
      ReadSideOnly(rx, id, st, st.(phase := Closed));
      SetStreamKeeps(e1, id, st.(phase := Closed));
    }
  }

  lemma TakeTableKeeps(e: Endpoint)
    requires LocalInv(e)
    ensures LocalInv(DoTakeTable(e))
  {
    hide SendOk, TransmitOk, DataOf, Payloads, Ends;
    if e.rx.stage.Swapped? {
      var rx := DoTakeTable(e).rx;
      forall id | id in e.streams ensures ReceiveOk(rx, id, e.streams[id]) {
        assert ReceiveOk(e.rx, id, e.streams[id]);
      }
      SetReceiveKeeps(e, rx);
    }
  }

  /** A message enters the channel of `id`; its sender is thereby used up. */
  lemma AppendKeeps(e: Endpoint, rx: Receive, id: u64, m: Message)
    requires LocalInv(e) && id in e.streams && ShapeOk(e.(rx := rx))
    requires forall x | x in e.streams && x != id :: ReceiveOk(rx, x, e.streams[x])
    requires ReceiveOk(rx, id, e.streams[id].(chan := e.streams[id].chan + [m]))
    ensures LocalInv(Append(e.(rx := rx), id, m))
  {
    hide TransmitOk, ShapeOk, ReceiveOk, PlaceOk, DataOf, Scan, Encode;
    var st := e.streams[id].(chan := e.streams[id].chan + [m]);
    var e' := Append(e.(rx := rx), id, m);
    assert SendOk(e.tx, StartOf(e, id), id, e.streams[id]);
    assert SendOk(e.tx, StartOf(e, id), id, st) by { SendSideOnly(e.tx, StartOf(e, id), id, e.streams[id], st); }
    assert TransmitOk(e') by { TransmitIgnoresReading(e, rx, id, st); }
    ShapeIgnoresContents(e.(rx := rx), id, st);
  }

  lemma SendSideOnly(tx: Transmit, start: Place, id: u64, st: Stream, st': Stream)
    requires SendOk(tx, start, id, st)
    requires st'.phase == st.phase && st'.call == st.call && st'.acked == st.acked && st'.failed == st.failed
          && st'.grip == st.grip
    ensures SendOk(tx, start, id, st')
  {
    hide Scan, DataOf, Encode;
  }

  lemma TransmitIgnoresReading(e: Endpoint, rx: Receive, id: u64, st: Stream)
    requires TransmitOk(e) && id in e.streams && st.call == e.streams[id].call
    ensures TransmitOk(SetStream(e.(rx := rx), id, st))
  {
    hide AllWellFormed, EncodeAll, Encode, Unfinished;
    assert PartOf(SetStream(e.(rx := rx), id, st)) == PartOf(e);
  }

  lemma DeliverKeeps(e: Endpoint)
    requires LocalInv(e)
    ensures LocalInv(DoDeliver(e))
  {
    hide SendOk, TransmitOk, DataOf;
    if e.rx.reader.Sending? && e.rx.reader.id in e.streams {
      var rx, id, m := e.rx.(reader := Idle), e.rx.reader.id, e.rx.reader.message;
      forall x | x in e.streams && x != id ensures ReceiveOk(rx, x, e.streams[x]) {
        OthersUnmoved(e.rx, rx, x, e.streams[x]);
      }
      assert ReceiveOk(e.rx, id, e.streams[id]);
      DeliverOne(e.rx, id, e.streams[id]);
      AppendKeeps(e, rx, id, m);
    }
  }

  lemma OthersUnmoved(rx: Receive, rx': Receive, id: u64, st: Stream)
    requires ReceiveOk(rx, id, st)
    requires id in rx'.table <==> id in rx.table
    requires id in rx'.ending <==> id in rx.ending
    requires id in rx'.finished <==> id in rx.finished
    requires rx'.handled == rx.handled
    requires !(rx.reader.Sending? && rx.reader.id == id) && !(rx'.reader.Sending? && rx'.reader.id == id)
    ensures ReceiveOk(rx', id, st)
  {
    hide DataOf, Payloads, Ends;
  }

  lemma DeliverOne(rx: Receive, id: u64, st: Stream)
    requires ReceiveOk(rx, id, st) && rx.reader.Sending? && rx.reader.id == id
    requires rx.reader.message.End? ==> id in rx.finished
    ensures ReceiveOk(rx.(reader := Idle), id, st.(chan := st.chan + [rx.reader.message]))
  {
    hide DataOf, Payloads, Ends;
    ChannelSnoc(st.chan, rx.reader.message);
    assert (st.chan + [rx.reader.message])[..st.taken] == st.chan[..st.taken];
  }

  lemma SendEndKeeps(e: Endpoint, id: u64)
    requires LocalInv(e)
    ensures LocalInv(DoSendEnd(e, id))
  {
    hide SendOk, TransmitOk, DataOf, Payloads, Ends;
    if id in e.rx.ending && id in e.streams {
      var rx := e.rx.(ending := e.rx.ending - {id});
      forall x | x in e.streams && x != id ensures ReceiveOk(rx, x, e.streams[x]) {
        assert ReceiveOk(e.rx, x, e.streams[x]);
      }
      var st := e.streams[id];
      assert ReceiveOk(e.rx, id, st);
      ChannelSnoc(st.chan, End);
      assert (st.chan + [End])[..st.taken] == st.chan[..st.taken];
      AppendKeeps(e, rx, id, End);
    }
  }

  // ---------------------------------------------------------------- reading

  lemma ReadingKeeps(e: Endpoint, id: u64, st: Stream)
    requires LocalInv(e) && id in e.streams && ReceiveOk(e.rx, id, st)
    requires st.phase == e.streams[id].phase && st.call == e.streams[id].call
          && st.acked == e.streams[id].acked && st.failed == e.streams[id].failed
          && st.grip == e.streams[id].grip
    ensures LocalInv(SetStream(e, id, st))
  {
    hide SendOk, ReceiveOk, TransmitOk, ShapeOk;
    SendSideOnly(e.tx, StartOf(e, id), id, e.streams[id], st);
    SetStreamKeeps(e, id, st);
  }

  lemma RecvKeeps(e: Endpoint, id: u64)
    requires LocalInv(e)
    ensures LocalInv(DoRecv(e, id))
  {
    hide SendOk, TransmitOk, ShapeOk, DataOf, Payloads, Ends;
    if DoRecv(e, id) != e {
      var st, st' := e.streams[id], DoRecv(e, id).streams[id];
      assert ReceiveOk(e.rx, id, st);
      TakeOneMore(st.chan, st.taken);
      ChannelPrefix(st.chan, st.taken + 1);
      if id in e.rx.finished && st'.readClosed && e.rx.reader != Sending(id, End) {
        OnlyEndIsLast(st.chan, st.taken);
      }
      ReadingKeeps(e, id, st');
    }
  }

  lemma DisconnectedKeeps(e: Endpoint, id: u64)
    requires LocalInv(e)
    ensures LocalInv(DoDisconnected(e, id))
  {
    hide SendOk, TransmitOk, ShapeOk, DataOf, Payloads, Ends;
    if DoDisconnected(e, id) != e {
      assert ReceiveOk(e.rx, id, e.streams[id]);
      ReadingKeeps(e, id, e.streams[id].(readClosed := true));
    }
  }

  lemma ReadOutKeeps(e: Endpoint, id: u64, n: nat)
    requires LocalInv(e)
    ensures LocalInv(DoReadOut(e, id, n))
  {
    hide SendOk, TransmitOk, ShapeOk, DataOf, Payloads, Ends, ReadOk;
    if CanRead(e, id) && n <= |e.streams[id].buf| {
      var st := e.streams[id];
      assert ReceiveOk(e.rx, id, st);
      MoveOut(st, n);
      ReadingKeeps(e, id, st.(out := st.out + st.buf[..n], buf := st.buf[n..]));
    }
  }

  lemma MoveOut(st: Stream, n: nat)
    requires ReadOk(st) && n <= |st.buf|
    ensures ReadOk(st.(out := st.out + st.buf[..n], buf := st.buf[n..]))
  {
    hide Payloads;
    assert st.buf[..n] + st.buf[n..] == st.buf;
  }

  // ---------------------------------------------------------------- new streams

  lemma NewStreamOk(rx: Receive, id: u64, phase: Phase, call: Option<Frame>)
    requires id !in rx.ending && id !in rx.finished && !(rx.reader.Sending? && rx.reader.id == id)
    requires DataOf(id, rx.handled) == []
    ensures ReceiveOk(rx, id, NewStream(phase, call))
  {
    var st := NewStream(phase, call);
    assert st.chan[..0] == [];
  }

  /** A stream joins the table before any of its data is dispatched. */
  lemma AddStreamKeeps(e: Endpoint, e': Endpoint, id: u64, st: Stream)
    requires LocalInv(e) && id !in e.streams && e'.streams == e.streams[id := st]
    requires e'.tx == e.tx && e'.mine - {id} == e.mine && ShapeOk(e')
    requires e'.rx == e.rx.(reader := e'.rx.reader, table := e.rx.table + {id})
    requires e'.rx.reader == e.rx.reader || (e.rx.reader.Inserting? && e'.rx.reader.Idle?)
    requires SendOk(e.tx, StartOf(e', id), id, st) && ReceiveOk(e'.rx, id, st)
    ensures LocalInv(e')
  {
    hide Scan, DataOf, Encode, SendOk, ReceiveOk, ShapeOk, EncodeAll, AllWellFormed, Unfinished;
    assert PartOf(e') == PartOf(e);
    forall x | x in e'.streams
      ensures SendOk(e'.tx, StartOf(e', x), x, e'.streams[x]) && ReceiveOk(e'.rx, x, e'.streams[x])
    {
      if x != id {
        assert SendOk(e.tx, StartOf(e, x), x, e.streams[x]) && ReceiveOk(e.rx, x, e.streams[x]);
        SameForOthers(e.rx, e'.rx, id, x, e.streams[x]);
      }
    }
  }

  lemma SameForOthers(rx: Receive, rx': Receive, id: u64, x: u64, st: Stream)
    requires ReceiveOk(rx, x, st) && x != id
    requires rx' == rx.(reader := rx'.reader, table := rx.table + {id})
    requires rx'.reader == rx.reader || (rx.reader.Inserting? && rx'.reader.Idle?)
    ensures ReceiveOk(rx', x, st)
  {
    hide DataOf, Payloads, Ends;
  }

  lemma NothingSent(e: Endpoint, id: u64, start: Place)
    requires LocalInv(e) && id !in e.streams
    ensures Scan(id, start, e.tx.done) == start && DataOf(id, e.tx.done) == []
    ensures !(e.tx.lock.Held? && e.tx.lock.id == id)
  {
    NoFramesNoData(id, e.tx.done);
  }

  lemma OpenInsertKeeps(e: Endpoint, id: u64)
    requires LocalInv(e)
    requires id in e.opening ==> id !in e.streams && DataOf(id, e.rx.handled) == []
    ensures LocalInv(DoOpenInsert(e, id))
  {
    hide Scan, DataOf, Encode, TransmitOk, ReceiveOk;
    if id in e.opening {
      var e', st := DoOpenInsert(e, id), NewStream(Opening, Some(OpenFrame(id)));
      NothingSent(e, id, Fresh);
      NewStreamOk(e'.rx, id, Opening, Some(OpenFrame(id)));
      assert SendOk(e.tx, Fresh, id, st);
      AddStreamKeeps(e, e', id, st);
    }
  }

  lemma InsertKeeps(e: Endpoint)
    requires LocalInv(e)
    ensures LocalInv(DoInsert(e))
  {
    hide Scan, DataOf, Encode, TransmitOk, ReceiveOk;
    if e.rx.reader.Inserting? {
      var e', id, st := DoInsert(e), e.rx.reader.id, NewStream(Ready, None);
      NothingSent(e, id, Live);
      NewStreamOk(e'.rx, id, Ready, None);
      assert SendOk(e.tx, Live, id, st);
      AddStreamKeeps(e, e', id, st);
    }
  }

  // ---------------------------------------------------------------- the two endpoints together

  /** What `e` has dispatched is what `p` has sent, and each id belongs to the side that opened it. */
  ghost predicate Link(e: Endpoint, p: Endpoint) {
    && e.rx.handled <= p.tx.done
    && EncodeAll(Mux, e.rx.handled) <= p.tx.wire
    && e.rx.pos == |EncodeAll(Mux, e.rx.handled)|
    && (forall id | id in e.streams :: id in e.mine || OpenFrame(id) in e.rx.handled)
    && (e.mine + e.opening) !! (p.mine + p.opening)
  }

  ghost predicate Inv(s: System) {
    && LocalInv(s.near) && LocalInv(s.far)
    && Link(s.near, s.far) && Link(s.far, s.near)
    && s.near.mine + s.near.opening <= s.used && s.far.mine + s.far.opening <= s.used
  }

  lemma PlaceOfAll(p: Endpoint, id: u64)
    requires LocalInv(p)
    ensures !Scan(id, StartOf(p, id), p.tx.done).Bad?
  {
    hide Scan, DataOf, Encode, DataOk, CallOk, ReceiveOk, ShapeOk;
    if id in p.streams {
      assert SendOk(p.tx, StartOf(p, id), id, p.streams[id]);
    } else {
      NothingSent(p, id, StartOf(p, id));
    }
  }

  /** An OPEN on the wire was sent by the side that owns the id. */
  lemma OpensAreMine(p: Endpoint, id: u64)
    requires LocalInv(p) && OpenFrame(id) in p.tx.done
    ensures id in p.mine
  {
    hide Scan, DataOf, TransmitOk, ReceiveOk, SendOk, ShapeOk;
    PlaceOfAll(p, id);
    if id !in p.mine {
      AcceptorNeverOpens(id, p.tx.done, OpenFrame(id));
    }
  }

  /** The next whole frame on the peer's wire is the next frame the peer sent. */
  lemma NextFrameIsNextSent(e: Endpoint, p: Endpoint)
    requires Link(e, p) && TransmitOk(p) && e.rx.pos <= |p.tx.wire|
    requires DecodeOne(Mux, p.tx.wire[e.rx.pos..]).Some?
    ensures var f := DecodeOne(Mux, p.tx.wire[e.rx.pos..]).value;
            && e.rx.handled + [f] <= p.tx.done
            && EncodeAll(Mux, e.rx.handled + [f]) <= p.tx.wire
            && |EncodeAll(Mux, e.rx.handled + [f])| == e.rx.pos + |Bytes(f)|
  {
    hide Encode, EncodeAll, DecodeOne, Unfinished, WellFormed, LockOk;
    var rest := p.tx.wire[e.rx.pos..];
    var f := DecodeOne(Mux, rest).value;
    EncodeOfDecodeOne(Mux, rest);
    var got := e.rx.handled + [f];
    EncodeAllOne(Mux, f);
    EncodeAllAppend(Mux, e.rx.handled, [f]);
    assert p.tx.wire == EncodeAll(Mux, e.rx.handled) + rest;
    assert EncodeAll(Mux, got) <= p.tx.wire;
    assert AllWellFormed(Mux, got) by {
      forall g | g in got ensures WellFormed(Mux, g) {
        if g in e.rx.handled { assert g in p.tx.done; }
      }
    }
    FramesOnWireArePrefix(Mux, got, p.tx.done, p.tx.tail);
  }
}
