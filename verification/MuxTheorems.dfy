/** What holds after every run of a mux session. */
module MuxTheorems {
  import opened Wrappers
  import opened Frames
  import opened MuxProtocol
  import opened MuxHistory
  import opened MuxInvariant

  // ---------------------------------------------------------------- reading the peer's frames

  lemma {:induction false} ClosedStays(id: u64, start: Place, fs: seq<Frame>)
    requires CloseFrame(id) in fs
    ensures Scan(id, start, fs).Shut? || Scan(id, start, fs).Bad?
  {
    if CloseFrame(id) != fs[|fs| - 1] {
      assert fs == fs[..|fs| - 1] + [fs[|fs| - 1]];
      ClosedStays(id, start, fs[..|fs| - 1]);
    }
  }

  /** The order of the peer's frames restricts what can be dispatched next. */
  lemma NextFrameFacts(e: Endpoint, p: Endpoint, f: Frame)
    requires LocalInv(p) && Link(e, p) && e.rx.handled + [f] <= p.tx.done
    ensures WellFormed(Mux, f) && (f.kind != FRAME_DATA ==> f.payload == [])
    ensures CloseFrame(f.id) !in e.rx.handled
    ensures f.kind == FRAME_OPEN ==>
              && f.id in p.mine && f.id !in e.streams && f.id !in e.opening
              && DataOf(f.id, e.rx.handled + [f]) == []
  {
    hide Scan, DataOf, Encode, EncodeAll, SendOk, ReceiveOk, ShapeOk;
    var id, start, seen := f.id, StartOf(p, f.id), e.rx.handled;
    assert f in p.tx.done by { assert (seen + [f])[|seen|] == f; }
    PlaceOfAll(p, id);
    ScanPrefix(id, start, seen + [f], p.tx.done);
    ScanSnoc(id, start, seen, f);
    if CloseFrame(id) in seen {
      ClosedStays(id, start, seen);
    }
    if f.kind == FRAME_OPEN {
      OpensAreMine(p, id);
      FreshMeansNothing(id, seen);
    }
  }

  lemma ReadFrameReceives(e: Endpoint, p: Endpoint, f: Frame, x: u64)
    requires LocalInv(e) && LocalInv(p) && Link(e, p) && e.rx.handled + [f] <= p.tx.done
    requires x in e.streams && e.rx.reader.Idle?
    ensures ReceiveOk(Dispatched(e.rx, f), x, e.streams[x])
  {
    hide Scan, DataOf, Encode, EncodeAll, SendOk, ShapeOk, TransmitOk, Payloads, Ends;
    var st, rx := e.streams[x], Dispatched(e.rx, f);
    NextFrameFacts(e, p, f);
    assert ReceiveOk(e.rx, x, st);
    ScanSnoc(x, Live, e.rx.handled, f);
  }

  function Dispatched(rx: Receive, f: Frame): Receive {
    var rx' := rx.(pos := rx.pos + |Bytes(f)|, handled := rx.handled + [f]);
    if f.kind == FRAME_OPEN then rx'.(reader := if rx.stage.Up? then Inserting(f.id) else Idle)
    else if f.kind == FRAME_DATA then
      rx'.(reader := if f.id in rx.table then Sending(f.id, Payload(f.payload)) else Idle)
    else if f.id in rx.table then
      rx'.(reader := Sending(f.id, End), table := rx.table - {f.id}, finished := rx.finished + {f.id})
    else rx'
  }

  lemma ReadFrameKeeps(e: Endpoint, p: Endpoint)
    requires LocalInv(e) && LocalInv(p) && Link(e, p)
    ensures LocalInv(DoReadFrame(e, p.tx.wire)) && Link(DoReadFrame(e, p.tx.wire), p)
    ensures Link(p, e) ==> Link(p, DoReadFrame(e, p.tx.wire))
    ensures DoReadFrame(e, p.tx.wire).mine == e.mine && DoReadFrame(e, p.tx.wire).opening == e.opening
  {
    hide Scan, DataOf, Encode, EncodeAll, SendOk, ReceiveOk, Payloads, Ends, WellFormed, DecodeOne, TransmitOk;
    var e' := DoReadFrame(e, p.tx.wire);
    if e' != e {
      var f := DecodeOne(Mux, p.tx.wire[e.rx.pos..]).value;
      NextFrameIsNextSent(e, p);
      NextFrameFacts(e, p, f);
      assert e'.rx == Dispatched(e.rx, f);
      forall x | x in e.streams ensures ReceiveOk(e'.rx, x, e.streams[x]) {
        ReadFrameReceives(e, p, f, x);
      }
      assert f.kind == FRAME_OPEN ==> f == OpenFrame(f.id);
      SetReceiveKeeps(e, e'.rx);
    }
  }

  // ---------------------------------------------------------------- every action keeps the invariant

  /** Moves that neither create streams nor consume frames. */
  predicate Ordinary(e: Endpoint, e': Endpoint) {
    && e'.rx.handled == e.rx.handled && e'.rx.pos == e.rx.pos
    && e'.streams.Keys == e.streams.Keys && e'.mine == e.mine && e'.opening == e.opening
    && e.tx.done <= e'.tx.done && e.tx.wire <= e'.tx.wire
  }

  lemma OwnerMovesAreOrdinary(e: Endpoint, id: u64, handle: Handle, payload: seq<byte>, attached: bool)
    ensures Ordinary(e, DoWrite(e, id, handle, payload)) && Ordinary(e, DoClose(e, id, handle, attached))
    ensures Ordinary(e, DoDrop(e, id, handle, attached)) && Ordinary(e, DoDropEntry(e, id))
    ensures Ordinary(e, DoSplit(e, id))
  {
    hide CloseOnce;
  }

  lemma ReadMovesAreOrdinary(e: Endpoint, id: u64, n: nat)
    ensures Ordinary(e, DoRecv(e, id)) && Ordinary(e, DoDisconnected(e, id))
    ensures Ordinary(e, DoReadOut(e, id, n)) && Ordinary(e, DoSendEnd(e, id))
  {
  }

  lemma SessionMovesAreOrdinary(e: Endpoint, id: u64, n: nat)
    ensures Ordinary(e, DoAcquire(e, id)) && Ordinary(e, DoPush(e, n))
    ensures Ordinary(e, DoFinish(e)) && Ordinary(e, DoFail(e))
    ensures Ordinary(e, DoDeliver(e)) && Ordinary(e, DoStopReader(e)) && Ordinary(e, DoSwapClosed(e))
    ensures Ordinary(e, DoTakeTable(e)) && Ordinary(e, DoDropSession(e))
  {
    hide Encode;
  }

  lemma OrdinaryKeepsLinks(e: Endpoint, e': Endpoint, p: Endpoint)
    requires Ordinary(e, e') && Link(e, p) && Link(p, e)
    ensures Link(e', p) && Link(p, e')
  {
    hide EncodeAll;
  }

  /** The peer cannot have used an id this side is about to open. */
  lemma OpeningIsFresh(e: Endpoint, p: Endpoint, id: u64)
    requires LocalInv(e) && LocalInv(p) && Link(e, p) && Link(p, e) && id in e.opening
    ensures id !in e.streams && DataOf(id, e.rx.handled) == []
  {
    hide Scan, DataOf, EncodeAll, SendOk, ReceiveOk;
    if OpenFrame(id) in e.rx.handled {
      OpensAreMine(p, id);
    }
    assert id !in e.streams;
    forall f | f in e.rx.handled ensures f.id != id {
      assert f in p.tx.done;
    }
    NoFramesNoData(id, e.rx.handled);
  }

  lemma LocalStepKeeps(e: Endpoint, p: Endpoint, move: Move)
    requires LocalInv(e) && LocalInv(p) && Link(e, p) && Link(p, e) && !move.OpenCheck?
    ensures LocalInv(LocalStep(e, p.tx.wire, move))
    ensures Link(LocalStep(e, p.tx.wire, move), p) && Link(p, LocalStep(e, p.tx.wire, move))
    ensures var e' := LocalStep(e, p.tx.wire, move); e'.mine + e'.opening == e.mine + e.opening
  {
    hide LocalInv, Link, DoReadFrame, DoOpenInsert, DoInsert;
    match move
    case ReadFrame => ReadFrameKeeps(e, p);
    case OpenInsert(id) => OpenInsertStep(e, p, id);
    case Insert => InsertStep(e, p);
    case _ =>
      OrdinaryStepKeeps(e, p, move);
  }

  lemma OpenInsertStep(e: Endpoint, p: Endpoint, id: u64)
    requires LocalInv(e) && LocalInv(p) && Link(e, p) && Link(p, e)
    ensures LocalInv(DoOpenInsert(e, id)) && Link(DoOpenInsert(e, id), p) && Link(p, DoOpenInsert(e, id))
    ensures var e' := DoOpenInsert(e, id); e'.mine + e'.opening == e.mine + e.opening
  {
    hide LocalInv, EncodeAll, DataOf;
    if id in e.opening {
      OpeningIsFresh(e, p, id);
    }
    OpenInsertKeeps(e, id);
  }

  lemma InsertStep(e: Endpoint, p: Endpoint)
    requires LocalInv(e) && LocalInv(p) && Link(e, p) && Link(p, e)
    ensures LocalInv(DoInsert(e)) && Link(DoInsert(e), p) && Link(p, DoInsert(e))
    ensures DoInsert(e).mine == e.mine && DoInsert(e).opening == e.opening
  {
    hide EncodeAll, DataOf, SendOk, ReceiveOk, TransmitOk;
    InsertKeeps(e);
  }

  predicate IsOrdinary(move: Move) { !move.OpenCheck? && !move.ReadFrame? && !move.OpenInsert? && !move.Insert? }

  lemma OrdinaryMoves(e: Endpoint, wire: seq<byte>, move: Move)
    requires IsOrdinary(move)
    ensures Ordinary(e, LocalStep(e, wire, move))
  {
    hide Ordinary, DoWrite, DoClose, DoDrop, DoDropEntry, DoSplit, DoRecv, DoDisconnected, DoReadOut, DoSendEnd, DoAcquire,
      DoPush, DoFinish, DoFail, DoDeliver, DoStopReader, DoSwapClosed, DoTakeTable, DoDropSession;
    match move
    case Write(id, handle, payload) => OwnerMovesAreOrdinary(e, id, handle, payload, true);
    case Close(id, handle, attached) => OwnerMovesAreOrdinary(e, id, handle, [], attached);
    case Drop(id, handle, attached) => OwnerMovesAreOrdinary(e, id, handle, [], attached);
    case DropEntry(id) => OwnerMovesAreOrdinary(e, id, Entire, [], true);
    case Split(id) => OwnerMovesAreOrdinary(e, id, Entire, [], true);
    case Recv(id) => ReadMovesAreOrdinary(e, id, 0);
    case Disconnected(id) => ReadMovesAreOrdinary(e, id, 0);
    case ReadOut(id, n) => ReadMovesAreOrdinary(e, id, n);
    case SendEnd(id) => ReadMovesAreOrdinary(e, id, 0);
    case Acquire(id) => SessionMovesAreOrdinary(e, id, 0);
    case Push(n) => SessionMovesAreOrdinary(e, 0, n);
    case Finish => SessionMovesAreOrdinary(e, 0, 0);
    case Fail => SessionMovesAreOrdinary(e, 0, 0);
    case Deliver => SessionMovesAreOrdinary(e, 0, 0);
    case StopReader => SessionMovesAreOrdinary(e, 0, 0);
    case SwapClosed => SessionMovesAreOrdinary(e, 0, 0);
    case TakeTable => SessionMovesAreOrdinary(e, 0, 0);
    case DropSession => SessionMovesAreOrdinary(e, 0, 0);
  }

  lemma OrdinaryStepKeeps(e: Endpoint, p: Endpoint, move: Move)
    requires LocalInv(e) && LocalInv(p) && Link(e, p) && Link(p, e) && IsOrdinary(move)
    ensures LocalInv(LocalStep(e, p.tx.wire, move))
    ensures Link(LocalStep(e, p.tx.wire, move), p) && Link(p, LocalStep(e, p.tx.wire, move))
    ensures Ordinary(e, LocalStep(e, p.tx.wire, move))
  {
    hide LocalInv, Link, Ordinary, LocalStep, IsOrdinary;
    OrdinaryMoves(e, p.tx.wire, move);
    OrdinaryKeepsLinks(e, LocalStep(e, p.tx.wire, move), p);
    OrdinaryMoveKeeps(e, p.tx.wire, move);
  }

  lemma OrdinaryMoveKeeps(e: Endpoint, wire: seq<byte>, move: Move)
    requires LocalInv(e) && IsOrdinary(move)
    ensures LocalInv(LocalStep(e, wire, move))
  {
    hide LocalInv;
    match move
    case Write(id, handle, payload) => WriteKeeps(e, id, handle, payload);
    case Close(id, handle, attached) => CloseKeeps(e, id, handle, attached);
    case Drop(id, handle, attached) => DropKeeps(e, id, handle, attached);
    case DropEntry(id) => DropEntryKeeps(e, id);
    case Acquire(id) => AcquireKeeps(e, id);
    case Push(n) => PushKeeps(e, n);
    case Finish => FinishKeeps(e);
    case Fail => FailKeeps(e);
    case Deliver => DeliverKeeps(e);
    case StopReader => QuietMovesKeep(e);
    case SwapClosed => QuietMovesKeep(e);
    case TakeTable => TakeTableKeeps(e);
    case SendEnd(id) => SendEndKeeps(e, id);
    case DropSession => QuietMovesKeep(e);
    case Recv(id) => RecvKeeps(e, id);
    case Disconnected(id) => DisconnectedKeeps(e, id);
    case ReadOut(id, n) => ReadOutKeeps(e, id, n);
    case Split(id) => SplitKeeps(e, id);
  }

  /** Passing the closed check with an id nobody has used yet. */
  lemma OpenCheckKeeps(e: Endpoint, p: Endpoint, used: set<u64>, id: u64)
    requires LocalInv(e) && LocalInv(p) && Link(e, p) && Link(p, e)
    requires e.mine + e.opening <= used && p.mine + p.opening <= used && id !in used
    ensures var e' := e.(opening := e.opening + {id}); LocalInv(e') && Link(e', p) && Link(p, e')
  {
    hide Scan, DataOf, EncodeAll, SendOk, ReceiveOk, Encode;
    var e' := e.(opening := e.opening + {id});
    if e.rx.reader.Inserting? {
      OpensAreMine(p, e.rx.reader.id);
    }
    assert PartOf(e') == PartOf(e);
  }

  lemma StepKeeps(s: System, a: Action)
    requires Inv(s)
    ensures Inv(Step(s, a))
  {
    hide LocalInv, Link;
    var e, p := s.At(a.side), s.Peer(a.side);
    if a.move.OpenCheck? {
      if a.move.id !in s.used {
        OpenCheckKeeps(e, p, s.used, a.move.id);
      }
    } else {
      hide LocalStep;
      LocalStepKeeps(e, p, a.move);
    }
  }

  lemma {:induction false} RunKeeps(s: System, actions: seq<Action>)
    requires Inv(s)
    ensures Inv(Run(s, actions))
  {
    hide Inv, Step;
    if actions != [] {
      RunKeeps(s, actions[..|actions| - 1]);
      StepKeeps(Run(s, actions[..|actions| - 1]), actions[|actions| - 1]);
    }
  }

  lemma StartIsGood()
    ensures Inv(START)
  {
    var f := OpenFrame(0);
    assert WellFormed(Mux, f) && [] < Encode(Mux, f);
    assert Unfinished(Mux, []);
  }

  // ---------------------------------------------------------------- delivery

  lemma EveryRunIsGood(actions: seq<Action>)
    ensures Inv(Run(START, actions))
  {
    StartIsGood();
    RunKeeps(START, actions);
  }

  lemma ReadIsPrefixOfSent(e: Endpoint, p: Endpoint, id: u64)
    requires LocalInv(e) && LocalInv(p) && Link(e, p) && id in e.streams
    ensures e.streams[id].out <= DataOf(id, p.tx.done)
    ensures id in e.rx.finished && e.streams[id].readClosed ==> e.streams[id].out == DataOf(id, p.tx.done)
    ensures Ends(e.streams[id].chan) <= 1
  {
    hide Scan, DataOf, EncodeAll, SendOk, ShapeOk, TransmitOk, Payloads, Ends;
    var st := e.streams[id];
    assert ReceiveOk(e.rx, id, st);
    ChannelPrefix(st.chan, st.taken);
    DataPrefix(id, e.rx.handled, p.tx.done);
    if id in e.rx.finished && st.readClosed {
      PlaceOfAll(p, id);
      ClosedStays(id, StartOf(p, id), e.rx.handled);
      ScanPrefix(id, StartOf(p, id), e.rx.handled, p.tx.done);
      assert st.chan[..st.taken] == st.chan;
    }
  }

  /**
   Delivery. After any run whatsoever, the bytes read on a stream are the first bytes of what the peer
   has handed to the transport for it; that is everything the peer's writes reported as written,
   followed by at most one write that is still under way or that reported an error after its last
   byte had been taken. If the peer's CLOSE found the stream in the table and the reader has met the
   end, it has read exactly all of it. Each channel carries at most one end marker.
   */
  lemma Delivery(actions: seq<Action>, side: Side, id: u64)
    requires id in Run(START, actions).At(side).streams
    ensures var s := Run(START, actions);
            var e, p := s.At(side), s.Peer(side);
            var st, sent := e.streams[id], DataOf(id, p.tx.done);
            && st.out <= sent
            && (id !in p.streams ==> sent == [])
            && (id in p.streams ==>
                  && sent == p.streams[id].acked + p.streams[id].failed + Unreturned(p.tx, id, p.streams[id])
                  && (p.streams[id].failed != [] ==> p.tx.broken))
            && (id in e.rx.finished && st.readClosed ==> st.out == sent)
            && Ends(st.chan) <= 1
  {
    hide Scan, DataOf, EncodeAll, ReceiveOk, TransmitOk, Ends, Link, ShapeOk;
    var s := Run(START, actions);
    var e, p := s.At(side), s.Peer(side);
    EveryRunIsGood(actions);
    ReadIsPrefixOfSent(e, p, id);
    if id in p.streams {
      assert SendOk(p.tx, StartOf(p, id), id, p.streams[id]);
    } else {
      NothingSent(p, id, Live);
    }
  }

  /** No write has failed after its last byte, and none is waiting for its flush. */
  predicate Settled(p: Endpoint, id: u64) {
    id in p.streams ==> p.streams[id].failed == [] && Unreturned(p.tx, id, p.streams[id]) == []
  }

  function Acked(p: Endpoint, id: u64): seq<byte> { if id in p.streams then p.streams[id].acked else [] }

  /**
   What the peer can be read to have sent is what its writes reported as written if and only if it is
   settled; then only acknowledged bytes are ever read.
   */
  lemma ReadIsPrefixOfAcknowledged(actions: seq<Action>, side: Side, id: u64)
    requires id in Run(START, actions).At(side).streams
    ensures var s := Run(START, actions);
            var e, p := s.At(side), s.Peer(side);
            && (Settled(p, id) <==> DataOf(id, p.tx.done) == Acked(p, id))
            && (Settled(p, id) ==> e.streams[id].out <= Acked(p, id))
            && (!p.tx.broken && id in p.streams && p.streams[id].call.None? ==> Settled(p, id))
  {
    hide DataOf, Ends, Run;
    Delivery(actions, side, id);
  }

  lemma {:induction false} PayloadsAppend(a: seq<Message>, b: seq<Message>)
    ensures Payloads(a + b) == Payloads(a) + Payloads(b)
    decreases |b|
  {
    if b == [] {
      assert a + b == a;
    } else {
      var init, last := b[..|b| - 1], b[|b| - 1];
      PayloadsAppend(a, init);
      assert (a + b)[..|a + b| - 1] == a + init;
      var bytes := if last.Payload? then last.bytes else [];
      calc {
        Payloads(a + b);
        (Payloads(a) + Payloads(init)) + bytes;
        Payloads(a) + (Payloads(init) + bytes);
        Payloads(a) + Payloads(b);
      }
    }
  }

  lemma ReceivedIsKept(rx: Receive, id: u64, st: Stream)
    requires ReceiveOk(rx, id, st) && (id in rx.table || id in rx.finished)
    ensures st.taken <= |st.chan|
    ensures st.out + st.buf + Payloads(st.chan[st.taken..]) + InFlight(rx, id) == DataOf(id, rx.handled)
  {
    hide Payloads, DataOf, Ends;
    PayloadsAppend(st.chan[..st.taken], st.chan[st.taken..]);
    assert st.chan[..st.taken] + st.chan[st.taken..] == st.chan;
  }

  /**
   Conservation. As long as a stream is in the table, and for good once the peer's CLOSE has found it
   there, every byte dispatched for it has been read, is buffered, is queued or is in the read loop's
   hands, whenever and however often the stream is split or its handles are dropped.
   */
  lemma NoByteLost(actions: seq<Action>, side: Side, id: u64)
    requires var e := Run(START, actions).At(side); id in e.streams && (id in e.rx.table || id in e.rx.finished)
    ensures var e := Run(START, actions).At(side);
            var st := e.streams[id];
            st.out + st.buf + (if st.taken <= |st.chan| then Payloads(st.chan[st.taken..]) else []) + InFlight(e.rx, id)
            == DataOf(id, e.rx.handled)
  {
    hide Run, Link, TransmitOk, ShapeOk, SendOk, Payloads, DataOf, InFlight, ReceiveOk;
    EveryRunIsGood(actions);
    var e := Run(START, actions).At(side);
    ReceivedIsKept(e.rx, id, e.streams[id]);
  }

  // ---------------------------------------------------------------- end of stream is final

  lemma EndIsStable(s: System, a: Action, side: Side, id: u64)
    requires Inv(s) && id in s.At(side).streams && s.At(side).streams[id].readClosed
    ensures id in Step(s, a).At(side).streams
    ensures var st, st' := s.At(side).streams[id], Step(s, a).At(side).streams[id];
            st'.readClosed && st'.out == st.out
  {
    hide Scan, DataOf, EncodeAll, SendOk, TransmitOk, Payloads, Ends, Link, Encode, DecodeOne;
    var e, p := s.At(a.side), s.Peer(a.side);
    if a.side == side {
      assert ReceiveOk(e.rx, id, e.streams[id]);
      if a.move.OpenInsert? && a.move.id in e.opening {
        OpeningIsFresh(e, p, a.move.id);
      }
      EndIsStableHere(e, p.tx.wire, a.move, id);
    }
  }

  predicate StaysEnded(e: Endpoint, e': Endpoint, id: u64)
    requires id in e.streams
  {
    id in e'.streams && e'.streams[id].readClosed && e'.streams[id].out == e.streams[id].out
  }

  lemma WritersLeaveEnd(e: Endpoint, id: u64, x: u64, handle: Handle, payload: seq<byte>)
    requires id in e.streams && e.streams[id].readClosed
    ensures StaysEnded(e, DoWrite(e, x, handle, payload), id) && StaysEnded(e, DoDropEntry(e, x), id)
    ensures StaysEnded(e, DoSplit(e, x), id) && StaysEnded(e, DoAcquire(e, x), id)
  {
  }

  lemma ClosersLeaveEnd(e: Endpoint, id: u64, x: u64, handle: Handle, attached: bool)
    requires id in e.streams && e.streams[id].readClosed
    ensures StaysEnded(e, DoClose(e, x, handle, attached), id) && StaysEnded(e, DoDrop(e, x, handle, attached), id)
  {
  }

  lemma TransportLeavesEnd(e: Endpoint, id: u64, n: nat)
    requires id in e.streams && e.streams[id].readClosed
    ensures StaysEnded(e, DoPush(e, n), id) && StaysEnded(e, DoFinish(e), id) && StaysEnded(e, DoFail(e), id)
  {
    hide Encode;
  }

  lemma ReadLoopLeavesEnd(e: Endpoint, id: u64, wire: seq<byte>)
    requires id in e.streams && e.streams[id].readClosed
    requires e.rx.reader.Inserting? ==> e.rx.reader.id !in e.streams
    ensures StaysEnded(e, DoReadFrame(e, wire), id) && StaysEnded(e, DoDeliver(e), id) && StaysEnded(e, DoInsert(e), id)
    ensures StaysEnded(e, DoStopReader(e), id) && StaysEnded(e, DoSwapClosed(e), id) && StaysEnded(e, DoTakeTable(e), id)
    ensures StaysEnded(e, DoDropSession(e), id)
  {
    hide Encode, DecodeOne;
  }

  lemma ReadersLeaveEnd(e: Endpoint, id: u64, x: u64, n: nat)
    requires id in e.streams && e.streams[id].readClosed && e.streams[id].buf == []
    ensures StaysEnded(e, DoRecv(e, x), id) && StaysEnded(e, DoDisconnected(e, x), id)
    ensures StaysEnded(e, DoReadOut(e, x, n), id) && StaysEnded(e, DoSendEnd(e, x), id)
  {
    assert e.streams[id].buf[..0] == [];
    assert e.streams[id].out + [] == e.streams[id].out;
  }

  lemma OpeningLeavesEnd(e: Endpoint, id: u64, x: u64)
    requires id in e.streams && e.streams[id].readClosed && (x in e.opening ==> x !in e.streams)
    ensures StaysEnded(e, DoOpenInsert(e, x), id)
  {
  }

  lemma EndIsStableHere(e: Endpoint, wire: seq<byte>, move: Move, id: u64)
    requires id in e.streams && e.streams[id].readClosed && e.streams[id].buf == []
    requires move.OpenInsert? && move.id in e.opening ==> move.id !in e.streams
    requires e.rx.reader.Inserting? ==> e.rx.reader.id !in e.streams
    ensures StaysEnded(e, LocalStep(e, wire, move), id)
  {
    hide StaysEnded, DoWrite, DoClose, DoDrop, DoDropEntry, DoSplit, DoRecv, DoDisconnected, DoReadOut, DoSendEnd, DoAcquire,
      DoPush, DoFinish, DoFail, DoDeliver, DoStopReader, DoSwapClosed, DoTakeTable, DoDropSession, DoReadFrame, DoInsert, DoOpenInsert;
    match move
    case OpenCheck(x) => OpeningLeavesEndAlone(e, id, x);
    case OpenInsert(x) => OpeningLeavesEnd(e, id, x);
    case Write(x, handle, payload) => WritersLeaveEnd(e, id, x, handle, payload);
    case Close(x, handle, attached) => ClosersLeaveEnd(e, id, x, handle, attached);
    case Drop(x, handle, attached) => ClosersLeaveEnd(e, id, x, handle, attached);
    case DropEntry(x) => WritersLeaveEnd(e, id, x, Entire, []);
    case Split(x) => WritersLeaveEnd(e, id, x, Entire, []);
    case Acquire(x) => WritersLeaveEnd(e, id, x, Entire, []);
    case Push(n) => TransportLeavesEnd(e, id, n);
    case Finish => TransportLeavesEnd(e, id, 0);
    case Fail => TransportLeavesEnd(e, id, 0);
    case ReadFrame => ReadLoopLeavesEnd(e, id, wire);
    case Deliver => ReadLoopLeavesEnd(e, id, wire);
    case Insert => ReadLoopLeavesEnd(e, id, wire);
    case StopReader => ReadLoopLeavesEnd(e, id, wire);
    case SwapClosed => ReadLoopLeavesEnd(e, id, wire);
    case TakeTable => ReadLoopLeavesEnd(e, id, wire);
    case DropSession => ReadLoopLeavesEnd(e, id, wire);
    case SendEnd(x) => ReadersLeaveEnd(e, id, x, 0);
    case Recv(x) => ReadersLeaveEnd(e, id, x, 0);
    case Disconnected(x) => ReadersLeaveEnd(e, id, x, 0);
    case ReadOut(x, n) => ReadersLeaveEnd(e, id, x, n);
  }

  lemma OpeningLeavesEndAlone(e: Endpoint, id: u64, x: u64)
    requires id in e.streams && e.streams[id].readClosed
    ensures StaysEnded(e, e.(opening := e.opening + {x}), id) && StaysEnded(e, e, id)
  {
  }

  /** Once a reader has met the end of its stream, it reads nothing more, whatever happens. */
  lemma {:induction false} EndIsFinal(before: seq<Action>, after: seq<Action>, side: Side, id: u64)
    requires id in Run(START, before).At(side).streams
    requires Run(START, before).At(side).streams[id].readClosed
    ensures id in Run(START, before + after).At(side).streams
    ensures var st := Run(START, before).At(side).streams[id];
            var st' := Run(START, before + after).At(side).streams[id];
            st'.readClosed && st'.out == st.out
    decreases |after|
  {
    hide Step, Inv;
    if after == [] {
      assert before + after == before;
    } else {
      var init, last := after[..|after| - 1], after[|after| - 1];
      EndIsFinal(before, init, side, id);
      EveryRunIsGood(before + init);
      assert before + after == (before + init) + [last];
      assert (before + after)[..|before + after| - 1] == before + init;
      EndIsStable(Run(START, before + init), last, side, id);
    }
  }

  // ---------------------------------------------------------------- wire discipline

  function FramesOf(id: u64, fs: seq<Frame>): seq<Frame> {
    if fs == [] then []
    else
      var f := fs[|fs| - 1];
      FramesOf(id, fs[..|fs| - 1]) + if f.id == id then [f] else []
  }

  /** OPEN first and only from the opener, CLOSE last, DATA in between. */
  predicate InOrder(fs: seq<Frame>, opener: bool) {
    forall i | 0 <= i < |fs| ::
      && (fs[i].kind == FRAME_OPEN <==> opener && i == 0)
      && (fs[i].kind == FRAME_CLOSE ==> i == |fs| - 1)
  }

  lemma {:induction false} ScanMeansInOrder(id: u64, opener: bool, fs: seq<Frame>)
    requires !Scan(id, if opener then Fresh else Live, fs).Bad?
    ensures var own := FramesOf(id, fs);
            var w := Scan(id, if opener then Fresh else Live, fs);
            && InOrder(own, opener)
            && (w.Fresh? <==> opener && own == [])
            && (w.Shut? <==> own != [] && own[|own| - 1].kind == FRAME_CLOSE)
  {
    if fs != [] {
      ScanMeansInOrder(id, opener, fs[..|fs| - 1]);
    }
  }

  lemma InOrderInit(own: seq<Frame>, f: Frame, opener: bool)
    requires InOrder(own + [f], opener)
    ensures InOrder(own, opener) && (own != [] ==> own[|own| - 1].kind != FRAME_CLOSE)
    ensures f.kind == FRAME_OPEN <==> opener && own == []
  {
    var all := own + [f];
    assert all[|own|] == f;
    forall i | 0 <= i < |own| ensures (own[i].kind == FRAME_OPEN <==> opener && i == 0) && own[i].kind != FRAME_CLOSE {
      assert all[i] == own[i];
    }
  }

  lemma {:induction false} InOrderMeansScan(id: u64, opener: bool, fs: seq<Frame>)
    requires AllWellFormed(Mux, fs) && InOrder(FramesOf(id, fs), opener)
    ensures !Scan(id, if opener then Fresh else Live, fs).Bad?
  {
    hide InOrder;
    if fs != [] {
      var init, f := fs[..|fs| - 1], fs[|fs| - 1];
      assert f in fs;
      if f.id == id {
        InOrderInit(FramesOf(id, init), f, opener);
        InOrderMeansScan(id, opener, init);
        ScanMeansInOrder(id, opener, init);
      } else {
        assert FramesOf(id, init) + [] == FramesOf(id, init);
        InOrderMeansScan(id, opener, init);
      }
    }
  }

  /** The automaton the invariant uses accepts exactly the histories whose frames of that id are in order. */
  lemma ScanIffInOrder(id: u64, opener: bool, fs: seq<Frame>)
    requires AllWellFormed(Mux, fs)
    ensures !Scan(id, if opener then Fresh else Live, fs).Bad? <==> InOrder(FramesOf(id, fs), opener)
  {
    hide InOrder, FramesOf, Scan, AllWellFormed;
    if InOrder(FramesOf(id, fs), opener) {
      InOrderMeansScan(id, opener, fs);
    } else if !Scan(id, if opener then Fresh else Live, fs).Bad? {
      ScanMeansInOrder(id, opener, fs);
    }
  }

  /**
   Wire discipline. After any run, each direction carries whole frames back to back followed by at
   most one unfinished frame, so frames of concurrent writers never interleave, and the frames of
   each id are a prefix of OPEN DATA* CLOSE from its opener and of DATA* CLOSE from the other side.
   */
  lemma WireDiscipline(actions: seq<Action>, side: Side, id: u64)
    ensures var e := Run(START, actions).At(side);
            && e.tx.wire == EncodeAll(Mux, e.tx.done) + e.tx.tail
            && Unfinished(Mux, e.tx.tail)
            && DecodeAll(Mux, EncodeAll(Mux, e.tx.done)) == e.tx.done
            && InOrder(FramesOf(id, e.tx.done), id in e.mine)
  {
    hide Scan, DataOf, EncodeAll, DecodeAll, Link, SendOk, ReceiveOk, ShapeOk, Unfinished, FramesOf, InOrder;
    EveryRunIsGood(actions);
    var e := Run(START, actions).At(side);
    StreamRoundTrip(Mux, e.tx.done);
    PlaceOfAll(e, id);
    ScanMeansInOrder(id, id in e.mine, e.tx.done);
  }

  // ---------------------------------------------------------------- handles

  predicate HasWriter(g: Grip) { Entire in g.handles || WriteEnd in g.handles }

  predicate HasOpenWriter(g: Grip) { exists h | h in g.handles :: !h.ReadEnd? && !WriteClosed(g, h) }

  /** What the handles of a stream say about the CLOSE frames among its frames `own`. */
  predicate ClosedOnce(broken: bool, st: Stream, own: seq<Frame>) {
    && !(Entire in st.grip.handles && (ReadEnd in st.grip.handles || WriteEnd in st.grip.handles))
    && (forall i | 0 <= i < |own| && own[i].kind == FRAME_CLOSE :: i == |own| - 1)
    && (!broken && HasOpenWriter(st.grip) ==> forall i | 0 <= i < |own| :: own[i].kind != FRAME_CLOSE)
    && (!broken && !HasWriter(st.grip) && AtRest(st) && !st.grip.detached ==>
          own != [] && own[|own| - 1].kind == FRAME_CLOSE)
  }

  lemma SendMeansClosedOnce(tx: Transmit, opener: bool, id: u64, st: Stream)
    requires SendOk(tx, if opener then Fresh else Live, id, st)
    ensures ClosedOnce(tx.broken, st, FramesOf(id, tx.done))
  {
    hide Scan, DataOf, FramesOf, DataOk, Encode;
    ScanMeansInOrder(id, opener, tx.done);
  }

  /**
   Closing. After any run, with splits and drops at any moment: a stream is held whole or as halves,
   never both; at most one CLOSE of it is on the wire and nothing follows it; on a working transport
   there is none while a writer that has not closed is alive, and there is one once no writer is left
   and its close has run, unless the session was gone by then.
   */
  lemma CloseDiscipline(actions: seq<Action>, side: Side, id: u64)
    requires id in Run(START, actions).At(side).streams
    ensures var e := Run(START, actions).At(side);
            ClosedOnce(e.tx.broken, e.streams[id], FramesOf(id, e.tx.done))
  {
    hide Run, Link, ReceiveOk, ShapeOk, TransmitOk, SendOk, FramesOf, ClosedOnce;
    EveryRunIsGood(actions);
    var e := Run(START, actions).At(side);
    SendMeansClosedOnce(e.tx, id in e.mine, id, e.streams[id]);
  }

  predicate SameButGrip(st: Stream, st': Stream) { st'.(grip := st.grip) == st }

  predicate OnlyGripMoves(e: Endpoint, e': Endpoint, id: u64) {
    && e' == e.(streams := e'.streams) && e'.streams.Keys == e.streams.Keys
    && forall x | x in e.streams :: if x == id then SameButGrip(e.streams[x], e'.streams[x]) else e'.streams[x] == e.streams[x]
  }

  lemma SplitMovesNothing(e: Endpoint, id: u64)
    ensures OnlyGripMoves(e, DoSplit(e, id), id)
    ensures CanUse(e, id, Entire) ==>
              var g, g' := e.streams[id].grip, DoSplit(e, id).streams[id].grip;
              g'.handles == {ReadEnd, WriteEnd} && WriteClosed(g', WriteEnd) == WriteClosed(g, Entire)
  {
  }

  lemma ReadDropMovesNothing(e: Endpoint, id: u64, attached: bool)
    ensures OnlyGripMoves(e, DoDrop(e, id, ReadEnd, attached), id)
  {
  }

  /**
   Splitting at any moment and dropping the read half touch no buffered, queued or sent byte, no
   flag of the read side and no running call; after a split the write half is as closed as the whole was.
   */
  lemma HandlesMoveNothing(s: System, side: Side, id: u64, attached: bool)
    ensures OnlyGripMoves(s.At(side), Step(s, Action(side, Split(id))).At(side), id)
    ensures OnlyGripMoves(s.At(side), Step(s, Action(side, Drop(id, ReadEnd, attached))).At(side), id)
    ensures CanUse(s.At(side), id, Entire) ==>
              var g, g' := s.At(side).streams[id].grip, DoSplit(s.At(side), id).streams[id].grip;
              g'.handles == {ReadEnd, WriteEnd} && WriteClosed(g', WriteEnd) == WriteClosed(g, Entire)
  {
    hide DoSplit, DoDrop, OnlyGripMoves, CanUse;
    SplitMovesNothing(s.At(side), id);
    ReadDropMovesNothing(s.At(side), id, attached);
  }
}
