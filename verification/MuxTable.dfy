/**
 The stream table over whole runs: when an id is in it, when it has left it, and that every stream has
 exactly one end marker, delivered or still owed, as long as its session lives and its owner has not
 closed it.
 */
module MuxTable {
  import opened Wrappers
  import opened Frames
  import opened MuxProtocol
  import opened MuxHistory
  import opened MuxInvariant
  import opened MuxTheorems

  // ---------------------------------------------------------------- the invariant

  /** The owner has not closed the stream and the session has not been dropped. */
  predicate Attached(rx: Receive, st: Stream) { !rx.gone && !st.phase.Closed? }

  function MarkersOwed(rx: Receive, id: u64): nat {
    Bit(id in rx.table) + Bit(id in rx.ending) + Bit(rx.reader == Sending(id, End))
  }

  predicate EntryOk(rx: Receive, id: u64, st: Stream) {
    && (id in rx.table ==> CloseFrame(id) !in rx.handled)
    && (st.phase.Closed? && !st.grip.detached ==> id !in rx.table)
    && (Attached(rx, st) ==> Ends(st.chan) + MarkersOwed(rx, id) == 1)
    && (Attached(rx, st) && !rx.stage.Taken? ==>
          (id in rx.table <==> CloseFrame(id) !in rx.handled) && (CloseFrame(id) in rx.handled ==> id in rx.finished))
  }

  predicate AcceptOk(rx: Receive, streams: map<u64, Stream>) {
    && (rx.reader.Inserting? ==> CloseFrame(rx.reader.id) !in rx.handled)
    && (rx.stage.Up? ==>
          forall f | f in rx.handled && f.kind == FRAME_OPEN :: f.id in streams || rx.reader == Inserting(f.id))
  }

  predicate TableInv(e: Endpoint) {
    AcceptOk(e.rx, e.streams) && forall id | id in e.streams :: EntryOk(e.rx, id, e.streams[id])
  }

  // ---------------------------------------------------------------- moves that leave the table alone

  /** The stream is no less closed and has the same markers. */
  predicate CalmStream(st: Stream, st': Stream) {
    && Ends(st'.chan) == Ends(st.chan) && (st.phase.Closed? ==> st'.phase.Closed?)
    && (st'.phase.Closed? && !st'.grip.detached ==> st.phase.Closed? && !st.grip.detached)
  }

  predicate CalmReceive(rx: Receive, rx': Receive) {
    && rx'.table == rx.table && rx'.ending == rx.ending && rx'.finished == rx.finished && rx'.handled == rx.handled
    && rx'.gone == rx.gone && (rx'.stage.Taken? <==> rx.stage.Taken?) && (rx'.stage.Up? ==> rx.stage.Up?)
    && (rx'.reader == rx.reader || (rx.reader.Idle? && rx'.reader.Stopped?))
  }

  predicate Calm(e: Endpoint, e': Endpoint) {
    && CalmReceive(e.rx, e'.rx) && e'.streams.Keys == e.streams.Keys
    && forall id | id in e.streams :: CalmStream(e.streams[id], e'.streams[id])
  }

  lemma CalmEntry(rx: Receive, rx': Receive, id: u64, st: Stream, st': Stream)
    requires EntryOk(rx, id, st) && CalmReceive(rx, rx') && CalmStream(st, st')
    ensures EntryOk(rx', id, st')
  {
    hide Ends;
  }

  lemma CalmKeeps(e: Endpoint, e': Endpoint)
    requires TableInv(e) && Calm(e, e')
    ensures TableInv(e')
  {
    hide EntryOk, CalmStream;
    forall id | id in e'.streams ensures EntryOk(e'.rx, id, e'.streams[id]) {
      CalmEntry(e.rx, e'.rx, id, e.streams[id], e'.streams[id]);
    }
  }

  lemma WritersAreCalm(e: Endpoint, id: u64, handle: Handle, payload: seq<byte>)
    requires LocalInv(e)
    ensures Calm(e, DoWrite(e, id, handle, payload)) && Calm(e, DoSplit(e, id)) && Calm(e, DoAcquire(e, id))
  {
    hide LocalInv, Ends;
  }

  lemma CloseOnceIsCalm(st: Stream, id: u64, handle: Handle, attached: bool, g: Grip)
    requires GripOk(st) && handle in st.grip.handles && !handle.ReadEnd? && g.detached == st.grip.detached
    ensures CalmStream(st, CloseOnce(st, id, handle, attached, g))
  {
    hide Ends;
  }

  lemma StreamGrip(e: Endpoint, id: u64)
    requires LocalInv(e) && id in e.streams
    ensures GripOk(e.streams[id])
  {
    assert SendOk(e.tx, StartOf(e, id), id, e.streams[id]);
  }

  lemma SetCalm(e: Endpoint, id: u64, st: Stream)
    requires id in e.streams && CalmStream(e.streams[id], st)
    ensures Calm(e, SetStream(e, id, st))
  {
    hide Ends;
  }

  lemma ClosersAreCalm(e: Endpoint, id: u64, handle: Handle, attached: bool)
    requires LocalInv(e)
    ensures Calm(e, DoClose(e, id, handle, attached)) && Calm(e, DoDrop(e, id, handle, attached))
  {
    hide LocalInv, Ends, CloseOnce, CalmStream, Calm;
    assert Calm(e, e) by { SameIsCalm(e); }
    if id in e.streams {
      var st := e.streams[id];
      StreamGrip(e, id);
      assert CalmStream(st, st.(grip := Without(st.grip, ReadEnd))) by { GripIsCalm(st); }
      SetCalm(e, id, st.(grip := Without(st.grip, ReadEnd)));
      if CanUse(e, id, handle) {
        CloseOnceIsCalm(st, id, handle, attached, st.grip);
        CloseOnceIsCalm(st, id, handle, attached, Without(st.grip, handle));
        SetCalm(e, id, CloseOnce(st, id, handle, attached, st.grip));
        SetCalm(e, id, CloseOnce(st, id, handle, attached, Without(st.grip, handle)));
      }
    }
  }

  lemma GripIsCalm(st: Stream)
    ensures CalmStream(st, st.(grip := Without(st.grip, ReadEnd)))
  {
    hide Ends;
  }

  lemma SameIsCalm(e: Endpoint)
    ensures Calm(e, e)
  {
    hide Ends;
  }

  lemma TransportIsCalm(e: Endpoint, n: nat)
    requires LocalInv(e)
    ensures Calm(e, DoPush(e, n)) && Calm(e, DoFinish(e)) && Calm(e, DoFail(e))
  {
    hide Encode, Ends, Scan, DataOf, ReceiveOk, ShapeOk, PlaceOk, DataOk, EncodeAll, AllWellFormed, Unfinished;
    if e.tx.lock.Held? {
      assert SendOk(e.tx, StartOf(e, e.tx.lock.id), e.tx.lock.id, e.streams[e.tx.lock.id]);
    }
  }

  lemma ReadersAreCalm(e: Endpoint, id: u64, n: nat)
    ensures Calm(e, DoRecv(e, id)) && Calm(e, DoDisconnected(e, id)) && Calm(e, DoReadOut(e, id, n))
  {
    hide Ends, Calm;
    SameIsCalm(e);
    if id in e.streams {
      var st := e.streams[id];
      if DoRecv(e, id) != e {
        SetCalm(e, id, DoRecv(e, id).streams[id]);
      }
      SetCalm(e, id, st.(readClosed := true));
      if n <= |st.buf| {
        SetCalm(e, id, st.(out := st.out + st.buf[..n], buf := st.buf[n..]));
      }
    }
  }

  lemma StopsAreCalm(e: Endpoint)
    ensures Calm(e, DoStopReader(e)) && Calm(e, DoSwapClosed(e))
  {
    hide Ends;
  }

  // ---------------------------------------------------------------- moves that do not

  lemma DropEntryKeepsTable(e: Endpoint, id: u64)
    requires TableInv(e)
    ensures TableInv(DoDropEntry(e, id))
  {
    hide Ends;
    forall x | x in e.streams ensures EntryOk(DoDropEntry(e, id).rx, x, DoDropEntry(e, id).streams[x]) {
      assert EntryOk(e.rx, x, e.streams[x]);
    }
  }

  lemma DeliverKeepsTable(e: Endpoint)
    requires TableInv(e)
    ensures TableInv(DoDeliver(e))
  {
    hide Ends;
    if e.rx.reader.Sending? && e.rx.reader.id in e.streams {
      ChannelSnoc(e.streams[e.rx.reader.id].chan, e.rx.reader.message);
      forall x | x in e.streams ensures EntryOk(DoDeliver(e).rx, x, DoDeliver(e).streams[x]) {
        assert EntryOk(e.rx, x, e.streams[x]);
      }
    }
  }

  lemma SendEndKeepsTable(e: Endpoint, id: u64)
    requires TableInv(e)
    ensures TableInv(DoSendEnd(e, id))
  {
    hide Ends;
    if id in e.rx.ending && id in e.streams {
      ChannelSnoc(e.streams[id].chan, End);
      forall x | x in e.streams ensures EntryOk(DoSendEnd(e, id).rx, x, DoSendEnd(e, id).streams[x]) {
        assert EntryOk(e.rx, x, e.streams[x]);
      }
    }
  }

  lemma SessionKeepsTable(e: Endpoint)
    requires TableInv(e) && LocalInv(e)
    ensures TableInv(DoTakeTable(e)) && TableInv(DoDropSession(e))
  {
    hide Ends, Scan, DataOf, SendOk, TransmitOk, Payloads;
    forall x | x in e.streams
      ensures EntryOk(DoTakeTable(e).rx, x, e.streams[x]) && EntryOk(DoDropSession(e).rx, x, e.streams[x])
    {
      assert EntryOk(e.rx, x, e.streams[x]);
      assert ReceiveOk(e.rx, x, e.streams[x]);
    }
  }

  lemma NewEntryOk(rx: Receive, id: u64, st: Stream)
    requires id in rx.table && id !in rx.ending && rx.reader != Sending(id, End) && CloseFrame(id) !in rx.handled
    requires st.chan == [] && !st.phase.Closed?
    ensures EntryOk(rx, id, st)
  {
  }

  lemma OtherEntryOk(rx: Receive, rx': Receive, id: u64, st: Stream, x: u64)
    requires EntryOk(rx, id, st) && id != x && rx' == rx.(table := rx.table + {x}, reader := rx'.reader)
    requires rx'.reader == rx.reader || (rx.reader.Inserting? && rx'.reader.Idle?)
    ensures EntryOk(rx', id, st)
  {
    hide Ends;
  }

  lemma OpenInsertKeepsTable(e: Endpoint, p: Endpoint, id: u64)
    requires TableInv(e) && LocalInv(e) && LocalInv(p) && Link(e, p) && Link(p, e)
    ensures TableInv(DoOpenInsert(e, id))
  {
    hide LocalInv, Link, EntryOk, Ends;
    if id in e.opening {
      var e' := DoOpenInsert(e, id);
      NoCloseBefore(e, p, id);
      NewEntryOk(e'.rx, id, e'.streams[id]);
      forall x | x in e'.streams ensures EntryOk(e'.rx, x, e'.streams[x]) {
        if x != id {
          OtherEntryOk(e.rx, e'.rx, x, e.streams[x], id);
        }
      }
    }
  }

  lemma NoCloseBefore(e: Endpoint, p: Endpoint, id: u64)
    requires LocalInv(e) && LocalInv(p) && Link(e, p) && Link(p, e) && id in e.opening
    ensures id !in e.streams && id !in e.rx.ending && e.rx.reader != Sending(id, End) && CloseFrame(id) !in e.rx.handled
  {
    hide Scan, DataOf, EncodeAll, SendOk, ReceiveOk, Payloads, Ends, Encode;
    OpeningIsFresh(e, p, id);
    if OpenFrame(id) in e.rx.handled {
      OpensAreMine(p, id);
    }
    forall f | f in e.rx.handled ensures f.id != id {
      assert f in p.tx.done;
    }
  }

  lemma InsertKeepsTable(e: Endpoint)
    requires TableInv(e) && LocalInv(e)
    ensures TableInv(DoInsert(e))
  {
    hide Ends, Scan, DataOf, SendOk, ReceiveOk, TransmitOk, EntryOk;
    if e.rx.reader.Inserting? {
      var e', id := DoInsert(e), e.rx.reader.id;
      NewEntryOk(e'.rx, id, e'.streams[id]);
      forall x | x in e'.streams ensures EntryOk(e'.rx, x, e'.streams[x]) {
        if x != id {
          OtherEntryOk(e.rx, e'.rx, x, e.streams[x], id);
        }
      }
    }
  }

  lemma DispatchEntry(rx: Receive, f: Frame, id: u64, st: Stream)
    requires EntryOk(rx, id, st) && rx.reader.Idle? && FRAME_OPEN <= f.kind <= FRAME_CLOSE
    requires (f.kind != FRAME_DATA ==> f.payload == []) && CloseFrame(f.id) !in rx.handled
    ensures EntryOk(Dispatched(rx, f), id, st)
  {
    hide Ends, Encode;
    assert f.kind == FRAME_CLOSE ==> f == CloseFrame(f.id);
    assert CloseFrame(id) in rx.handled + [f] <==> CloseFrame(id) in rx.handled || f == CloseFrame(id);
  }

  lemma DispatchAccepts(rx: Receive, f: Frame, streams: map<u64, Stream>)
    requires AcceptOk(rx, streams) && rx.reader.Idle? && FRAME_OPEN <= f.kind <= FRAME_CLOSE && CloseFrame(f.id) !in rx.handled
    ensures AcceptOk(Dispatched(rx, f), streams)
  {
    hide Encode;
  }

  lemma ReadFrameKeepsTable(e: Endpoint, p: Endpoint)
    requires TableInv(e) && LocalInv(e) && LocalInv(p) && Link(e, p)
    ensures TableInv(DoReadFrame(e, p.tx.wire))
  {
    hide Scan, DataOf, Encode, EncodeAll, SendOk, ReceiveOk, ShapeOk, Payloads, Ends, DecodeOne, EntryOk, AcceptOk, LockOk, Unfinished;
    var e' := DoReadFrame(e, p.tx.wire);
    if e' != e {
      var f := DecodeOne(Mux, p.tx.wire[e.rx.pos..]).value;
      NextFrameIsNextSent(e, p);
      NextFrameFacts(e, p, f);
      assert e'.rx == Dispatched(e.rx, f);
      DispatchAccepts(e.rx, f, e.streams);
      forall x | x in e.streams ensures EntryOk(e'.rx, x, e.streams[x]) { DispatchEntry(e.rx, f, x, e.streams[x]); }
    }
  }

  // ---------------------------------------------------------------- every run

  lemma LocalStepKeepsTable(e: Endpoint, p: Endpoint, move: Move)
    requires TableInv(e) && LocalInv(e) && LocalInv(p) && Link(e, p) && Link(p, e)
    ensures TableInv(LocalStep(e, p.tx.wire, move))
  {
    hide TableInv, LocalInv, Link, Calm, DoWrite, DoClose, DoDrop, DoDropEntry, DoSplit, DoRecv, DoDisconnected, DoReadOut,
      DoSendEnd, DoAcquire, DoPush, DoFinish, DoFail, DoDeliver, DoStopReader, DoSwapClosed, DoTakeTable, DoDropSession,
      DoReadFrame, DoInsert, DoOpenInsert;
    var e' := LocalStep(e, p.tx.wire, move);
    match move
    case OpenCheck(id) => CheckIsCalm(e, id); CalmKeeps(e, e');
    case OpenInsert(id) => OpenInsertKeepsTable(e, p, id);
    case Write(id, handle, payload) => WritersAreCalm(e, id, handle, payload); CalmKeeps(e, e');
    case Close(id, handle, attached) => ClosersAreCalm(e, id, handle, attached); CalmKeeps(e, e');
    case Drop(id, handle, attached) => ClosersAreCalm(e, id, handle, attached); CalmKeeps(e, e');
    case DropEntry(id) => DropEntryKeepsTable(e, id);
    case Acquire(id) => WritersAreCalm(e, id, Entire, []); CalmKeeps(e, e');
    case Split(id) => WritersAreCalm(e, id, Entire, []); CalmKeeps(e, e');
    case Push(n) => TransportIsCalm(e, n); CalmKeeps(e, e');
    case Finish => TransportIsCalm(e, 0); CalmKeeps(e, e');
    case Fail => TransportIsCalm(e, 0); CalmKeeps(e, e');
    case ReadFrame => ReadFrameKeepsTable(e, p);
    case Deliver => DeliverKeepsTable(e);
    case Insert => InsertKeepsTable(e);
    case StopReader => StopsAreCalm(e); CalmKeeps(e, e');
    case SwapClosed => StopsAreCalm(e); CalmKeeps(e, e');
    case TakeTable => SessionKeepsTable(e);
    case DropSession => SessionKeepsTable(e);
    case SendEnd(id) => SendEndKeepsTable(e, id);
    case Recv(id) => ReadersAreCalm(e, id, 0); CalmKeeps(e, e');
    case Disconnected(id) => ReadersAreCalm(e, id, 0); CalmKeeps(e, e');
    case ReadOut(id, n) => ReadersAreCalm(e, id, n); CalmKeeps(e, e');
  }

  lemma CheckIsCalm(e: Endpoint, id: u64)
    ensures Calm(e, e.(opening := e.opening + {id})) && Calm(e, e)
  {
    hide Ends;
  }

  lemma StepKeepsTables(s: System, a: Action)
    requires Inv(s) && TableInv(s.near) && TableInv(s.far)
    ensures TableInv(Step(s, a).near) && TableInv(Step(s, a).far)
  {
    hide TableInv, LocalInv, Link, LocalStep;
    LocalStepKeepsTable(s.At(a.side), s.Peer(a.side), a.move);
  }

  lemma {:induction false} RunKeepsTables(actions: seq<Action>)
    ensures TableInv(Run(START, actions).near) && TableInv(Run(START, actions).far)
  {
    if actions != [] {
      hide TableInv, Step, Inv;
      var init := actions[..|actions| - 1];
      RunKeepsTables(init);
      EveryRunIsGood(init);
      StepKeepsTables(Run(START, init), actions[|actions| - 1]);
    }
  }

  /**
   The table, over every run. An id in it has had no CLOSE from the peer. As long as the session is up
   and the owner has not closed the stream, the converse holds too, and a CLOSE that has been
   dispatched has found the stream there. Every OPEN dispatched on a session that is still up has
   become a stream, or is just becoming one.
   */
  lemma TableDiscipline(actions: seq<Action>, side: Side, id: u64)
    ensures var e := Run(START, actions).At(side);
            && (id in e.streams && id in e.rx.table ==> CloseFrame(id) !in e.rx.handled)
            && (id in e.streams && !e.rx.gone && !e.rx.stage.Taken? && !e.streams[id].phase.Closed? ==>
                  && (id in e.rx.table <==> CloseFrame(id) !in e.rx.handled)
                  && (CloseFrame(id) in e.rx.handled ==> id in e.rx.finished))
            && (id in e.streams && e.streams[id].phase.Closed? && !e.streams[id].grip.detached ==> id !in e.rx.table)
            && (e.rx.stage.Up? && OpenFrame(id) in e.rx.handled ==> id in e.streams || e.rx.reader == Inserting(id))
  {
    hide Run, Ends;
    RunKeepsTables(actions);
    var e := Run(START, actions).At(side);
    assert TableInv(e);
    if id in e.streams {
      assert EntryOk(e.rx, id, e.streams[id]);
    }
  }

  /**
   Ends. As long as the session has not been dropped and the owner has not closed the stream, exactly
   one end marker has been delivered to its channel or is owed to it by the table, by the read loop or
   by a session close under way. In particular a reader is not left waiting after the peer's CLOSE:
   once it is dispatched on a session that is up, the marker is in the channel, behind all data, or in
   the read loop's hands.
   */
  lemma EndIsOwed(actions: seq<Action>, side: Side, id: u64)
    requires id in Run(START, actions).At(side).streams
    ensures var e := Run(START, actions).At(side);
            var st := e.streams[id];
            !e.rx.gone && !st.phase.Closed? ==>
              && Ends(st.chan) + MarkersOwed(e.rx, id) == 1
              && (CloseFrame(id) in e.rx.handled && !e.rx.stage.Taken? ==>
                    e.rx.reader == Sending(id, End) || (st.chan != [] && st.chan[|st.chan| - 1].End?))
  {
    hide Run, Ends, Payloads, DataOf, Link, TransmitOk, ShapeOk, SendOk;
    RunKeepsTables(actions);
    EveryRunIsGood(actions);
    var e := Run(START, actions).At(side);
    assert TableInv(e) && LocalInv(e);
    assert EntryOk(e.rx, id, e.streams[id]) && ReceiveOk(e.rx, id, e.streams[id]);
    NoMarkers();
  }

  lemma NoMarkers()
    ensures Ends([]) == 0
  {
  }

  /**
   Conservation without a proviso on the table: while the session is up and the owner has not closed
   the stream, every byte the peer's dispatched frames carry for it has been read, is buffered, is
   queued or is in the read loop's hands.
   */
  lemma AttachedLosesNothing(actions: seq<Action>, side: Side, id: u64)
    requires var e := Run(START, actions).At(side);
             id in e.streams && !e.rx.gone && !e.rx.stage.Taken? && !e.streams[id].phase.Closed?
    ensures var e := Run(START, actions).At(side);
            var st := e.streams[id];
            st.out + st.buf + (if st.taken <= |st.chan| then Payloads(st.chan[st.taken..]) else []) + InFlight(e.rx, id)
            == DataOf(id, e.rx.handled)
  {
    hide Run, Payloads, DataOf, InFlight;
    TableDiscipline(actions, side, id);
    NoByteLost(actions, side, id);
  }

  // ---------------------------------------------------------------- a closed session opens nothing

  /** The session is closing and no create_stream has passed the check before. */
  predicate Sealed(e: Endpoint) { !e.rx.stage.Up? && !e.rx.reader.Inserting? && e.opening == {} }

  predicate StaysSealed(e: Endpoint, e': Endpoint) { Sealed(e') && e'.streams.Keys == e.streams.Keys }

  lemma CalmStaysSealed(e: Endpoint, e': Endpoint)
    requires Sealed(e) && Calm(e, e') && e'.opening == e.opening
    ensures StaysSealed(e, e')
  {
    hide CalmStream;
  }

  lemma TableMovesStaySealed(e: Endpoint, id: u64, wire: seq<byte>)
    requires Sealed(e)
    ensures StaysSealed(e, DoDropEntry(e, id)) && StaysSealed(e, DoDeliver(e)) && StaysSealed(e, DoSendEnd(e, id))
    ensures StaysSealed(e, DoTakeTable(e)) && StaysSealed(e, DoDropSession(e)) && StaysSealed(e, DoReadFrame(e, wire))
    ensures StaysSealed(e, DoOpenInsert(e, id)) && StaysSealed(e, DoInsert(e)) && StaysSealed(e, e)
  {
    hide DecodeOne, Encode;
  }

  lemma StepStaysSealed(e: Endpoint, wire: seq<byte>, move: Move)
    requires LocalInv(e) && Sealed(e)
    ensures StaysSealed(e, LocalStep(e, wire, move))
  {
    var e' := LocalStep(e, wire, move);
    if IsOrdinary(move) {
      assert e'.opening == e.opening by { OrdinaryMoves(e, wire, move); }
    }
    hide LocalInv, Calm, DoWrite, DoClose, DoDrop, DoDropEntry, DoSplit, DoRecv, DoDisconnected, DoReadOut,
      DoSendEnd, DoAcquire, DoPush, DoFinish, DoFail, DoDeliver, DoStopReader, DoSwapClosed, DoTakeTable, DoDropSession,
      DoReadFrame, DoInsert, DoOpenInsert, Ordinary, StaysSealed;
    match move
    case OpenCheck(id) => TableMovesStaySealed(e, id, wire); assert !e.rx.stage.Up?;
    case OpenInsert(id) => TableMovesStaySealed(e, id, wire);
    case Write(id, handle, payload) => WritersAreCalm(e, id, handle, payload); CalmStaysSealed(e, e');
    case Close(id, handle, attached) => ClosersAreCalm(e, id, handle, attached); CalmStaysSealed(e, e');
    case Drop(id, handle, attached) => ClosersAreCalm(e, id, handle, attached); CalmStaysSealed(e, e');
    case DropEntry(id) => TableMovesStaySealed(e, id, wire);
    case Acquire(id) => WritersAreCalm(e, id, Entire, []); CalmStaysSealed(e, e');
    case Split(id) => WritersAreCalm(e, id, Entire, []); CalmStaysSealed(e, e');
    case Push(n) => TransportIsCalm(e, n); CalmStaysSealed(e, e');
    case Finish => TransportIsCalm(e, 0); CalmStaysSealed(e, e');
    case Fail => TransportIsCalm(e, 0); CalmStaysSealed(e, e');
    case ReadFrame => TableMovesStaySealed(e, 0, wire);
    case Deliver => TableMovesStaySealed(e, 0, wire);
    case Insert => TableMovesStaySealed(e, 0, wire);
    case StopReader => StopsAreCalm(e); CalmStaysSealed(e, e');
    case SwapClosed => StopsAreCalm(e); CalmStaysSealed(e, e');
    case TakeTable => TableMovesStaySealed(e, 0, wire);
    case DropSession => TableMovesStaySealed(e, 0, wire);
    case SendEnd(id) => TableMovesStaySealed(e, id, wire);
    case Recv(id) => ReadersAreCalm(e, id, 0); CalmStaysSealed(e, e');
    case Disconnected(id) => ReadersAreCalm(e, id, 0); CalmStaysSealed(e, e');
    case ReadOut(id, n) => ReadersAreCalm(e, id, n); CalmStaysSealed(e, e');
  }

  lemma PeerStepLeaves(s: System, a: Action, side: Side)
    requires a.side != side
    ensures Step(s, a).At(side) == s.At(side)
  {
    hide LocalStep;
  }

  lemma OwnStep(s: System, a: Action)
    ensures Step(s, a).At(a.side) == s.At(a.side)
         || Step(s, a).At(a.side) == LocalStep(s.At(a.side), s.Peer(a.side).tx.wire, a.move)
  {
    hide LocalStep;
  }

  /** Once a session is closing and no opening was already past its check, no stream is ever opened or accepted again. */
  lemma {:induction false} SealedOpensNothing(before: seq<Action>, after: seq<Action>, side: Side)
    requires Sealed(Run(START, before).At(side))
    ensures StaysSealed(Run(START, before).At(side), Run(START, before + after).At(side))
    decreases |after|
  {
    hide Step, Inv, LocalInv, Sealed;
    if after == [] {
      assert before + after == before;
    } else {
      var init, a := after[..|after| - 1], after[|after| - 1];
      SealedOpensNothing(before, init, side);
      assert (before + after)[..|before + after| - 1] == before + init;
      var s := Run(START, before + init);
      hide Run;
      if a.side == side {
        EveryRunIsGood(before + init);
        OneIsGood(s, side);
        StepStaysSealed(s.At(side), s.Peer(side).tx.wire, a.move);
        OwnStep(s, a);
      } else {
        PeerStepLeaves(s, a, side);
      }
    }
  }

  lemma OneIsGood(s: System, side: Side)
    requires Inv(s)
    ensures LocalInv(s.At(side))
  {
    hide LocalInv;
  }
}
