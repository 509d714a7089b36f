/**
 The multiplexed session as a labelled transition system. Two endpoints share one byte stream per
 direction. On each side any number of stream owners write, close and read, one read loop consumes
 the peer's bytes, and any thread may close the session. Every atomic or lock-protected section of
 the program is one action; an action that is not enabled changes nothing, so a run is any sequence
 of actions whatsoever.
 */
module MuxProtocol {
  import opened Wrappers
  import opened Frames

  // ---------------------------------------------------------------- state

  /** What travels through a stream's receive channel. */
  datatype Message = Payload(bytes: seq<byte>) | End

  /** Progress of the owner of the write half. */
  datatype Phase = Opening | Ready | Closing | Dropping | Closed

  /** A stream is held as a whole or as two halves; dropping the whole or the write half closes it. */
  datatype Handle = Entire | ReadEnd | WriteEnd

  datatype Grip = Grip(
    handles: set<Handle>, // the values that are still alive
    entireClosed: bool,   // write_closed of the whole stream
    halfClosed: bool,     // write_closed of the write half, a flag of its own
    detached: bool)       // closed when the session was already gone, so without a CLOSE frame

  datatype Stream = Stream(
    chan: seq<Message>,   // everything ever sent into the receive channel
    taken: nat,           // how many of those messages recv has returned
    buf: seq<byte>,       // bytes received and not yet handed to a caller
    out: seq<byte>,       // every byte read has returned
    readClosed: bool,
    grip: Grip,
    phase: Phase,
    call: Option<Frame>,  // the frame the owner is sending, if any
    acked: seq<byte>,     // the bytes of all writes that reported success
    failed: seq<byte>)    // a write that reported failure after its whole frame was handed over

  datatype Lock = Free | Held(id: u64, sent: nat)

  datatype Transmit = Transmit(
    wire: seq<byte>,      // every byte handed to the transport
    done: seq<Frame>,     // history: the frames that are wholly on the wire, in order
    tail: seq<byte>,      // history: the bytes after them
    lock: Lock,           // the writer mutex and how much of the holder's frame is written
    broken: bool)         // the transport has failed

  datatype Reader = Idle | Inserting(id: u64) | Sending(id: u64, message: Message) | Stopped

  datatype Stage = Up | Swapped | Taken

  datatype Receive = Receive(
    pos: nat,             // bytes of the peer's wire consumed by the read loop
    handled: seq<Frame>,  // history: the frames it has dispatched
    reader: Reader,
    stage: Stage,         // progress of close_session
    table: set<u64>,      // ids with a sender in the stream table
    ending: set<u64>,     // senders close_session has taken and not yet used
    finished: set<u64>,   // history: ids whose CLOSE found them in the table
    gone: bool)           // the session itself has been dropped

  datatype Endpoint = Endpoint(
    tx: Transmit,
    rx: Receive,
    streams: map<u64, Stream>,
    mine: set<u64>,     // ids opened from this side
    opening: set<u64>)    // ids whose create_stream has passed the closed check

  datatype Side = Near | Far

  datatype System = System(near: Endpoint, far: Endpoint, used: set<u64>) {
    function At(side: Side): Endpoint { if side.Near? then near else far }
    function Peer(side: Side): Endpoint { if side.Near? then far else near }
    function With(side: Side, e: Endpoint): System {
      if side.Near? then this.(near := e) else this.(far := e)
    }
  }

  function OpenFrame(id: u64): Frame { Frame(FRAME_OPEN, id, []) }
  function DataFrame(id: u64, payload: seq<byte>): Frame { Frame(FRAME_DATA, id, payload) }
  function CloseFrame(id: u64): Frame { Frame(FRAME_CLOSE, id, []) }
  function Bytes(f: Frame): seq<byte> { Encode(Mux, f) }

  function NewStream(phase: Phase, call: Option<Frame>): Stream {
    Stream([], 0, [], [], false, Grip({Entire}, false, false, false), phase, call, [], [])
  }

  const IDLE := Endpoint(Transmit([], [], [], Free, false), Receive(0, [], Idle, Up, {}, {}, {}, false), map[], {}, {})
  const START := System(IDLE, IDLE, {})

  // ---------------------------------------------------------------- actions

  datatype Move =
    | OpenCheck(id: u64)                    // create_stream: closed is still false
    | OpenInsert(id: u64)                   // create_stream: insert the sender
    | Write(id: u64, handle: Handle, payload: seq<byte>)   // write: accepted by the flow meter
    | Close(id: u64, handle: Handle, attached: bool)       // shutdown_write; is the session still there?
    | Drop(id: u64, handle: Handle, attached: bool)        // a handle goes away
    | DropEntry(id: u64)                    // close_write_once: drop_stream
    | Acquire(id: u64)                      // send_frame: take the writer mutex
    | Push(n: nat)                          // the transport takes n more bytes
    | Finish                                // flush succeeds, the mutex is released
    | Fail                                  // the transport fails for good
    | ReadFrame                             // read loop: read a frame and consult the table
    | Deliver                               // read loop: send into the channel
    | Insert                                // read loop: create the accepted stream
    | StopReader                            // read loop: end of input, cut, or flow limit
    | SwapClosed                            // close_session: closed becomes true
    | TakeTable                             // close_session: take all senders
    | SendEnd(id: u64)                      // close_session: send one end marker
    | DropSession                           // the last owner of the session is gone
    | Recv(id: u64)                         // read: receive one message
    | Disconnected(id: u64)                 // read: no message and no sender left
    | ReadOut(id: u64, n: nat)              // read: hand buffered bytes to the caller
    | Split(id: u64)                        // into_io_halves

  datatype Action = Action(side: Side, move: Move)

  function WriteClosed(g: Grip, handle: Handle): bool { if handle.Entire? then g.entireClosed else g.halfClosed }

  /** No method of the owner is running. */
  predicate AtRest(st: Stream) { st.call.None? && !st.phase.Opening? && !st.phase.Dropping? }

  /** `handle` is alive, can write and is free to be used. */
  predicate CanUse(e: Endpoint, id: u64, handle: Handle) {
    id in e.streams && handle in e.streams[id].grip.handles && !handle.ReadEnd? && AtRest(e.streams[id])
  }

  function SetStream(e: Endpoint, id: u64, st: Stream): Endpoint {
    e.(streams := e.streams[id := st])
  }

  function DoOpenInsert(e: Endpoint, id: u64): Endpoint {
    if id !in e.opening then e
    else e.(opening := e.opening - {id}, mine := e.mine + {id},
            rx := e.rx.(table := e.rx.table + {id}),
            streams := e.streams[id := NewStream(Opening, Some(OpenFrame(id)))])
  }

  function DoWrite(e: Endpoint, id: u64, handle: Handle, payload: seq<byte>): Endpoint {
    if !CanUse(e, id, handle) || WriteClosed(e.streams[id].grip, handle) || |payload| > MAX_FRAME then e
    else SetStream(e, id, e.streams[id].(call := Some(DataFrame(id, payload))))
  }

  /** close_write_once through a handle, whose own flag decides; `g` is the grip that remains. */
  function CloseOnce(st: Stream, id: u64, handle: Handle, attached: bool, g: Grip): Stream {
    if WriteClosed(st.grip, handle) then st.(grip := g)
    else
      var g' := if handle.Entire? then g.(entireClosed := true) else g.(halfClosed := true);
      if attached then st.(grip := g', phase := Closing, call := Some(CloseFrame(id)))
      else st.(grip := g'.(detached := true), phase := Closed)
  }

  function DoClose(e: Endpoint, id: u64, handle: Handle, attached: bool): Endpoint {
    if !CanUse(e, id, handle) then e
    else SetStream(e, id, CloseOnce(e.streams[id], id, handle, attached, e.streams[id].grip))
  }

  function Without(g: Grip, handle: Handle): Grip { g.(handles := g.handles - {handle}) }

  /** The drop of the whole stream or of the write half runs close_write_once; that of the read half does nothing. */
  function DoDrop(e: Endpoint, id: u64, handle: Handle, attached: bool): Endpoint {
    if id in e.streams && handle.ReadEnd? then
      SetStream(e, id, e.streams[id].(grip := Without(e.streams[id].grip, ReadEnd)))
    else if !CanUse(e, id, handle) then e
    else SetStream(e, id, CloseOnce(e.streams[id], id, handle, attached, Without(e.streams[id].grip, handle)))
  }

  function DoDropEntry(e: Endpoint, id: u64): Endpoint {
    if id !in e.streams || !e.streams[id].phase.Dropping? then e
    else SetStream(e.(rx := e.rx.(table := e.rx.table - {id})), id, e.streams[id].(phase := Closed))
  }

  function DoAcquire(e: Endpoint, id: u64): Endpoint {
    if e.tx.lock.Free? && id in e.streams && e.streams[id].call.Some?
    then e.(tx := e.tx.(lock := Held(id, 0))) else e
  }

  function DoPush(e: Endpoint, n: nat): Endpoint {
    if e.tx.lock.Free? || e.tx.broken || n == 0 || e.tx.lock.id !in e.streams
       || e.streams[e.tx.lock.id].call.None? then e
    else
      var Held(id, sent) := e.tx.lock;
      var f := e.streams[id].call.value;
      var bytes := Bytes(f);
      if sent + n > |bytes| then e
      else
        var whole := sent + n == |bytes|;
        e.(tx := Transmit(e.tx.wire + bytes[sent..sent + n],
                          if whole then e.tx.done + [f] else e.tx.done,
                          if whole then [] else bytes[..sent + n],
                          Held(id, sent + n), false))
  }

  predicate Whole(e: Endpoint, id: u64) {
    && e.tx.lock.Held? && e.tx.lock.id == id
    && id in e.streams && e.streams[id].call.Some?
    && e.tx.lock.sent == |Bytes(e.streams[id].call.value)|
  }

  function DoFinish(e: Endpoint): Endpoint {
    if e.tx.lock.Free? || !Whole(e, e.tx.lock.id) then e
    else
      var id := e.tx.lock.id;
      var st := e.streams[id];
      var st' := match st.phase
        case Opening => st.(phase := Ready, call := None)
        case Closing => st.(phase := Dropping, call := None)
        case _ => st.(acked := st.acked + st.call.value.payload, call := None);
      SetStream(e.(tx := e.tx.(lock := Free)), id, st')
  }

  function DoFail(e: Endpoint): Endpoint {
    if e.tx.lock.Free? || e.tx.lock.id !in e.streams || e.streams[e.tx.lock.id].call.None? then e
    else
      var id := e.tx.lock.id;
      var st := e.streams[id];
      var st' := match st.phase
        case Opening => st.(phase := Closing, call := Some(CloseFrame(id)), grip := Grip({}, true, false, false))
        case Closing => st.(phase := Dropping, call := None)
        case _ => st.(failed := if Whole(e, id) then st.failed + st.call.value.payload else st.failed, call := None);
      SetStream(e.(tx := e.tx.(lock := Free, broken := true)), id, st')
  }

  function DoReadFrame(e: Endpoint, wire: seq<byte>): Endpoint {
    if !e.rx.reader.Idle? || e.rx.pos > |wire| then e
    else match DecodeOne(Mux, wire[e.rx.pos..])
      case None => e
      case Some(f) =>
        var rx := e.rx.(pos := e.rx.pos + |Bytes(f)|, handled := e.rx.handled + [f]);
        var present := f.id in rx.table;
        if f.kind == FRAME_OPEN then e.(rx := rx.(reader := if rx.stage.Up? then Inserting(f.id) else Idle))
        else if f.kind == FRAME_DATA then
          e.(rx := rx.(reader := if present then Sending(f.id, Payload(f.payload)) else Idle))
        else
          e.(rx := if present then rx.(reader := Sending(f.id, End), table := rx.table - {f.id},
                                       finished := rx.finished + {f.id})
                   else rx)
  }

  function Append(e: Endpoint, id: u64, m: Message): Endpoint
    requires id in e.streams
  {
    SetStream(e, id, e.streams[id].(chan := e.streams[id].chan + [m]))
  }

  function DoDeliver(e: Endpoint): Endpoint {
    if !e.rx.reader.Sending? || e.rx.reader.id !in e.streams then e
    else Append(e.(rx := e.rx.(reader := Idle)), e.rx.reader.id, e.rx.reader.message)
  }

  function DoInsert(e: Endpoint): Endpoint {
    if !e.rx.reader.Inserting? then e
    else e.(rx := e.rx.(reader := Idle, table := e.rx.table + {e.rx.reader.id}),
            streams := e.streams[e.rx.reader.id := NewStream(Ready, None)])
  }

  function DoStopReader(e: Endpoint): Endpoint {
    if e.rx.reader.Idle? then e.(rx := e.rx.(reader := Stopped)) else e
  }

  function DoSwapClosed(e: Endpoint): Endpoint {
    if e.rx.stage.Up? then e.(rx := e.rx.(stage := Swapped)) else e
  }

  function DoTakeTable(e: Endpoint): Endpoint {
    if !e.rx.stage.Swapped? then e
    else e.(rx := e.rx.(stage := Taken, ending := e.rx.ending + e.rx.table, table := {}))
  }

  function DoSendEnd(e: Endpoint, id: u64): Endpoint {
    if id !in e.rx.ending || id !in e.streams then e
    else Append(e.(rx := e.rx.(ending := e.rx.ending - {id})), id, End)
  }

  function DoDropSession(e: Endpoint): Endpoint {
    if !e.rx.reader.Idle? && !e.rx.reader.Stopped? then e
    else e.(rx := e.rx.(reader := Stopped, table := {}, gone := true))
  }

  /** Some handle that can read is alive. */
  predicate CanRead(e: Endpoint, id: u64) {
    id in e.streams && (Entire in e.streams[id].grip.handles || ReadEnd in e.streams[id].grip.handles)
  }

  function DoRecv(e: Endpoint, id: u64): Endpoint {
    if !CanRead(e, id) then e
    else
      var st := e.streams[id];
      if st.buf != [] || st.readClosed || st.taken >= |st.chan| then e
      else match st.chan[st.taken]
        case Payload(bytes) => SetStream(e, id, st.(taken := st.taken + 1, buf := bytes))
        case End => SetStream(e, id, st.(taken := st.taken + 1, readClosed := true))
  }

  /** A sender for the channel of `id` exists: in the table, or taken out of it and not yet used. */
  predicate HasSender(e: Endpoint, id: u64) {
    id in e.rx.table || id in e.rx.ending || (e.rx.reader.Sending? && e.rx.reader.id == id)
  }

  function DoDisconnected(e: Endpoint, id: u64): Endpoint {
    if !CanRead(e, id) || HasSender(e, id) then e
    else
      var st := e.streams[id];
      if st.buf != [] || st.readClosed || st.taken != |st.chan| then e
      else SetStream(e, id, st.(readClosed := true))
  }

  function DoReadOut(e: Endpoint, id: u64, n: nat): Endpoint {
    if !CanRead(e, id) || n > |e.streams[id].buf| then e
    else
      var st := e.streams[id];
      SetStream(e, id, st.(out := st.out + st.buf[..n], buf := st.buf[n..]))
  }

  /** into_io_halves: the halves take over, with a copy of the flag, and the whole stream's drop never runs. */
  function DoSplit(e: Endpoint, id: u64): Endpoint {
    if !CanUse(e, id, Entire) then e
    else SetStream(e, id, e.streams[id].(grip := SplitGrip(e.streams[id].grip)))
  }

  function SplitGrip(g: Grip): Grip { g.(handles := {ReadEnd, WriteEnd}, halfClosed := g.entireClosed) }

  function LocalStep(e: Endpoint, peerWire: seq<byte>, move: Move): Endpoint {
    match move
    case OpenCheck(id) => if e.rx.stage.Up? then e.(opening := e.opening + {id}) else e
    case OpenInsert(id) => DoOpenInsert(e, id)
    case Write(id, handle, payload) => DoWrite(e, id, handle, payload)
    case Close(id, handle, attached) => DoClose(e, id, handle, attached)
    case Drop(id, handle, attached) => DoDrop(e, id, handle, attached)
    case DropEntry(id) => DoDropEntry(e, id)
    case Acquire(id) => DoAcquire(e, id)
    case Push(n) => DoPush(e, n)
    case Finish => DoFinish(e)
    case Fail => DoFail(e)
    case ReadFrame => DoReadFrame(e, peerWire)
    case Deliver => DoDeliver(e)
    case Insert => DoInsert(e)
    case StopReader => DoStopReader(e)
    case SwapClosed => DoSwapClosed(e)
    case TakeTable => DoTakeTable(e)
    case SendEnd(id) => DoSendEnd(e, id)
    case DropSession => DoDropSession(e)
    case Recv(id) => DoRecv(e, id)
    case Disconnected(id) => DoDisconnected(e, id)
    case ReadOut(id, n) => DoReadOut(e, id, n)
    case Split(id) => DoSplit(e, id)
  }

  /** One action. An id is opened at most once per session, whichever side opens it. */
  function Step(s: System, a: Action): System {
    if a.move.OpenCheck? && a.move.id in s.used then s
    else
      var s' := s.With(a.side, LocalStep(s.At(a.side), s.Peer(a.side).tx.wire, a.move));
      if a.move.OpenCheck? then s'.(used := s.used + {a.move.id}) else s'
  }

  function Run(s: System, actions: seq<Action>): System {
    if actions == [] then s else Step(Run(s, actions[..|actions| - 1]), actions[|actions| - 1])
  }
}
