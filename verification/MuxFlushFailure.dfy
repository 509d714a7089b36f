/**
 Why delivery speaks of failed writes: a write whose flush fails reports an error although the
 transport has already taken its whole frame, and the peer may then read its bytes.
 */
module MuxFlushFailure {
  import opened Wrappers
  import opened Frames
  import opened MuxProtocol

  const ID: u64 := 5
  const DATA: seq<byte> := [1]

  function OpenBytes(): seq<byte> { Bytes(OpenFrame(ID)) }
  function DataBytes(): seq<byte> { Bytes(DataFrame(ID, DATA)) }

  /** The near side opens the stream and then writes, but the flush fails. */
  function Opening(): seq<Action> {
    [Action(Near, OpenCheck(ID)), Action(Near, OpenInsert(ID)), Action(Near, Acquire(ID))]
  }

  function Opened(): seq<Action> {
    [Action(Near, Push(|OpenBytes()|)), Action(Near, Finish), Action(Near, Write(ID, Entire, DATA))]
  }

  function Failing(): seq<Action> {
    [Action(Near, Acquire(ID)), Action(Near, Push(|DataBytes()|)), Action(Near, Fail)]
  }

  /** The far side accepts the stream and reads. */
  function Accepting(): seq<Action> {
    [Action(Far, ReadFrame), Action(Far, Insert), Action(Far, ReadFrame)]
  }

  function Reading(): seq<Action> {
    [Action(Far, Deliver), Action(Far, Recv(ID)), Action(Far, ReadOut(ID, 1))]
  }

  function Then(s: System, actions: seq<Action>): System
    decreases |actions|
  {
    if actions == [] then s else Then(Step(s, actions[0]), actions[1..])
  }

  lemma {:induction false} RunIsThen(before: seq<Action>, actions: seq<Action>)
    ensures Run(START, before + actions) == Then(Run(START, before), actions)
    decreases |actions|
  {
    hide Step;
    if actions == [] {
      assert before + actions == before;
    } else {
      assert (before + [actions[0]])[..|before|] == before;
      RunIsThen(before + [actions[0]], actions[1..]);
      assert before + [actions[0]] + actions[1..] == before + actions;
    }
  }

  lemma ThenThree(s: System, x: Action, y: Action, z: Action)
    ensures Then(s, [x, y, z]) == Step(Step(Step(s, x), y), z)
  {
    hide Step;
    assert [x, y, z][1..] == [y, z] && [y, z][1..] == [z] && [z][1..] == [];
    var s1 := Step(s, x);
    var s2 := Step(s1, y);
    assert Then(s2, [z]) == Step(s2, z);
    assert Then(s1, [y, z]) == Then(s2, [z]);
  }

  const FRESH := NewStream(Phase.Opening, Some(OpenFrame(ID)))
  const TABLE := Receive(0, [], Idle, Up, {ID}, {}, {}, false)

  function NearOpening(): Endpoint {
    Endpoint(Transmit([], [], [], Held(ID, 0), false), TABLE, map[ID := FRESH], {ID}, {})
  }

  function NearWriting(): Endpoint {
    Endpoint(Transmit(OpenBytes(), [OpenFrame(ID)], [], Free, false), TABLE,
             map[ID := NewStream(Ready, Some(DataFrame(ID, DATA)))], {ID}, {})
  }

  function NearFailed(): Endpoint {
    Endpoint(Transmit(OpenBytes() + DataBytes(), [OpenFrame(ID), DataFrame(ID, DATA)], [], Free, true), TABLE,
             map[ID := NewStream(Ready, None).(failed := DATA)], {ID}, {})
  }

  lemma PushWhole(e: Endpoint, f: Frame)
    requires e.tx.lock == Held(ID, 0) && !e.tx.broken && ID in e.streams && e.streams[ID].call == Some(f)
    ensures DoPush(e, |Bytes(f)|)
         == e.(tx := Transmit(e.tx.wire + Bytes(f), e.tx.done + [f], [], Held(ID, |Bytes(f)|), false))
  {
    hide Encode;
    assert Bytes(f)[0..|Bytes(f)|] == Bytes(f);
  }

  lemma NearOpens()
    ensures Then(START, Opening()) == System(NearOpening(), IDLE, {ID})
  {
    hide Encode;
    ThenThree(START, Action(Near, OpenCheck(ID)), Action(Near, OpenInsert(ID)), Action(Near, Acquire(ID)));
    assert Step(START, Action(Near, OpenCheck(ID))) == System(IDLE.(opening := {ID}), IDLE, {ID});
    assert DoOpenInsert(IDLE.(opening := {ID}), ID) == NearOpening().(tx := IDLE.tx);
  }

  lemma NearWrites()
    ensures Then(System(NearOpening(), IDLE, {ID}), Opened()) == System(NearWriting(), IDLE, {ID})
  {
    hide Encode;
    var s := System(NearOpening(), IDLE, {ID});
    ThenThree(s, Action(Near, Push(|OpenBytes()|)), Action(Near, Finish), Action(Near, Write(ID, Entire, DATA)));
    PushWhole(NearOpening(), OpenFrame(ID));
    var e := DoPush(NearOpening(), |OpenBytes()|);
    assert e.tx.wire == OpenBytes();
    var e2 := DoFinish(e);
    assert e2 == NearWriting().(streams := map[ID := NewStream(Ready, None)]);
    assert DoWrite(e2, ID, Entire, DATA) == NearWriting();
  }

  lemma NearFails()
    ensures Then(System(NearWriting(), IDLE, {ID}), Failing()) == System(NearFailed(), IDLE, {ID})
  {
    hide Encode;
    var s := System(NearWriting(), IDLE, {ID});
    ThenThree(s, Action(Near, Acquire(ID)), Action(Near, Push(|DataBytes()|)), Action(Near, Fail));
    var e := DoAcquire(NearWriting(), ID);
    PushWhole(e, DataFrame(ID, DATA));
    var e2 := DoPush(e, |DataBytes()|);
    assert e2.tx.done == [OpenFrame(ID), DataFrame(ID, DATA)];
    assert DoFail(e2).streams[ID].failed == [] + DATA == DATA;
    assert DoFail(e2) == NearFailed();
  }

  function FarReceived(): Endpoint {
    Endpoint(IDLE.tx,
             Receive(|OpenBytes()| + |DataBytes()|, [OpenFrame(ID), DataFrame(ID, DATA)], Sending(ID, Payload(DATA)), Up, {ID}, {}, {}, false),
             map[ID := NewStream(Ready, None)], {}, {})
  }

  lemma FarAccepts()
    ensures Then(System(NearFailed(), IDLE, {ID}), Accepting()) == System(NearFailed(), FarReceived(), {ID})
  {
    hide Encode, DecodeOne;
    var s := System(NearFailed(), IDLE, {ID});
    var wire := OpenBytes() + DataBytes();
    ThenThree(s, Action(Far, ReadFrame), Action(Far, Insert), Action(Far, ReadFrame));
    DecodeOneOfEncode(Mux, OpenFrame(ID), DataBytes());
    DecodeOneOfEncode(Mux, DataFrame(ID, DATA), []);
    assert wire[0..] == wire;
    assert wire[|OpenBytes()|..] == DataBytes() + [];
    var e1 := DoReadFrame(IDLE, wire);
    assert e1.rx == Receive(|OpenBytes()|, [OpenFrame(ID)], Inserting(ID), Up, {}, {}, {}, false);
    var e2 := DoInsert(e1);
    assert e2.rx == Receive(|OpenBytes()|, [OpenFrame(ID)], Idle, Up, {ID}, {}, {}, false);
    assert DoReadFrame(e2, wire).rx.handled == [OpenFrame(ID), DataFrame(ID, DATA)];
    assert DoReadFrame(e2, wire) == FarReceived();
  }

  lemma FarDelivers()
    ensures DoDeliver(FarReceived()).streams == map[ID := NewStream(Ready, None).(chan := [Payload(DATA)])]
    ensures DoDeliver(FarReceived()).rx.reader == Idle
  {
    hide Encode;
    assert [] + [Payload(DATA)] == [Payload(DATA)];
  }

  lemma FarTakes(e: Endpoint)
    requires e.streams == map[ID := NewStream(Ready, None).(chan := [Payload(DATA)])]
    ensures ID in DoReadOut(DoRecv(e, ID), ID, 1).streams && DoReadOut(DoRecv(e, ID), ID, 1).streams[ID].out == DATA
  {
    var e2 := DoRecv(e, ID);
    assert e2.streams[ID].buf == DATA && e2.streams[ID].out == [];
    assert DATA[..1] == DATA;
  }

  lemma FarSteps(s: System)
    ensures Step(s, Action(Far, Deliver)) == s.(far := DoDeliver(s.far))
    ensures Step(s, Action(Far, Recv(ID))) == s.(far := DoRecv(s.far, ID))
    ensures Step(s, Action(Far, ReadOut(ID, 1))) == s.(far := DoReadOut(s.far, ID, 1))
  {
    hide DoDeliver, DoRecv, DoReadOut;
  }

  lemma FarReads()
    ensures var s := Then(System(NearFailed(), FarReceived(), {ID}), Reading());
            s.near == NearFailed() && ID in s.far.streams && s.far.streams[ID].out == DATA
  {
    hide Then, Step, DoDeliver, DoRecv, DoReadOut, NearFailed, FarReceived;
    var s := System(NearFailed(), FarReceived(), {ID});
    ThenThree(s, Action(Far, Deliver), Action(Far, Recv(ID)), Action(Far, ReadOut(ID, 1)));
    FarSteps(s);
    var s1 := s.(far := DoDeliver(s.far));
    FarSteps(s1);
    FarSteps(s1.(far := DoRecv(s1.far, ID)));
    FarDelivers();
    FarTakes(s1.far);
  }

  /** There is a run after which the peer has read a byte that no successful write ever sent. */
  lemma ReadCanExceedAcknowledged()
    ensures exists actions: seq<Action> ::
              var s := Run(START, actions);
              && ID in s.far.streams && ID in s.near.streams
              && !(s.far.streams[ID].out <= s.near.streams[ID].acked)
  {
    hide Then, Run, Opening, Opened, Failing, Accepting, Reading, Encode;
    var a := [] + Opening() + Opened() + Failing() + Accepting() + Reading();
    assert Run(START, []) == START by { RunNothing(); }
    RunIsThen([], Opening());
    NearOpens();
    RunIsThen([] + Opening(), Opened());
    NearWrites();
    RunIsThen([] + Opening() + Opened(), Failing());
    NearFails();
    RunIsThen([] + Opening() + Opened() + Failing(), Accepting());
    FarAccepts();
    RunIsThen([] + Opening() + Opened() + Failing() + Accepting(), Reading());
    FarReads();
    assert Run(START, a).far.streams[ID].out == DATA;
  }

  lemma RunNothing()
    ensures Run(START, []) == START
  {
  }
}
