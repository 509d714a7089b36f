/** The traffic counter that all streams of a client share, and the cap on it. */
module FlowMeter {

  const U64_MAX: nat := 0xFFFF_FFFF_FFFF_FFFF
  const CHUNK: nat := 16 * 1024

  function SaturatingAdd(a: nat, b: nat): nat { if a + b > U64_MAX then U64_MAX else a + b }
  function SaturatingMul(a: nat, b: nat): nat { if a * b > U64_MAX then U64_MAX else a * b }

  /** The cap in bytes for a limit configured in megabytes; zero means unlimited. */
  function CapBytes(limitMb: nat): nat { SaturatingMul(limitMb, 1024 * 1024) }

  lemma CapIsProper(limitMb: nat)
    ensures 0 < CapBytes(limitMb) < U64_MAX <==> 0 < limitMb < 0x1000_0000_0000
  {
  }

  datatype Flow = Flow(inlet: nat, outlet: nat) {
    function Total(): nat { inlet + outlet }
    predicate Valid() { inlet <= U64_MAX && outlet <= U64_MAX }
  }

  datatype Amount = Amount(inlet: nat, outlet: nat)

  predicate Accepts(cap: nat, f: Flow, a: Amount) {
    cap == 0 || SaturatingAdd(SaturatingAdd(f.inlet, a.inlet), SaturatingAdd(f.outlet, a.outlet)) <= cap
  }

  /** The counter after one attempt: recorded when accepted, untouched when rejected. */
  function Recorded(cap: nat, f: Flow, a: Amount): Flow {
    if Accepts(cap, f, a) then Flow(SaturatingAdd(f.inlet, a.inlet), SaturatingAdd(f.outlet, a.outlet)) else f
  }

  class FlowCounter {
    var inlet: nat
    var outlet: nat

    function State(): Flow
      reads this
    {
      Flow(inlet, outlet)
    }

    constructor ()
      ensures State() == Flow(0, 0)
    {
      inlet, outlet := 0, 0;
    }

    method Record(cap: nat, a: Amount) returns (ok: bool)
      modifies this
      ensures ok == Accepts(cap, old(State()), a)
      ensures State() == Recorded(cap, old(State()), a)
    {
      var nextInlet := SaturatingAdd(inlet, a.inlet);
      var nextOutlet := SaturatingAdd(outlet, a.outlet);
      if cap > 0 && SaturatingAdd(nextInlet, nextOutlet) > cap {
        return false;
      }
      inlet, outlet := nextInlet, nextOutlet;
      ok := true;
    }
  }

  // ---------------------------------------------------------------- any number of streams

  function After(cap: nat, f: Flow, attempts: seq<Amount>): Flow {
    if attempts == [] then f
    else Recorded(cap, After(cap, f, attempts[..|attempts| - 1]), attempts[|attempts| - 1])
  }

  /** What the accepted attempts add up to, in each direction. */
  function Accepted(cap: nat, f: Flow, attempts: seq<Amount>): Amount {
    if attempts == [] then Amount(0, 0)
    else
      var init, last := attempts[..|attempts| - 1], attempts[|attempts| - 1];
      var sum := Accepted(cap, f, init);
      if Accepts(cap, After(cap, f, init), last) then Amount(sum.inlet + last.inlet, sum.outlet + last.outlet) else sum
  }

  /**
   The cap. For a cap strictly between zero and the largest u64, whatever attempts any streams make in
   any order, the total never passes the cap (or the level it started from), and both counters are the
   exact sums of what was accepted: no addition ever saturates.
   */
  lemma {:induction false} CapHolds(cap: nat, f: Flow, attempts: seq<Amount>)
    requires 0 < cap < U64_MAX
    ensures var e, sum := After(cap, f, attempts), Accepted(cap, f, attempts);
            && e == Flow(f.inlet + sum.inlet, f.outlet + sum.outlet)
            && (e == f || e.Total() <= cap)
  {
    if attempts != [] {
      CapHolds(cap, f, attempts[..|attempts| - 1]);
      ExactWhenAccepted(cap, After(cap, f, attempts[..|attempts| - 1]), attempts[|attempts| - 1]);
    }
  }

  predicate Exact(cap: nat, f: Flow, a: Amount) {
    Recorded(cap, f, a) == if Accepts(cap, f, a) then Flow(f.inlet + a.inlet, f.outlet + a.outlet) else f
  }

  lemma ExactWhenAccepted(cap: nat, f: Flow, a: Amount)
    requires 0 < cap < U64_MAX
    ensures Exact(cap, f, a) && (Accepts(cap, f, a) ==> Recorded(cap, f, a).Total() <= cap)
  {
  }

  /** Under such a cap an amount is accepted exactly when it fits; without one, always. */
  lemma AcceptedIffFits(cap: nat, f: Flow, a: Amount)
    requires cap < U64_MAX
    ensures Accepts(cap, f, a) <==> cap == 0 || f.inlet + a.inlet + f.outlet + a.outlet <= cap
  {
  }

  /** Recording is exact for every counter and amount precisely for those caps. */
  lemma ExactIffCapIsProper(cap: nat)
    ensures (forall f: Flow, a: Amount :: Exact(cap, f, a)) <==> 0 < cap < U64_MAX
  {
    if 0 < cap < U64_MAX {
      forall f: Flow, a: Amount ensures Exact(cap, f, a) { ExactWhenAccepted(cap, f, a); }
    } else {
      var f, a := Flow(U64_MAX, 0), Amount(1, 0);
      if cap == 0 || cap == U64_MAX {
        assert !Exact(cap, f, a);
      } else {
        assert Accepts(cap, f, a) && !Exact(cap, f, a);
      }
    }
  }

  // ---------------------------------------------------------------- relayed bytes

  /** What metered connections do: raw connections copy in chunks, mux sessions send whole payloads. */
  datatype Event =
    | ReadChunk(conn: nat, n: nat)    // a metered reader returned n bytes, which are then forwarded
    | WriteChunk(conn: nat, n: nat)   // the inner writer of a metered connection took n bytes
    | MuxSend(n: nat)                 // a DATA payload handed to send_frame
    | MuxReceive(n: nat)              // a DATA payload met by a read loop, which a refusal ends

  /** `readDone`/`writeDone`: connections whose copy loop in that direction has ended with an error. */
  datatype Relay = Relay(flow: Flow, readDone: set<nat>, writeDone: set<nat>, forwarded: nat)

  function Step(cap: nat, r: Relay, e: Event): Relay {
    match e
    case ReadChunk(conn, n) =>
      var a := Amount(0, n);
      if n == 0 || n > CHUNK || conn in r.readDone then r
      else if Accepts(cap, r.flow, a) then r.(flow := Recorded(cap, r.flow, a), forwarded := r.forwarded + n)
      else r.(readDone := r.readDone + {conn})
    case WriteChunk(conn, n) =>
      var a := Amount(n, 0);
      if n == 0 || n > CHUNK || conn in r.writeDone then r
      else if Accepts(cap, r.flow, a) then r.(flow := Recorded(cap, r.flow, a), forwarded := r.forwarded + n)
      else r.(writeDone := r.writeDone + {conn}, forwarded := r.forwarded + n)
    case MuxSend(n) =>
      var a := Amount(n, 0);
      if Accepts(cap, r.flow, a) then r.(flow := Recorded(cap, r.flow, a), forwarded := r.forwarded + n) else r
    case MuxReceive(n) =>
      var a := Amount(0, n);
      if Accepts(cap, r.flow, a) then r.(flow := Recorded(cap, r.flow, a), forwarded := r.forwarded + n) else r
  }

  function Run(cap: nat, f: Flow, events: seq<Event>): Relay {
    if events == [] then Relay(f, {}, {}, 0)
    else Step(cap, Run(cap, f, events[..|events| - 1]), events[|events| - 1])
  }

  predicate Below(s: set<nat>, k: nat) { forall x | x in s :: x < k }

  lemma {:induction false} OvershootIsOneChunkEach(cap: nat, f: Flow, events: seq<Event>, k: nat)
    requires 0 < cap < U64_MAX
    requires forall i | 0 <= i < |events| :: events[i].WriteChunk? ==> events[i].conn < k
    ensures Bounded(cap, f, Run(cap, f, events), k)
  {
    if events != [] {
      var init, last := events[..|events| - 1], events[|events| - 1];
      OvershootIsOneChunkEach(cap, f, init, k);
      StepOvershoot(cap, f, Run(cap, f, init), last, k);
    }
  }

  predicate Bounded(cap: nat, f: Flow, r: Relay, k: nat) {
    && r.forwarded + f.Total() <= r.flow.Total() + CHUNK * |r.writeDone|
    && Below(r.writeDone, k)
    && (r.flow == f || r.flow.Total() <= cap)
  }

  lemma StepOvershoot(cap: nat, f: Flow, r: Relay, e: Event, k: nat)
    requires 0 < cap < U64_MAX && Bounded(cap, f, r, k) && (e.WriteChunk? ==> e.conn < k)
    ensures Bounded(cap, f, Step(cap, r, e), k)
  {
    hide Accepts, Recorded;
    var a := if e.ReadChunk? || e.MuxReceive? then Amount(0, e.n) else Amount(e.n, 0);
    RecordingGrows(cap, r.flow, a);
    if e.WriteChunk? && e.conn !in r.writeDone {
      assert |r.writeDone + {e.conn}| == |r.writeDone| + 1;
    }
  }

  lemma RecordingGrows(cap: nat, f: Flow, a: Amount)
    requires 0 < cap < U64_MAX
    ensures var r := Recorded(cap, f, a);
            if Accepts(cap, f, a) then r.Total() == f.Total() + a.inlet + a.outlet && r.Total() <= cap else r == f
  {
    ExactWhenAccepted(cap, f, a);
  }

  lemma {:induction false} SizeBelow(s: set<nat>, k: nat)
    requires Below(s, k)
    ensures |s| <= k
    decreases k
  {
    if k > 0 {
      SizeBelow(s - {k - 1}, k - 1);
      assert |s| <= |s - {k - 1}| + 1;
    } else {
      assert s == {};
    }
  }

  /**
   Forwarded traffic. From a fresh counter, k raw connections together with any number of mux sessions
   forward at most the cap plus one 16 KiB chunk per raw connection; without raw connections the mux
   sessions never send a payload byte over the cap.
   */
  lemma ForwardedIsCapped(cap: nat, events: seq<Event>, k: nat)
    requires 0 < cap < U64_MAX
    requires forall i | 0 <= i < |events| :: events[i].WriteChunk? ==> events[i].conn < k
    ensures Run(cap, Flow(0, 0), events).forwarded <= cap + k * CHUNK
  {
    var r := Run(cap, Flow(0, 0), events);
    OvershootIsOneChunkEach(cap, Flow(0, 0), events, k);
    SizeBelow(r.writeDone, k);
    assert CHUNK * |r.writeDone| <= CHUNK * k;
  }
}
