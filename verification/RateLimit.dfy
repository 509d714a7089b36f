/**
 The token bucket that both the relay and the mux session use. Times are seconds and quantities are
 bytes, both idealised to real numbers; the current time is an argument.
 */
module RateLimit {

  datatype Bucket = Bucket(allowance: real, last: real)

  /** The allowance at time `now`, after refilling and capping. */
  function Refilled(rate: nat, b: Bucket, now: real): real {
    var elapsed := if now > b.last then now - b.last else 0.0;
    var level := b.allowance + elapsed * rate as real;
    if level < rate as real then level else rate as real
  }

  /** After waiting `d` the bucket covers the request. */
  predicate Covers(rate: nat, level: real, bytes: nat, d: real) {
    d >= 0.0 && level + d * rate as real >= bytes as real
  }

  /** The bucket after a call for `bytes` at time `now`, and the delay the caller must sleep. */
  function Plan(rate: nat, b: Bucket, bytes: nat, now: real): (Bucket, real) {
    if rate == 0 || bytes == 0 then (b.(last := now), 0.0)
    else
      var level := Refilled(rate, b, now);
      if level >= bytes as real then (Bucket(level - bytes as real, now), 0.0)
      else
        var delay := (bytes as real - level) / rate as real;
        (Bucket(0.0, now + delay), delay)
  }

  class RateGovernor {
    const bytesPerSec: nat
    var allowance: real
    var last: real

    constructor (bytesPerSec: nat, now: real)
      ensures this.bytesPerSec == bytesPerSec && allowance == bytesPerSec as real && last == now
    {
      this.bytesPerSec := bytesPerSec;
      allowance := bytesPerSec as real;
      last := now;
    }

    function State(): Bucket
      reads this
    {
      Bucket(allowance, last)
    }

    /** The delay is the least one after which the refilled bucket covers the request. */
    method PlanDelay(bytes: nat, now: real) returns (delay: real)
      modifies this
      ensures (State(), delay) == Plan(bytesPerSec, old(State()), bytes, now)
      ensures delay >= 0.0 && last == now + delay
      ensures 0.0 <= old(allowance) <= bytesPerSec as real ==> 0.0 <= allowance <= bytesPerSec as real
      ensures bytesPerSec > 0 && bytes > 0 ==>
                var level := Refilled(bytesPerSec, old(State()), now);
                && Covers(bytesPerSec, level, bytes, delay)
                && forall d: real :: Covers(bytesPerSec, level, bytes, d) ==> delay <= d
    {
      hide Covers;
      ghost var b := State();
      if bytesPerSec == 0 || bytes == 0 {
        last := now;
        return 0.0;
      }
      var elapsed := if now > last then now - last else 0.0;
      allowance := allowance + elapsed * bytesPerSec as real;
      if allowance >= bytesPerSec as real {
        allowance := bytesPerSec as real;
      }
      assert allowance == Refilled(bytesPerSec, b, now);
      hide Refilled;
      last := now;
      if allowance >= bytes as real {
        allowance := allowance - bytes as real;
        delay := 0.0;
      } else {
        var missing := bytes as real - allowance;
        allowance := 0.0;
        delay := missing / bytesPerSec as real;
        last := last + delay;
      }
      assert (State(), delay) == Plan(bytesPerSec, b, bytes, now);
      hide Plan;
      PlanIsLeast(bytesPerSec, b, bytes, now);
    }
  }

  predicate InRange(rate: nat, b: Bucket) { 0.0 <= b.allowance <= rate as real }

  lemma DivideBy(x: real, rate: nat)
    requires rate > 0
    ensures (x / rate as real) * rate as real == x
    ensures x >= 0.0 ==> x / rate as real >= 0.0
  {
  }

  lemma NotLess(x: real, d: real, rate: nat)
    requires rate > 0 && d * rate as real >= x
    ensures x / rate as real <= d
  {
    DivideBy(x, rate);
  }

  lemma PlanIsLeast(rate: nat, b: Bucket, bytes: nat, now: real)
    ensures var (b', delay) := Plan(rate, b, bytes, now);
            && delay >= 0.0 && b'.last == now + delay
            && (InRange(rate, b) ==> InRange(rate, b'))
            && (rate > 0 && bytes > 0 ==>
                  var level := Refilled(rate, b, now);
                  && Covers(rate, level, bytes, delay)
                  && forall d: real :: Covers(rate, level, bytes, d) ==> delay <= d)
  {
    if rate > 0 && bytes > 0 {
      var level := Refilled(rate, b, now);
      DivideBy(bytes as real - level, rate);
      RefillInRange(rate, b, now);
      forall d: real | Covers(rate, level, bytes, d)
        ensures Plan(rate, b, bytes, now).1 <= d
      {
        NotLess(bytes as real - level, d, rate);
      }
    }
  }

  lemma RefillInRange(rate: nat, b: Bucket, now: real)
    ensures InRange(rate, b) ==> 0.0 <= Refilled(rate, b, now) <= rate as real
  {
    if InRange(rate, b) && now > b.last {
      assert (now - b.last) * rate as real >= 0.0;
    }
  }

  // ---------------------------------------------------------------- many calls

  datatype Call = Call(bytes: nat, now: real)

  function After(rate: nat, b: Bucket, calls: seq<Call>): Bucket
    decreases |calls|
  {
    if calls == [] then b
    else After(rate, Plan(rate, b, calls[0].bytes, calls[0].now).0, calls[1..])
  }

  function Total(calls: seq<Call>): nat {
    if calls == [] then 0 else calls[0].bytes + Total(calls[1..])
  }

  /** Each call starts no earlier than the time the previous caller was released. */
  predicate Paced(rate: nat, b: Bucket, calls: seq<Call>)
    decreases |calls|
  {
    calls == [] ||
    (calls[0].now >= b.last && Paced(rate, Plan(rate, b, calls[0].bytes, calls[0].now).0, calls[1..]))
  }

  /** Spending `total` and ending at `e` is paid for by `level` and the refill since `from`. */
  predicate Covered(rate: nat, level: real, from: real, e: Bucket, total: nat) {
    e.allowance + total as real <= level + rate as real * (e.last - from)
  }

  /** What one call spends is covered by the refill since the last release and by its own delay. */
  lemma CallIsCovered(rate: nat, b: Bucket, bytes: nat, now: real)
    requires rate > 0 && InRange(rate, b) && now >= b.last
    ensures var (b', delay) := Plan(rate, b, bytes, now);
            && Covered(rate, b.allowance, b.last, b', bytes)
            && Covered(rate, rate as real, now, b', bytes)
  {
    var (b', delay) := Plan(rate, b, bytes, now);
    var r, gap := rate as real, now - b.last;
    assert r * (b'.last - b.last) == r * gap + r * delay by { Distribute(r, gap, delay); }
    assert r * gap >= 0.0;
    if bytes > 0 {
      var level := Refilled(rate, b, now);
      assert level <= b.allowance + r * gap && level <= r;
      if level < bytes as real {
        DivideBy(bytes as real - level, rate);
      }
    }
  }

  lemma Distribute(r: real, x: real, y: real)
    ensures r * (x + y) == r * x + r * y
  {
  }

  lemma {:induction false} CallsAreCovered(rate: nat, b: Bucket, calls: seq<Call>)
    requires rate > 0 && InRange(rate, b) && Paced(rate, b, calls)
    ensures var e := After(rate, b, calls);
            && InRange(rate, e) && e.last >= b.last
            && Covered(rate, b.allowance, b.last, e, Total(calls))
    decreases |calls|
  {
    if calls != [] {
      hide Plan, Covered;
      var (bytes, now) := (calls[0].bytes, calls[0].now);
      var b' := Plan(rate, b, bytes, now).0;
      PlanStaysInRange(rate, b, bytes, now);
      CallIsCovered(rate, b, bytes, now);
      CallsAreCovered(rate, b', calls[1..]);
      var e := After(rate, b', calls[1..]);
      Chain(rate, b', e, bytes, Total(calls[1..]), b.allowance, b.last);
    }
  }

  lemma PlanStaysInRange(rate: nat, b: Bucket, bytes: nat, now: real)
    requires InRange(rate, b)
    ensures var (b', delay) := Plan(rate, b, bytes, now); InRange(rate, b') && b'.last >= now
  {
    PlanIsLeast(rate, b, bytes, now);
  }

  lemma Chain(rate: nat, b': Bucket, e: Bucket, bytes: nat, total: nat, level: real, from: real)
    requires Covered(rate, level, from, b', bytes) && Covered(rate, b'.allowance, b'.last, e, total)
    ensures Covered(rate, level, from, e, bytes + total)
  {
    Distribute(rate as real, e.last - b'.last, b'.last - from);
    assert (e.last - b'.last) + (b'.last - from) == e.last - from;
  }

  lemma {:induction false} AfterAppend(rate: nat, b: Bucket, xs: seq<Call>, ys: seq<Call>)
    ensures After(rate, b, xs + ys) == After(rate, After(rate, b, xs), ys)
    ensures Paced(rate, b, xs + ys) <==> Paced(rate, b, xs) && Paced(rate, After(rate, b, xs), ys)
    decreases |xs|
  {
    hide Plan;
    if xs == [] {
      assert xs + ys == ys;
    } else {
      assert (xs + ys)[1..] == xs[1..] + ys;
      AfterAppend(rate, Plan(rate, b, xs[0].bytes, xs[0].now).0, xs[1..], ys);
    }
  }

  lemma BurstBound(rate: nat, b: Bucket, calls: seq<Call>)
    requires rate > 0 && InRange(rate, b) && Paced(rate, b, calls) && calls != []
    ensures Total(calls) as real <= rate as real * (After(rate, b, calls).last - calls[0].now) + rate as real
  {
    hide Plan;
    var (bytes, now) := (calls[0].bytes, calls[0].now);
    var b' := Plan(rate, b, bytes, now).0;
    PlanStaysInRange(rate, b, bytes, now);
    CallIsCovered(rate, b, bytes, now);
    CallsAreCovered(rate, b', calls[1..]);
    Chain(rate, b', After(rate, b, calls), bytes, Total(calls[1..]), rate as real, now);
  }

  /**
   Rate law. When every call starts no earlier than the previous release (the mutex is held while the
   caller sleeps), then over any window of consecutive calls the bytes let through are at most one
   bucket plus the rate times the time from the first request of the window to its last release.
   */
  lemma WindowBound(rate: nat, start: Bucket, calls: seq<Call>, i: nat, j: nat)
    requires rate > 0 && InRange(rate, start) && Paced(rate, start, calls) && i < j <= |calls|
    ensures InRange(rate, After(rate, start, calls[..j]))
    ensures Total(calls[i..j]) as real
         <= rate as real * (After(rate, start, calls[..j]).last - calls[i].now) + rate as real
  {
    hide Plan, After, Paced;
    var before, window := calls[..i], calls[i..j];
    assert calls[..j] == before + window && calls == calls[..j] + calls[j..];
    AfterAppend(rate, start, calls[..j], calls[j..]);
    AfterAppend(rate, start, before, window);
    CallsAreCovered(rate, start, before);
    CallsAreCovered(rate, start, calls[..j]);
    BurstBound(rate, After(rate, start, before), window);
  }

  /** Without pacing the law fails: three calls at time 0 get 4 bytes through by time 1 at 1 byte/s. */
  lemma UnpacedCallsExceedTheRate()
    ensures var b, calls := Bucket(1.0, 0.0), [Call(2, 0.0), Call(1, 0.0), Call(1, 0.0)];
            && !Paced(1, b, calls)
            && Total(calls) as real > 1.0 * (After(1, b, calls).last - calls[0].now) + 1.0
  {
    var b0 := Bucket(1.0, 0.0);
    var c1, c2 := Call(2, 0.0), Call(1, 0.0);
    var b1 := Plan(1, b0, 2, 0.0).0;
    assert b1 == Bucket(0.0, 1.0);
    assert Plan(1, b1, 1, 0.0).0 == b1;
    assert [c1, c2, c2][1..] == [c2, c2] && [c2, c2][1..] == [c2] && [c2][1..] == [];
    assert After(1, b1, [c2]) == b1;
    assert Total([c2]) == 1 && Total([c2, c2]) == 2;
  }

  // ---------------------------------------------------------------- nothing is held back

  /** The refill a call lets go to waste: what does not fit the bucket, or all of it if nothing is asked for. */
  function Wasted(rate: nat, b: Bucket, bytes: nat, now: real): real {
    var refill := rate as real * (now - b.last);
    if bytes == 0 then refill
    else if b.allowance + refill > rate as real then b.allowance + refill - rate as real else 0.0
  }

  function TotalWasted(rate: nat, b: Bucket, calls: seq<Call>): real
    decreases |calls|
  {
    if calls == [] then 0.0
    else Wasted(rate, b, calls[0].bytes, calls[0].now)
         + TotalWasted(rate, Plan(rate, b, calls[0].bytes, calls[0].now).0, calls[1..])
  }

  /** What there was and what was refilled is what was let through, what is left and what was wasted. */
  predicate Conserved(rate: nat, b: Bucket, e: Bucket, total: nat, wasted: real) {
    e.allowance + total as real + wasted == b.allowance + rate as real * (e.last - b.last)
  }

  lemma CallConserves(rate: nat, b: Bucket, bytes: nat, now: real)
    requires rate > 0 && InRange(rate, b) && now >= b.last
    ensures Conserved(rate, b, Plan(rate, b, bytes, now).0, bytes, Wasted(rate, b, bytes, now))
  {
    var (b', delay) := Plan(rate, b, bytes, now);
    var r, gap := rate as real, now - b.last;
    assert r * (b'.last - b.last) == r * gap + r * delay by { Distribute(r, gap, delay); }
    assert gap * r == r * gap;
    if bytes > 0 {
      var level := Refilled(rate, b, now);
      if level < bytes as real {
        DivideBy(bytes as real - level, rate);
      }
    }
  }

  lemma ConservedChain(rate: nat, a: Bucket, b: Bucket, e: Bucket, m: nat, n: nat, v: real, w: real)
    requires Conserved(rate, a, b, m, v) && Conserved(rate, b, e, n, w)
    ensures Conserved(rate, a, e, m + n, v + w)
  {
    Distribute(rate as real, e.last - b.last, b.last - a.last);
    assert (e.last - b.last) + (b.last - a.last) == e.last - a.last;
  }

  /**
   Conservation. Over paced calls, what the bucket held and what was refilled until the last release is
   exactly what was let through, what is left and what overflowed: no caller waits for anything else.
   */
  lemma {:induction false} CallsConserve(rate: nat, b: Bucket, calls: seq<Call>)
    requires rate > 0 && InRange(rate, b) && Paced(rate, b, calls)
    ensures Conserved(rate, b, After(rate, b, calls), Total(calls), TotalWasted(rate, b, calls))
    decreases |calls|
  {
    if calls != [] {
      hide Plan, Wasted, Conserved;
      var (bytes, now) := (calls[0].bytes, calls[0].now);
      var b' := Plan(rate, b, bytes, now).0;
      PlanStaysInRange(rate, b, bytes, now);
      CallConserves(rate, b, bytes, now);
      CallsConserve(rate, b', calls[1..]);
      ConservedChain(rate, b, b', After(rate, b', calls[1..]), bytes, Total(calls[1..]),
                     Wasted(rate, b, bytes, now), TotalWasted(rate, b', calls[1..]));
    }
  }
}
