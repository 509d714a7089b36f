/**
 Health reporting for one rule: the client's failure counters and the server's set of removed
 targets, with reports and acknowledgements that may be lost or processed late and a server that may
 clear its set.
 */
module Health {
  import opened Division

  const U32_MAX: nat := 0xFFFF_FFFF

  /**
   What happens to a report: never processed, processed only after the client has given up on it,
   processed but not acknowledged, or both.
   */
  datatype Delivery = Lost | Late | Unacked | Acked

  datatype Event =
    | Probe(target: string, ok: bool, delivery: Delivery)
    | Arrive(target: string, status: bool)    // a late report is processed
    | Clear(targets: set<string>)

  /** One target as the two ends see it, and the reports about it that are still on their way. */
  datatype View = View(failures: nat, removed: bool, lateRemovals: nat, lateRestores: nat)

  function SaturatingIncrement(n: nat): nat { if n >= U32_MAX then U32_MAX else n + 1 }

  /** set_client_health_target_state, for a report with that fate. */
  function Reported(v: View, status: bool, delivery: Delivery): View {
    match delivery
    case Lost => v
    case Late => if status then v.(lateRestores := v.lateRestores + 1) else v.(lateRemovals := v.lateRemovals + 1)
    case _ => v.(removed := !status)
  }

  function Probed(v: View, max: nat, ok: bool, delivery: Delivery): View
    requires max > 0
  {
    if ok then
      if v.failures < max then v.(failures := 0)
      else
        var w := Reported(v, true, delivery);
        if delivery.Acked? then w.(failures := 0) else w
    else
      var w := v.(failures := SaturatingIncrement(v.failures));
      if w.failures % max == 0 then Reported(w, false, delivery) else w
  }

  function Arrived(v: View, status: bool): View {
    if status then
      if v.lateRestores == 0 then v else v.(removed := false, lateRestores := v.lateRestores - 1)
    else
      if v.lateRemovals == 0 then v else v.(removed := true, lateRemovals := v.lateRemovals - 1)
  }

  function Applied(v: View, max: nat, e: Event, target: string): View
    requires max > 0
  {
    match e
    case Probe(t, ok, delivery) => if t == target then Probed(v, max, ok, delivery) else v
    case Arrive(t, status) => if t == target then Arrived(v, status) else v
    case Clear(ts) => if target in ts then v.(removed := false) else v
  }

  function After(v: View, max: nat, events: seq<Event>, target: string): View
    requires max > 0
  {
    if events == [] then v else Applied(After(v, max, events[..|events| - 1], target), max, events[|events| - 1], target)
  }

  const FRESH := View(0, false, 0, 0)

  // ---------------------------------------------------------------- the two ends

  function Count(m: map<string, nat>, target: string): nat { if target in m then m[target] else 0 }

  class Monitor {
    const max: nat
    var failures: map<string, nat>        // client
    var removed: set<string>              // server
    var lateRemovals: map<string, nat>    // reports on their way
    var lateRestores: map<string, nat>

    function Of(target: string): View
      reads this
    {
      View(Count(failures, target), target in removed, Count(lateRemovals, target), Count(lateRestores, target))
    }

    constructor (max: nat)
      ensures this.max == max && (forall t :: Of(t) == FRESH)
    {
      this.max, failures, removed, lateRemovals, lateRestores := max, map[], {}, map[], map[];
    }

    method Report(target: string, status: bool, delivery: Delivery) returns (ok: bool)
      modifies this`removed, this`lateRemovals, this`lateRestores
      ensures ok == delivery.Acked?
      ensures forall t :: Of(t) == if t == target then Reported(old(Of(t)), status, delivery) else old(Of(t))
    {
      match delivery {
        case Lost =>
        case Late =>
          if status {
            lateRestores := lateRestores[target := Count(lateRestores, target) + 1];
          } else {
            lateRemovals := lateRemovals[target := Count(lateRemovals, target) + 1];
          }
        case _ => removed := if status then removed - {target} else removed + {target};
      }
      ok := delivery.Acked?;
    }

    /** One turn of the loop over a rule's targets. */
    method Check(target: string, ok: bool, delivery: Delivery)
      requires max > 0
      modifies this
      ensures forall t :: Of(t) == Applied(old(Of(t)), max, Probe(target, ok, delivery), t)
    {
      hide Reported;
      if target !in failures {
        failures := failures[target := 0];
      }
      if ok {
        if failures[target] >= max {
          var sent := Report(target, true, delivery);
          if !sent {
            return;
          }
        }
        failures := failures[target := 0];
      } else {
        failures := failures[target := SaturatingIncrement(failures[target])];
        if failures[target] % max == 0 {
          var _ := Report(target, false, delivery);
        }
      }
    }

    /** A report the client no longer waits for is processed. */
    method ProcessLate(target: string, status: bool)
      requires max > 0
      modifies this`removed, this`lateRemovals, this`lateRestores
      ensures forall t :: Of(t) == Applied(old(Of(t)), max, Arrive(target, status), t)
    {
      if status && Count(lateRestores, target) > 0 {
        lateRestores := lateRestores[target := lateRestores[target] - 1];
        removed := removed - {target};
      } else if !status && Count(lateRemovals, target) > 0 {
        lateRemovals := lateRemovals[target := lateRemovals[target] - 1];
        removed := removed + {target};
      }
    }

    /** Server-side clears: config upload, disabled client, edited rules. */
    method Forget(targets: set<string>)
      requires max > 0
      modifies this`removed
      ensures forall t :: Of(t) == Applied(old(Of(t)), max, Clear(targets), t)
    {
      removed := removed - targets;
    }

    method Play(events: seq<Event>)
      requires max > 0
      modifies this
      ensures forall t :: Of(t) == After(old(Of(t)), max, events, t)
    {
      for i := 0 to |events|
        invariant forall t :: Of(t) == After(old(Of(t)), max, events[..i], t)
      {
        hide Applied;
        assert events[..i + 1][..i] == events[..i];
        match events[i] {
          case Probe(t, ok, delivery) => Check(t, ok, delivery);
          case Arrive(t, status) => ProcessLate(t, status);
          case Clear(ts) => Forget(ts);
        }
      }
      assert events[..|events|] == events;
    }
  }

  // ---------------------------------------------------------------- agreement

  lemma MultipleIsLarge(n: nat, max: nat)
    requires max > 0 && n > 0 && n % max == 0
    ensures n >= max
  {
  }

  /** The server avoids the target only if the client counts it as failed. */
  predicate Agrees(v: View, max: nat) { v.removed ==> v.failures >= max }

  /** A late removal that still takes effect finds the target not yet recovered. */
  predicate InTime(v: View, max: nat, e: Event, target: string) {
    e == Arrive(target, false) && v.lateRemovals > 0 ==> v.failures >= max
  }

  lemma StepAgrees(v: View, max: nat, e: Event, target: string)
    requires 0 < max <= U32_MAX && v.failures <= U32_MAX && Agrees(v, max)
    ensures Applied(v, max, e, target).failures <= U32_MAX
    ensures Agrees(Applied(v, max, e, target), max) <==> InTime(v, max, e, target)
  {
    var w := Applied(v, max, e, target);
    if w.failures > 0 && w.failures % max == 0 {
      MultipleIsLarge(w.failures, max);
    }
  }

  lemma {:induction false} CounterFits(max: nat, events: seq<Event>, target: string)
    requires 0 < max
    ensures After(FRESH, max, events, target).failures <= U32_MAX
  {
    if events != [] {
      CounterFits(max, events[..|events| - 1], target);
    }
  }

  /** At every moment of the run. */
  predicate AlwaysAgrees(max: nat, events: seq<Event>, target: string)
    requires max > 0
  {
    Agrees(After(FRESH, max, events, target), max)
    && (events != [] ==> AlwaysAgrees(max, events[..|events| - 1], target))
  }

  predicate AlwaysInTime(max: nat, events: seq<Event>, target: string)
    requires max > 0
  {
    events != [] ==>
      var init := events[..|events| - 1];
      AlwaysInTime(max, init, target) && InTime(After(FRESH, max, init, target), max, events[|events| - 1], target)
  }

  /**
   Under any pattern of lost reports, lost acknowledgements, late reports and clears, the server
   avoids only targets the client counts as failed, at every moment of the run, if and only if no
   removal report is processed so late that the target has recovered in between.
   */
  lemma {:induction false} AgreesIffInTime(max: nat, events: seq<Event>, target: string)
    requires 0 < max <= U32_MAX
    ensures AlwaysAgrees(max, events, target) <==> AlwaysInTime(max, events, target)
  {
    if events != [] {
      hide Applied, InTime;
      var init, e := events[..|events| - 1], events[|events| - 1];
      AgreesIffInTime(max, init, target);
      CounterFits(max, init, target);
      var v := After(FRESH, max, init, target);
      if AlwaysAgrees(max, init, target) {
        StepAgrees(v, max, e, target);
      }
    }
  }

  /** No report about the target is processed after the client has given up on it. */
  predicate Prompt(events: seq<Event>, target: string) {
    forall e | e in events :: e.Probe? && e.target == target ==> !e.delivery.Late?
  }

  lemma NothingLate(v: View, max: nat, e: Event, target: string)
    requires max > 0 && v.lateRemovals == 0 && v.lateRestores == 0
    requires e.Probe? && e.target == target ==> !e.delivery.Late?
    ensures InTime(v, max, e, target)
    ensures Applied(v, max, e, target).lateRemovals == 0 && Applied(v, max, e, target).lateRestores == 0
  {
  }

  lemma {:induction false} PromptIsInTime(max: nat, events: seq<Event>, target: string)
    requires 0 < max && Prompt(events, target)
    ensures AlwaysInTime(max, events, target) && After(FRESH, max, events, target).lateRemovals == 0
    ensures After(FRESH, max, events, target).lateRestores == 0
  {
    if events != [] {
      var init, e := events[..|events| - 1], events[|events| - 1];
      assert e in events;
      PromptIsInTime(max, init, target);
      NothingLate(After(FRESH, max, init, target), max, e, target);
      hide Applied, InTime;
    }
  }

  /** In particular, whatever is lost or cleared, as long as no report is processed late. */
  lemma RemovedMeansFailed(max: nat, events: seq<Event>, target: string)
    requires 0 < max <= U32_MAX && Prompt(events, target)
    ensures var v := After(FRESH, max, events, target); v.removed ==> v.failures >= max
  {
    PromptIsInTime(max, events, target);
    AgreesIffInTime(max, events, target);
  }

  /** A removal that is processed late, after the target has recovered, stays: removed with no failures at all. */
  lemma LateRemovalOutlivesRecovery(target: string)
    ensures var events := [Probe(target, false, Late), Probe(target, true, Acked), Arrive(target, false)];
            After(FRESH, 1, events, target) == View(0, true, 0, 0)
  {
    var a, b, c := Probe(target, false, Late), Probe(target, true, Acked), Arrive(target, false);
    assert [a, b, c][..2] == [a, b] && [a, b][..1] == [a] && [a][..0] == [];
    assert After(FRESH, 1, [a], target) == View(1, false, 1, 0);
    assert After(FRESH, 1, [a, b], target) == View(0, false, 1, 0);
  }

  /** Every report about the target is processed and acknowledged, and it is never cleared. */
  predicate Undisturbed(events: seq<Event>, target: string) {
    forall e | e in events :: Honoured(e, target)
  }

  predicate Honoured(e: Event, target: string) {
    match e
    case Probe(t, _, delivery) => t == target ==> delivery.Acked?
    case Arrive(_, _) => true
    case Clear(ts) => target !in ts
  }

  /** Without losses, delays or clears the server avoids exactly the targets the client counts as failed. */
  lemma {:induction false} RemovedIffFailed(max: nat, events: seq<Event>, target: string)
    requires 0 < max <= U32_MAX && Undisturbed(events, target)
    ensures var v := After(FRESH, max, events, target); v.removed <==> v.failures >= max
  {
    if events != [] {
      var init := events[..|events| - 1];
      assert Honoured(events[|events| - 1], target);
      RemovedIffFailed(max, init, target);
      PromptIsInTime(max, init, target);
      UndisturbedStep(After(FRESH, max, init, target), max, events[|events| - 1], target);
    }
  }

  lemma UndisturbedStep(v: View, max: nat, e: Event, target: string)
    requires 0 < max <= U32_MAX && Honoured(e, target) && v.lateRemovals == 0 && v.lateRestores == 0
    requires v.removed <==> v.failures >= max
    ensures var w := Applied(v, max, e, target); w.removed <==> w.failures >= max
  {
    var w := Applied(v, max, e, target);
    if w.failures > 0 && w.failures % max == 0 {
      MultipleIsLarge(w.failures, max);
    }
    assert max % max == 0;
  }

  // ---------------------------------------------------------------- what the counter counts

  /** The outcomes of the probes of one target, in order. */
  function Outcomes(events: seq<Event>, target: string): seq<bool> {
    if events == [] then []
    else
      var e := events[|events| - 1];
      Outcomes(events[..|events| - 1], target) + if e.Probe? && e.target == target then [e.ok] else []
  }

  /** How many of them failed since the last that succeeded. */
  function TrailingFailures(outcomes: seq<bool>): nat {
    if outcomes == [] || outcomes[|outcomes| - 1] then 0 else 1 + TrailingFailures(outcomes[..|outcomes| - 1])
  }

  lemma TrailingSnoc(outcomes: seq<bool>, ok: bool)
    ensures TrailingFailures(outcomes + [ok]) == if ok then 0 else 1 + TrailingFailures(outcomes)
  {
    assert (outcomes + [ok])[..|outcomes|] == outcomes;
  }

  /** A success that is acknowledged, or that comes below the threshold, clears the counter; no other does. */
  lemma SuccessClears(v: View, max: nat, delivery: Delivery)
    requires max > 0
    ensures var w := Probed(v, max, true, delivery);
            w.failures == if v.failures < max || delivery.Acked? then 0 else v.failures
  {
  }

  /** A failure counts, whatever becomes of its report; nothing but a probe touches the counter. */
  lemma OnlyProbesCount(v: View, max: nat, e: Event, target: string)
    requires max > 0
    ensures var w := Applied(v, max, e, target);
            && (e.Probe? && e.target == target && !e.ok ==> w.failures == SaturatingIncrement(v.failures))
            && (!e.Probe? || e.target != target ==> w.failures == v.failures)
  {
  }

  lemma CountStep(v: View, max: nat, e: Event, target: string, n: nat)
    requires max > 0 && Honoured(e, target) && v.failures == Capped(n)
    ensures Applied(v, max, e, target).failures
         == if !e.Probe? || e.target != target then Capped(n) else if e.ok then 0 else Capped(n + 1)
  {
    OnlyProbesCount(v, max, e, target);
    if e.Probe? && e.target == target && e.ok {
      SuccessClears(v, max, e.delivery);
    }
  }

  /** In an undisturbed run the counter is the number of failures since the last success. */
  lemma {:induction false} CounterIsTrailing(max: nat, events: seq<Event>, target: string)
    requires max > 0 && Undisturbed(events, target)
    ensures After(FRESH, max, events, target).failures == Capped(TrailingFailures(Outcomes(events, target)))
  {
    if events != [] {
      hide Applied, Honoured;
      var init, e := events[..|events| - 1], events[|events| - 1];
      assert e in events;
      CounterIsTrailing(max, init, target);
      CountStep(After(FRESH, max, init, target), max, e, target, TrailingFailures(Outcomes(init, target)));
      if e.Probe? && e.target == target {
        TrailingSnoc(Outcomes(init, target), e.ok);
      } else {
        assert Outcomes(init, target) + [] == Outcomes(init, target);
      }
    }
  }

  /** The last `n` outcomes are all failures. */
  predicate LastFailed(outcomes: seq<bool>, n: nat) {
    n <= |outcomes| && forall i | |outcomes| - n <= i < |outcomes| :: !outcomes[i]
  }

  lemma {:induction false} TrailingIsLastFailed(outcomes: seq<bool>, n: nat)
    ensures TrailingFailures(outcomes) >= n <==> LastFailed(outcomes, n)
  {
    if n > 0 && outcomes != [] && !outcomes[|outcomes| - 1] {
      var init := outcomes[..|outcomes| - 1];
      TrailingIsLastFailed(init, n - 1);
      if LastFailed(outcomes, n) {
        forall i | |init| - (n - 1) <= i < |init| ensures !init[i] { assert init[i] == outcomes[i]; }
      }
    } else if n > 0 && outcomes != [] {
      assert outcomes[|outcomes| - 1];
    }
  }

  /**
   Without losses, delays or clears the server avoids a target if and only if its last max_failed
   probes all failed.
   */
  lemma RemovedIffLastProbesFailed(max: nat, events: seq<Event>, target: string)
    requires 0 < max <= U32_MAX && Undisturbed(events, target)
    ensures After(FRESH, max, events, target).removed <==> LastFailed(Outcomes(events, target), max)
  {
    hide After, Outcomes, Undisturbed, LastFailed;
    RemovedIffFailed(max, events, target);
    CounterIsTrailing(max, events, target);
    TrailingIsLastFailed(Outcomes(events, target), max);
  }

  /**
   What reaches the server takes effect there: a restore that is processed brings the target back, with
   or without its acknowledgement; a lost one does not; late ones do when they arrive; a clear always.
   */
  lemma ServerFollows(v: View, max: nat, target: string, ts: set<string>)
    requires max > 0
    ensures v.failures >= max ==> !Probed(v, max, true, Acked).removed && !Probed(v, max, true, Unacked).removed
    ensures v.failures >= max ==> Probed(v, max, true, Lost) == v
    ensures v.failures >= max ==> Probed(v, max, true, Late) == v.(lateRestores := v.lateRestores + 1)
    ensures v.lateRestores > 0 ==> !Applied(v, max, Arrive(target, true), target).removed
    ensures v.lateRemovals > 0 ==> Applied(v, max, Arrive(target, false), target).removed
    ensures target in ts ==> Applied(v, max, Clear(ts), target) == v.(removed := false)
    ensures target !in ts ==> Applied(v, max, Clear(ts), target) == v
  {
  }

  // ---------------------------------------------------------------- streaks of failures

  /** Failed probes of the target whose reports are processed, and nothing that clears it. */
  predicate Failing(events: seq<Event>, target: string) {
    forall e | e in events :: Fails(e, target)
  }

  predicate Fails(e: Event, target: string) {
    match e
    case Probe(t, ok, delivery) => t == target ==> !ok && (delivery.Unacked? || delivery.Acked?)
    case Arrive(t, _) => t != target
    case Clear(ts) => target !in ts
  }

  function Probes(events: seq<Event>, target: string): nat {
    if events == [] then 0
    else
      var e := events[|events| - 1];
      Probes(events[..|events| - 1], target) + if e.Probe? && e.target == target then 1 else 0
  }

  function Capped(n: nat): nat { if n >= U32_MAX then U32_MAX else n }

  /** A multiple of `max` lies in (low, high]. */
  predicate Crosses(low: nat, high: nat, max: nat)
    requires max > 0
  {
    low / max < high / max
  }

  /** While the target keeps failing, it is removed exactly when the counter passes or sits on a reporting value. */
  lemma {:induction false} StreakReports(v: View, max: nat, events: seq<Event>, target: string)
    requires max > 0 && v.failures <= U32_MAX && Failing(events, target)
    ensures var n, w := Probes(events, target), After(v, max, events, target);
            && w.failures == Capped(v.failures + n)
            && (w.removed <==> v.removed || Crosses(v.failures, w.failures, max)
                               || (v.failures + n > U32_MAX && U32_MAX % max == 0))
  {
    if events != [] {
      var init, e := events[..|events| - 1], events[|events| - 1];
      StreakReports(v, max, init, target);
      assert e in events;
      if e.Probe? && e.target == target {
        StreakStep(v, max, Probes(init, target), After(v, max, init, target), e.delivery);
      }
    }
  }

  lemma StreakStep(v: View, max: nat, n: nat, w: View, delivery: Delivery)
    requires max > 0 && v.failures <= U32_MAX && (delivery.Unacked? || delivery.Acked?)
    requires w.failures == Capped(v.failures + n)
    requires w.removed <==> v.removed || Crosses(v.failures, w.failures, max)
                            || (v.failures + n > U32_MAX && U32_MAX % max == 0)
    ensures var u := Probed(w, max, false, delivery);
            && u.failures == Capped(v.failures + n + 1)
            && (u.removed <==> v.removed || Crosses(v.failures, u.failures, max)
                               || (v.failures + n + 1 > U32_MAX && U32_MAX % max == 0))
  {
    if w.failures < U32_MAX {
      CrossOne(w.failures, max);
      Monotone(v.failures, w.failures, max);
    }
  }

  /**
   `max` consecutive failures with processed reports and no clear remove a target if and only if it
   was removed already, the counter is below its last reporting value, or it saturates on one.
   */
  lemma StreakRemovesIff(v: View, max: nat, events: seq<Event>, target: string)
    requires max > 0 && v.failures <= U32_MAX && Failing(events, target) && Probes(events, target) == max
    ensures After(v, max, events, target).removed
       <==> v.removed || Crosses(v.failures, U32_MAX, max) || U32_MAX % max == 0
  {
    StreakReports(v, max, events, target);
    if v.failures + max <= U32_MAX {
      FullTurn(v.failures, max);
      Monotone(v.failures + max, U32_MAX, max);
    }
  }

  /** In particular, as long as the counter does not saturate they always do. */
  lemma StreakRemoves(v: View, max: nat, events: seq<Event>, target: string)
    requires max > 0 && v.failures + max <= U32_MAX && Failing(events, target) && Probes(events, target) == max
    ensures After(v, max, events, target).removed
  {
    StreakRemovesIff(v, max, events, target);
    FullTurn(v.failures, max);
    Monotone(v.failures + max, U32_MAX, max);
  }

  /** Once the counter is saturated off a reporting value, a target that is not removed is never reported again. */
  lemma SaturatedIsSilent(v: View, max: nat, events: seq<Event>, target: string)
    requires max > 0 && U32_MAX % max != 0 && v.failures == U32_MAX && !v.removed && Failing(events, target)
    ensures !After(v, max, events, target).removed
  {
    StreakReports(v, max, events, target);
  }
}
