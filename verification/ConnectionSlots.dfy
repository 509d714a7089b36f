/** Connection slots: how many streams of a client the stored count admits, in every interleaving. */
module ConnectionSlots {
  import opened LinkPairing

  // ---------------------------------------------------------------- who holds a slot

  predicate HoldsSlot(call: Call) {
    call.reserved && !call.phase.Unlisting? && !call.phase.Over?
  }

  function Holders(s: State, vkey: string): set<Request> {
    set r | r in s.calls && s.calls[r].vkey == vkey && HoldsSlot(s.calls[r])
  }

  /** Streams whose guard has not run yet. */
  function LiveStreams(s: State, vkey: string): set<Request> {
    set r | r in s.calls && s.calls[r].vkey == vkey && (s.calls[r].phase.Live? || s.calls[r].phase.Dropped?)
  }

  /** Calls that lost their slot for good because wrapping the transport failed. */
  function LeakedCalls(s: State, vkey: string): set<Request> {
    set r | r in s.calls && s.calls[r].vkey == vkey && s.calls[r].phase.Leaked? && s.calls[r].reserved
  }

  /** Calls that have reserved a slot and not yet returned. */
  function CallsInFlight(s: State, vkey: string): set<Request> {
    set r | r in s.calls && s.calls[r].vkey == vkey && HoldsSlot(s.calls[r])
            && !s.calls[r].phase.Live? && !s.calls[r].phase.Dropped? && !s.calls[r].phase.Leaked?
  }

  predicate CountOk(c: Config, s: State, vkey: string) {
    Count(s.counts, vkey) == |Holders(s, vkey)| && (c.Limit(vkey) > 0 ==> Count(s.counts, vkey) <= c.Limit(vkey))
  }

  /** Phases in which the slot, if there was one, has been given back. */
  predicate GivenBack(phase: Phase) { phase.Unlisting? || phase.Over? }

  /** A call holds a reservation exactly when its client is limited, unless it was rejected. */
  predicate ReservedOk(c: Config, call: Call) {
    && (call.reserved ==> c.Limit(call.vkey) > 0)
    && (!call.phase.Over? && c.Limit(call.vkey) > 0 ==> call.reserved)
  }

  predicate ReleasesOk(s: State) {
    && NoDuplicates(s.releases)
    && (forall r | r in s.releases :: r in s.calls && GivenBack(s.calls[r].phase))
    && (forall r | r in s.calls && s.calls[r].reserved && GivenBack(s.calls[r].phase) :: r in s.releases)
  }

  ghost predicate SlotInv(c: Config, s: State) {
    && (forall v :: CountOk(c, s, v))
    && (forall r | r in s.calls :: ReservedOk(c, s.calls[r]))
    && ReleasesOk(s)
  }

  // ---------------------------------------------------------------- steps

  /** Steps that neither take nor give back a slot. */
  lemma NeutralKeepsSlots(c: Config, s: State, s': State, r: Request)
    requires SlotInv(c, s) && OnlyPhaseMoves(s, s', r)
    ensures SlotInv(c, s')
  {
    forall v ensures CountOk(c, s', v) {
      assert CountOk(c, s, v);
      assert Holders(s', v) == Holders(s, v);
    }
    assert ReservedOk(c, s.calls[r]);
  }

  lemma BeginKeepsSlots(c: Config, s: State, r: Request, vkey: string)
    requires SlotInv(c, s)
    ensures SlotInv(c, DoBegin(c, s, r, vkey))
  {
    if r !in s.calls {
      hide CountOk;
      forall v ensures CountOk(c, DoBegin(c, s, r, vkey), v) {
        BeginKeepsCount(c, s, r, vkey, v);
      }
    }
  }

  lemma BeginKeepsCount(c: Config, s: State, r: Request, vkey: string, v: string)
    requires CountOk(c, s, v) && r !in s.calls
    ensures CountOk(c, DoBegin(c, s, r, vkey), v)
  {
    var s' := DoBegin(c, s, r, vkey);
    if v == vkey && s'.calls[r].reserved {
      assert Holders(s', v) == Holders(s, v) + {r};
    } else {
      assert Holders(s', v) == Holders(s, v);
    }
  }

  lemma ReleaseCounts(counts: map<string, nat>, vkey: string, v: string)
    ensures Count(Release(counts, vkey), v)
         == if v == vkey && Count(counts, v) > 0 then Count(counts, v) - 1 else Count(counts, v)
  {
  }

  /** Giving a slot back: the count falls by one exactly when a slot was held, and never below zero. */
  lemma FreeKeepsSlots(c: Config, s: State, r: Request, always: bool, phase: Phase)
    requires SlotInv(c, s) && r in s.calls && !GivenBack(s.calls[r].phase) && GivenBack(phase)
    requires phase.Unlisting? || phase.Over?
    ensures SlotInv(c, SetPhase(Freed(s, r, always), r, phase))
  {
    hide Release;
    var s', vkey := SetPhase(Freed(s, r, always), r, phase), s.calls[r].vkey;
    assert ReservedOk(c, s.calls[r]);
    forall v ensures CountOk(c, s', v) {
      FreeKeepsCount(c, s, r, always, phase, v);
    }
    FreeKeepsReleases(c, s, r, always, phase);
  }

  lemma FreeKeepsCount(c: Config, s: State, r: Request, always: bool, phase: Phase, v: string)
    requires SlotInv(c, s) && r in s.calls && !GivenBack(s.calls[r].phase) && GivenBack(phase)
    ensures CountOk(c, SetPhase(Freed(s, r, always), r, phase), v)
  {
    hide Release, ReleasesOk;
    var s', vkey := SetPhase(Freed(s, r, always), r, phase), s.calls[r].vkey;
    assert ReservedOk(c, s.calls[r]) && CountOk(c, s, v);
    ReleaseCounts(s.counts, vkey, v);
    HoldersAfterFree(s, r, always, phase, v);
    if v == vkey && !s.calls[r].reserved {
      UnlimitedHoldsNothing(c, s, v);
    }
  }

  lemma HoldersAfterFree(s: State, r: Request, always: bool, phase: Phase, v: string)
    requires r in s.calls && !GivenBack(s.calls[r].phase) && GivenBack(phase)
    ensures Holders(SetPhase(Freed(s, r, always), r, phase), v) == Holders(s, v) - {r}
    ensures r in Holders(s, v) <==> v == s.calls[r].vkey && s.calls[r].reserved
  {
    hide Release;
  }

  lemma UnlimitedHoldsNothing(c: Config, s: State, vkey: string)
    requires c.Limit(vkey) == 0 && forall r | r in s.calls :: ReservedOk(c, s.calls[r])
    ensures Holders(s, vkey) == {}
  {
  }

  lemma FreeKeepsReleases(c: Config, s: State, r: Request, always: bool, phase: Phase)
    requires SlotInv(c, s) && r in s.calls && !GivenBack(s.calls[r].phase) && GivenBack(phase)
    ensures ReleasesOk(SetPhase(Freed(s, r, always), r, phase))
  {
    hide Release, CountOk;
  }

  lemma StepKeepsSlots(c: Config, s: State, a: Action)
    requires SlotInv(c, s)
    ensures SlotInv(c, Step(c, s, a))
  {
    hide Release, SlotInv;
    match a
    case Begin(r, vkey) => BeginKeepsSlots(c, s, r, vkey);
    case Offline(r) =>
      if r in s.calls && s.calls[r].phase.Reserved? { FreeKeepsSlots(c, s, r, false, Over); }
    case GiveBack(r) =>
      if r in s.calls && s.calls[r].phase.Aborting? { FreeKeepsSlots(c, s, r, false, Unlisting(s.calls[r].phase.id)); }
    case RunGuard(r) =>
      if r in s.calls && s.calls[r].phase.Dropped? { FreeKeepsSlots(c, s, r, true, Over); }
    case Arrive(token, id) => TablesDoNotMatter(c, s, Step(c, s, a));
    case Forward(token) => TablesDoNotMatter(c, s, Step(c, s, a));
    case Abandon(token) => TablesDoNotMatter(c, s, Step(c, s, a));
    case OtherId(n) => TablesDoNotMatter(c, s, Step(c, s, a));
    case _ => NeutralStepKeepsSlots(c, s, a);
  }

  /** Steps of a request that neither take nor give back a slot. */
  predicate Neutral(a: Action) {
    a.Issue? || a.List? || a.SendOpen? || a.Take? || a.Timeout? || a.Unlist? || a.Wrap? || a.Split? || a.Drop?
  }

  predicate OnlyPhaseMoves(s: State, s': State, r: Request) {
    && r in s.calls && r in s'.calls
    && s'.counts == s.counts && s'.releases == s.releases && s'.calls == s.calls[r := s'.calls[r]]
    && s'.calls[r].vkey == s.calls[r].vkey && s'.calls[r].reserved == s.calls[r].reserved
    && GivenBack(s'.calls[r].phase) == GivenBack(s.calls[r].phase)
    && (s.calls[r].phase.Over? ==> s'.calls[r].phase.Over?)
  }

  lemma EarlyStepsMovePhase(s: State, r: Request, sent: bool)
    requires r in s.calls
    ensures OnlyPhaseMoves(s, DoIssue(s, r), r) && OnlyPhaseMoves(s, DoList(s, r), r)
    ensures OnlyPhaseMoves(s, DoSendOpen(s, r, sent), r) && OnlyPhaseMoves(s, DoTimeout(s, r), r)
    ensures OnlyPhaseMoves(s, DoTake(s, r), r) && OnlyPhaseMoves(s, DoUnlist(s, r), r)
  {
  }

  lemma LateStepsMovePhase(s: State, r: Request, wrapped: bool, handle: Handle)
    requires r in s.calls
    ensures OnlyPhaseMoves(s, DoWrap(s, r, wrapped), r) && OnlyPhaseMoves(s, DoSplit(s, r), r)
    ensures OnlyPhaseMoves(s, DoDrop(s, r, handle), r)
  {
  }

  lemma NeutralStepKeepsSlots(c: Config, s: State, a: Action)
    requires SlotInv(c, s) && Neutral(a)
    ensures SlotInv(c, Step(c, s, a))
  {
    hide SlotInv, OnlyPhaseMoves, DoIssue, DoList, DoSendOpen, DoTimeout, DoTake, DoUnlist, DoWrap, DoSplit, DoDrop;
    if a.r in s.calls {
      EarlyStepsMovePhase(s, a.r, if a.SendOpen? then a.sent else true);
      LateStepsMovePhase(s, a.r, if a.Wrap? then a.wrapped else true, if a.Drop? then a.handle else Whole);
      NeutralKeepsSlots(c, s, Step(c, s, a), a.r);
    } else {
      AbsentStepIsNothing(c, s, a);
    }
  }

  lemma AbsentStepIsNothing(c: Config, s: State, a: Action)
    requires Neutral(a) && a.r !in s.calls
    ensures Step(c, s, a) == s
  {
  }

  lemma TablesDoNotMatter(c: Config, s: State, s': State)
    requires SlotInv(c, s) && s'.calls == s.calls && s'.counts == s.counts && s'.releases == s.releases
    ensures SlotInv(c, s')
  {
    forall v ensures CountOk(c, s', v) {
      assert CountOk(c, s, v);
      assert Holders(s', v) == Holders(s, v);
    }
  }

  lemma {:induction false} RunKeepsSlots(c: Config, actions: seq<Action>)
    ensures SlotInv(c, Run(c, actions))
  {
    hide Step;
    if actions == [] {
      forall v ensures CountOk(c, EMPTY, v) { assert Holders(EMPTY, v) == {}; }
    } else {
      hide SlotInv;
      RunKeepsSlots(c, actions[..|actions| - 1]);
      StepKeepsSlots(c, Run(c, actions[..|actions| - 1]), actions[|actions| - 1]);
    }
  }

  // ---------------------------------------------------------------- results

  predicate NeverFailsToWrap(actions: seq<Action>) {
    forall i | 0 <= i < |actions| :: actions[i].Wrap? ==> actions[i].wrapped
  }

  lemma {:induction false} NoWrapFailureNoLeak(c: Config, actions: seq<Action>)
    requires NeverFailsToWrap(actions)
    ensures forall r | r in Run(c, actions).calls :: !Run(c, actions).calls[r].phase.Leaked?
  {
    hide Step;
    if actions != [] {
      NoWrapFailureNoLeak(c, actions[..|actions| - 1]);
      StepWithoutLeak(c, Run(c, actions[..|actions| - 1]), actions[|actions| - 1]);
    }
  }

  predicate NoLeak(s: State) { forall r | r in s.calls :: !s.calls[r].phase.Leaked? }

  lemma StepWithoutLeak(c: Config, s: State, a: Action)
    requires NoLeak(s) && (a.Wrap? ==> a.wrapped)
    ensures NoLeak(Step(c, s, a))
  {
    hide Release;
    if a.Begin? || a.Offline? || a.GiveBack? || a.RunGuard? {
    } else if a.Arrive? || a.Forward? || a.Abandon? || a.OtherId? {
      assert Step(c, s, a).calls == s.calls;
    } else if a.Wrap? || a.Split? || a.Drop? {
    } else {
      EarlyWithoutLeak(c, s, a);
    }
  }

  lemma EarlyWithoutLeak(c: Config, s: State, a: Action)
    requires NoLeak(s) && (a.Issue? || a.List? || a.SendOpen? || a.Take? || a.Timeout? || a.Unlist?)
    ensures NoLeak(Step(c, s, a))
  {
  }

  lemma HoldersSplit(c: Config, s: State, vkey: string)
    requires SlotInv(c, s) && c.Limit(vkey) > 0
    ensures |Holders(s, vkey)| == |CallsInFlight(s, vkey)| + |LiveStreams(s, vkey)| + |LeakedCalls(s, vkey)|
  {
    hide CountOk, ReleasesOk;
    var a, b, d := CallsInFlight(s, vkey), LiveStreams(s, vkey), LeakedCalls(s, vkey);
    forall r | r in b ensures r in Holders(s, vkey) { assert ReservedOk(c, s.calls[r]); }
    assert Holders(s, vkey) == a + b + d;
    assert a !! b && (a + b) !! d;
  }

  /**
   Connection slots. For a client whose positive limit applies, in every interleaving: the stored
   count is exactly the calls in flight, plus the live streams, plus the calls that ended because
   wrapping failed; it never exceeds the limit, so neither do the live streams; and no slot is
   released twice. An unlimited client never has a stored count.
   */
  lemma Slots(c: Config, actions: seq<Action>, vkey: string)
    ensures var s := Run(c, actions);
            && (c.Limit(vkey) > 0 ==>
                  && Count(s.counts, vkey)
                     == |CallsInFlight(s, vkey)| + |LiveStreams(s, vkey)| + |LeakedCalls(s, vkey)|
                  && |LiveStreams(s, vkey)| <= Count(s.counts, vkey) <= c.Limit(vkey))
            && (c.Limit(vkey) == 0 ==> Count(s.counts, vkey) == 0)
            && NoDuplicates(s.releases)
            && (forall r | r in s.calls && s.calls[r].reserved ::
                  r in s.releases <==> s.calls[r].phase.Unlisting? || s.calls[r].phase.Over?)
  {
    hide Run;
    RunKeepsSlots(c, actions);
    var s := Run(c, actions);
    assert CountOk(c, s, vkey);
    if c.Limit(vkey) > 0 {
      HoldersSplit(c, s, vkey);
    } else {
      UnlimitedHoldsNothing(c, s, vkey);
    }
  }

  /** When wrapping never fails, nothing leaks: the count is calls in flight plus live streams. */
  lemma SlotsWithoutWrapFailure(c: Config, actions: seq<Action>, vkey: string)
    requires NeverFailsToWrap(actions) && c.Limit(vkey) > 0
    ensures var s := Run(c, actions);
            Count(s.counts, vkey) == |CallsInFlight(s, vkey)| + |LiveStreams(s, vkey)|
  {
    hide Run;
    Slots(c, actions, vkey);
    NoWrapFailureNoLeak(c, actions);
    assert LeakedCalls(Run(c, actions), vkey) == {};
  }

  /** In general the count is calls in flight plus live streams exactly as long as no reserved call has failed to wrap. */
  lemma CountIsExactIffNothingLeaked(c: Config, actions: seq<Action>, vkey: string)
    requires c.Limit(vkey) > 0
    ensures var s := Run(c, actions);
            Count(s.counts, vkey) == |CallsInFlight(s, vkey)| + |LiveStreams(s, vkey)| <==> LeakedCalls(s, vkey) == {}
  {
    hide Run, CallsInFlight, LiveStreams, LeakedCalls;
    Slots(c, actions, vkey);
  }

  /** One wrapping failure under a limit of one blocks the client for good: its slot stays taken. */
  lemma WrapFailureKeepsItsSlot()
    ensures var c := Config(true, map["k" := 1]);
            var s := Run(c, ToWaiting() + [Take(0), Wrap(0, false), Begin(1, "k")]);
            && Count(s.counts, "k") == 1 && CallsInFlight(s, "k") == {} && LiveStreams(s, "k") == {}
            && 1 in s.calls && s.calls[1] == Call("k", false, Over)
  {
    hide Run, ToWaiting;
    var c := Config(true, map["k" := 1]);
    RunThree(c, ToWaiting(), Take(0), Wrap(0, false), Begin(1, "k"));
    StreamInInbox(c);
  }

  function ToListed(): seq<Action> { [] + [Begin(0, "k"), Issue(0), List(0)] }

  function ToWaiting(): seq<Action> { ToListed() + [SendOpen(0, true), Arrive(7, 1), Forward(7)] }

  lemma RequestListed(c: Config)
    requires c == Config(true, map["k" := 1])
    ensures var s := Run(c, ToListed());
            && s.calls == map[0 := Call("k", true, Listed(1))] && s.counts == map["k" := 1]
            && s.tables.pending == map[1 := 0] && s.tables.arrived == map[]
  {
    RunThree(c, [], Begin(0, "k"), Issue(0), List(0));
  }

  lemma StreamInInbox(c: Config)
    requires c == Config(true, map["k" := 1])
    ensures var s := Run(c, ToWaiting());
            && s.calls == map[0 := Call("k", true, Waiting(1))] && s.counts == map["k" := 1]
            && 0 in s.tables.inbox
  {
    hide Run, ToListed;
    RunThree(c, ToListed(), SendOpen(0, true), Arrive(7, 1), Forward(7));
    RequestListed(c);
    var s1 := Step(c, Run(c, ToListed()), SendOpen(0, true));
    assert s1.calls == map[0 := Call("k", true, Waiting(1))];
  }

  lemma RunThree(c: Config, actions: seq<Action>, x: Action, y: Action, z: Action)
    ensures Run(c, actions + [x, y, z]) == Step(c, Step(c, Step(c, Run(c, actions), x), y), z)
  {
    hide Step;
    assert actions + [x, y, z] == ((actions + [x]) + [y]) + [z];
    RunSnoc(c, actions, x);
    RunSnoc(c, actions + [x], y);
    RunSnoc(c, (actions + [x]) + [y], z);
  }
}
