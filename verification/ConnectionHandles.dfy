/**
 When a slot is given back, seen from the actions alone: which handles of a paired stream are alive is
 read off the history of hand-over, split and drops, and the guard is shown to wait for the last one.
 */
module ConnectionHandles {
  import opened LinkPairing
  import opened ConnectionSlots

  /** The stream reaches the caller of `r`: its transport is wrapped. */
  predicate Reaches(s: State, a: Action, r: Request) {
    a == Wrap(r, true) && r in s.calls && s.calls[r].phase.Wrapping?
  }

  /** What one action makes of the handles of `r`. */
  function Next(s: State, a: Action, r: Request, held: set<Handle>): set<Handle> {
    if Reaches(s, a, r) then {Whole}
    else if a == Split(r) && Whole in held then {ReadHalf, WriteHalf}
    else if a.Drop? && a.r == r then held - {a.handle}
    else held
  }

  /** The handles of `r` that have been given out and not dropped. */
  function Held(c: Config, actions: seq<Action>, r: Request): set<Handle> {
    if actions == [] then {}
    else
      var init := actions[..|actions| - 1];
      Next(Run(c, init), actions[|actions| - 1], r, Held(c, init, r))
  }

  // ---------------------------------------------------------------- the state agrees with the history

  function LiveHandles(s: State, r: Request): set<Handle> {
    if r in s.calls && s.calls[r].phase.Live? then s.calls[r].phase.handles else {}
  }

  predicate HandlesOk(s: State, r: Request) {
    r in s.calls && s.calls[r].phase.Live? ==>
      var handles := s.calls[r].phase.handles;
      handles == {Whole} || (handles != {} && Whole !in handles)
  }

  lemma WrapMoves(s: State, q: Request, wrapped: bool, r: Request)
    requires HandlesOk(s, r)
    ensures HandlesOk(DoWrap(s, q, wrapped), r)
    ensures LiveHandles(DoWrap(s, q, wrapped), r) == Next(s, Wrap(q, wrapped), r, LiveHandles(s, r))
  {
  }

  lemma SplitMoves(s: State, q: Request, r: Request)
    requires HandlesOk(s, r)
    ensures HandlesOk(DoSplit(s, q), r) && LiveHandles(DoSplit(s, q), r) == Next(s, Split(q), r, LiveHandles(s, r))
  {
  }

  lemma DropMoves(s: State, q: Request, handle: Handle, r: Request)
    requires HandlesOk(s, r)
    ensures HandlesOk(DoDrop(s, q, handle), r)
    ensures LiveHandles(DoDrop(s, q, handle), r) == Next(s, Drop(q, handle), r, LiveHandles(s, r))
  {
  }

  predicate SameHandles(s: State, s': State, r: Request) {
    LiveHandles(s', r) == LiveHandles(s, r) && (HandlesOk(s, r) ==> HandlesOk(s', r))
  }

  lemma RequestMoves(c: Config, s: State, q: Request, vkey: string, sent: bool, r: Request)
    ensures SameHandles(s, DoBegin(c, s, q, vkey), r) && SameHandles(s, DoOffline(s, q), r)
    ensures SameHandles(s, DoIssue(s, q), r) && SameHandles(s, DoList(s, q), r) && SameHandles(s, DoSendOpen(s, q, sent), r)
  {
    hide Release;
  }

  lemma ArrivalMoves(s: State, token: Token, id: nat, r: Request)
    ensures SameHandles(s, DoArrive(s, token, id), r) && SameHandles(s, DoForward(s, token), r)
    ensures SameHandles(s, DoAbandon(s, token), r)
  {
    hide Present;
  }

  lemma OtherMoves(s: State, q: Request, r: Request)
    ensures SameHandles(s, DoTake(s, q), r) && SameHandles(s, DoTimeout(s, q), r)
    ensures SameHandles(s, DoGiveBack(s, q), r) && SameHandles(s, DoUnlist(s, q), r) && SameHandles(s, DoRunGuard(s, q), r)
  {
    hide Release;
  }

  lemma StepHandles(c: Config, s: State, a: Action, r: Request)
    requires HandlesOk(s, r)
    ensures HandlesOk(Step(c, s, a), r) && LiveHandles(Step(c, s, a), r) == Next(s, a, r, LiveHandles(s, r))
  {
    hide DoBegin, DoOffline, DoIssue, DoList, DoSendOpen, DoArrive, DoForward, DoAbandon, DoTake, DoTimeout, DoGiveBack,
      DoUnlist, DoWrap, DoSplit, DoDrop, DoRunGuard, HandlesOk, LiveHandles;
    match a
    case Begin(q, vkey) => RequestMoves(c, s, q, vkey, true, r);
    case Offline(q) => RequestMoves(c, s, q, "", true, r);
    case Issue(q) => RequestMoves(c, s, q, "", true, r);
    case List(q) => RequestMoves(c, s, q, "", true, r);
    case SendOpen(q, sent) => RequestMoves(c, s, q, "", sent, r);
    case Arrive(token, id) => ArrivalMoves(s, token, id, r);
    case Forward(token) => ArrivalMoves(s, token, 0, r);
    case Abandon(token) => ArrivalMoves(s, token, 0, r);
    case Take(q) => OtherMoves(s, q, r);
    case Timeout(q) => OtherMoves(s, q, r);
    case GiveBack(q) => OtherMoves(s, q, r);
    case Unlist(q) => OtherMoves(s, q, r);
    case Wrap(q, wrapped) => WrapMoves(s, q, wrapped, r);
    case Split(q) => SplitMoves(s, q, r);
    case Drop(q, handle) => DropMoves(s, q, handle, r);
    case RunGuard(q) => OtherMoves(s, q, r);
    case OtherId(n) => NumbersMoveNothing(s, n, r);
  }

  lemma NumbersMoveNothing(s: State, n: nat, r: Request)
    ensures SameHandles(s, s.(next := s.next + n), r)
  {
  }

  lemma {:induction false} HeldIsLive(c: Config, actions: seq<Action>, r: Request)
    ensures HandlesOk(Run(c, actions), r) && LiveHandles(Run(c, actions), r) == Held(c, actions, r)
  {
    hide Step;
    if actions != [] {
      hide HandlesOk, LiveHandles, Next;
      HeldIsLive(c, actions[..|actions| - 1], r);
      StepHandles(c, Run(c, actions[..|actions| - 1]), actions[|actions| - 1], r);
    }
  }

  // ---------------------------------------------------------------- the guard waits

  /** As long as a handle of the stream is alive its slot is not given back, and it counts as a live stream. */
  lemma HeldKeepsSlot(c: Config, actions: seq<Action>, r: Request)
    requires Held(c, actions, r) != {}
    ensures var s := Run(c, actions);
            r in s.calls && r !in s.releases && r in LiveStreams(s, s.calls[r].vkey)
  {
    hide Run, Held;
    HeldIsLive(c, actions, r);
    RunKeepsSlots(c, actions);
    assert ReleasesOk(Run(c, actions));
  }

  /** The streams of a client that still have a handle. */
  function HeldStreams(c: Config, actions: seq<Action>, vkey: string): set<Request> {
    set r | r in Run(c, actions).calls && Run(c, actions).calls[r].vkey == vkey && Held(c, actions, r) != {}
  }

  /** Under a limit, the streams that still have a handle never exceed the stored count, nor that the limit. */
  lemma HeldIsBounded(c: Config, actions: seq<Action>, vkey: string)
    requires c.Limit(vkey) > 0
    ensures |HeldStreams(c, actions, vkey)| <= Count(Run(c, actions).counts, vkey) <= c.Limit(vkey)
  {
    hide Run, Held, LiveStreams;
    var s := Run(c, actions);
    forall r | r in HeldStreams(c, actions, vkey) ensures r in LiveStreams(s, vkey) { HeldKeepsSlot(c, actions, r); }
    Fewer(HeldStreams(c, actions, vkey), LiveStreams(s, vkey));
    Slots(c, actions, vkey);
  }

  lemma {:induction false} Fewer(a: set<Request>, b: set<Request>)
    requires a <= b
    ensures |a| <= |b|
  {
    assert b == a + (b - a) && a !! (b - a);
    assert |b| == |a| + |b - a|;
  }

  // ---------------------------------------------------------------- read off the actions

  lemma WholePrefix(actions: seq<Action>, i: nat)
    requires i <= |actions|
    ensures i == |actions| ==> actions[..i] == actions
  {
  }

  /** A handle goes only by being dropped, or the whole stream by being split. */
  lemma {:induction false} HandleLeaves(c: Config, actions: seq<Action>, i: nat, r: Request, h: Handle)
    requires i <= |actions| && h in Held(c, actions[..i], r) && h !in Held(c, actions, r)
    requires forall j | i <= j < |actions| :: !Reaches(Run(c, actions[..j]), actions[j], r)
    ensures exists j | i <= j < |actions| :: actions[j] == Drop(r, h) || (h.Whole? && actions[j] == Split(r))
    decreases |actions|
  {
    hide Run, Reaches;
    WholePrefix(actions, i);
    if i < |actions| {
      var n := |actions| - 1;
      var init := actions[..n];
      if h in Held(c, init, r) {
        assert actions[n] == Drop(r, h) || (h.Whole? && actions[n] == Split(r));
      } else {
        assert init[..i] == actions[..i];
        forall j | i <= j < n ensures !Reaches(Run(c, init[..j]), init[j], r) {
          assert init[..j] == actions[..j] && init[j] == actions[j];
        }
        HandleLeaves(c, init, i, r, h);
        var j :| i <= j < n && (init[j] == Drop(r, h) || (h.Whole? && init[j] == Split(r)));
        assert actions[j] == init[j];
      }
    }
  }

  /** A request receives its stream at most once. */
  lemma {:induction false} ReachedOnce(c: Config, actions: seq<Action>, i: nat, r: Request)
    requires i < |actions| && Reaches(Run(c, actions[..i]), actions[i], r)
    ensures r in Run(c, actions).calls && Handed(Run(c, actions), r)
    decreases |actions|
  {
    hide Step;
    var n := |actions| - 1;
    if i == n {
      ReachingHands(c, Run(c, actions[..n]), r);
    } else {
      var init := actions[..n];
      assert init[..i] == actions[..i] && init[i] == actions[i];
      ReachedOnce(c, init, i, r);
      HandedStays(c, Run(c, init), actions[n], r);
    }
  }

  /** The stream of `r` is held, or about to be released, or released. */
  predicate Handed(s: State, r: Request) {
    r in s.calls && (s.calls[r].phase.Live? || s.calls[r].phase.Dropped? || (s.calls[r].phase.Over? && r in s.releases))
  }

  lemma ReachingHands(c: Config, s: State, r: Request)
    requires r in s.calls && s.calls[r].phase.Wrapping?
    ensures Handed(Step(c, s, Wrap(r, true)), r)
  {
  }

  lemma RequestKeepsHanded(c: Config, s: State, q: Request, vkey: string, sent: bool, r: Request)
    requires Handed(s, r)
    ensures Handed(DoBegin(c, s, q, vkey), r) && Handed(DoOffline(s, q), r) && Handed(DoIssue(s, q), r)
    ensures Handed(DoList(s, q), r) && Handed(DoSendOpen(s, q, sent), r)
  {
    hide Release;
  }

  lemma StreamKeepsHanded(s: State, q: Request, token: Token, id: nat, r: Request)
    requires Handed(s, r)
    ensures Handed(DoArrive(s, token, id), r) && Handed(DoForward(s, token), r) && Handed(DoAbandon(s, token), r)
    ensures Handed(DoTake(s, q), r) && Handed(DoTimeout(s, q), r) && Handed(DoGiveBack(s, q), r) && Handed(DoUnlist(s, q), r)
  {
    hide Release, Present;
  }

  lemma HandleKeepsHanded(s: State, q: Request, wrapped: bool, handle: Handle, r: Request)
    requires Handed(s, r)
    ensures Handed(DoWrap(s, q, wrapped), r) && Handed(DoSplit(s, q), r) && Handed(DoDrop(s, q, handle), r)
    ensures Handed(DoRunGuard(s, q), r)
  {
    hide Release;
  }

  lemma HandedStays(c: Config, s: State, a: Action, r: Request)
    requires Handed(s, r)
    ensures Handed(Step(c, s, a), r)
  {
    hide DoBegin, DoOffline, DoIssue, DoList, DoSendOpen, DoArrive, DoForward, DoAbandon, DoTake, DoTimeout, DoGiveBack,
      DoUnlist, DoWrap, DoSplit, DoDrop, DoRunGuard, Handed;
    match a
    case Begin(q, vkey) => RequestKeepsHanded(c, s, q, vkey, true, r);
    case Offline(q) => RequestKeepsHanded(c, s, q, "", true, r);
    case Issue(q) => RequestKeepsHanded(c, s, q, "", true, r);
    case List(q) => RequestKeepsHanded(c, s, q, "", true, r);
    case SendOpen(q, sent) => RequestKeepsHanded(c, s, q, "", sent, r);
    case Arrive(token, id) => StreamKeepsHanded(s, 0, token, id, r);
    case Forward(token) => StreamKeepsHanded(s, 0, token, 0, r);
    case Abandon(token) => StreamKeepsHanded(s, 0, token, 0, r);
    case Take(q) => StreamKeepsHanded(s, q, 0, 0, r);
    case Timeout(q) => StreamKeepsHanded(s, q, 0, 0, r);
    case GiveBack(q) => StreamKeepsHanded(s, q, 0, 0, r);
    case Unlist(q) => StreamKeepsHanded(s, q, 0, 0, r);
    case Wrap(q, wrapped) => HandleKeepsHanded(s, q, wrapped, Whole, r);
    case Split(q) => HandleKeepsHanded(s, q, true, Whole, r);
    case Drop(q, handle) => HandleKeepsHanded(s, q, true, handle, r);
    case RunGuard(q) => HandleKeepsHanded(s, q, true, Whole, r);
    case OtherId(n) => NumbersKeepHanded(s, n, r);
  }

  lemma NumbersKeepHanded(s: State, n: nat, r: Request)
    requires Handed(s, r)
    ensures Handed(s.(next := s.next + n), r)
  {
  }

  lemma ReachedIsOver(c: Config, actions: seq<Action>, i: nat, j: nat, r: Request)
    requires i < j < |actions| && Reaches(Run(c, actions[..i]), actions[i], r)
    ensures !Reaches(Run(c, actions[..j]), actions[j], r)
  {
    hide Run;
    assert actions[..j][..i] == actions[..i] && actions[..j][i] == actions[i];
    ReachedOnce(c, actions[..j], i, r);
  }

  lemma ReleasedHoldsNothing(c: Config, actions: seq<Action>, r: Request)
    requires r in Run(c, actions).releases
    ensures Held(c, actions, r) == {}
  {
    hide Run, Held;
    if Held(c, actions, r) != {} {
      HeldKeepsSlot(c, actions, r);
    }
  }

  lemma HeldSnoc(c: Config, actions: seq<Action>, i: nat, r: Request)
    requires i < |actions|
    ensures Held(c, actions[..i + 1], r) == Next(Run(c, actions[..i]), actions[i], r, Held(c, actions[..i], r))
  {
    hide Run, Next;
    assert actions[..i + 1][..i] == actions[..i];
  }

  /** A split stream gives its slot back only after both halves have been dropped. */
  lemma ReleaseNeedsBothDrops(c: Config, actions: seq<Action>, w: nat, i: nat, r: Request)
    requires w < i < |actions| && Reaches(Run(c, actions[..w]), actions[w], r)
    requires actions[i] == Split(r) && Whole in Held(c, actions[..i], r) && r in Run(c, actions).releases
    ensures exists j | i < j < |actions| :: actions[j] == Drop(r, ReadHalf)
    ensures exists j | i < j < |actions| :: actions[j] == Drop(r, WriteHalf)
  {
    hide Run, Held;
    ReleasedHoldsNothing(c, actions, r);
    HeldSnoc(c, actions, i, r);
    forall j | i + 1 <= j < |actions| ensures !Reaches(Run(c, actions[..j]), actions[j], r) { ReachedIsOver(c, actions, w, j, r); }
    HandleLeaves(c, actions, i + 1, r, ReadHalf);
    HandleLeaves(c, actions, i + 1, r, WriteHalf);
  }

  /** A stream that is never split gives its slot back only after it has been dropped. */
  lemma ReleaseNeedsDrop(c: Config, actions: seq<Action>, w: nat, r: Request)
    requires w < |actions| && Reaches(Run(c, actions[..w]), actions[w], r) && r in Run(c, actions).releases
    requires forall j | w < j < |actions| :: actions[j] != Split(r)
    ensures exists j | w < j < |actions| :: actions[j] == Drop(r, Whole)
  {
    hide Run, Held;
    ReleasedHoldsNothing(c, actions, r);
    HeldSnoc(c, actions, w, r);
    forall j | w + 1 <= j < |actions| ensures !Reaches(Run(c, actions[..j]), actions[j], r) { ReachedIsOver(c, actions, w, j, r); }
    HandleLeaves(c, actions, w + 1, r, Whole);
  }

  /** Once every handle of a stream is gone, running its guard leaves the slot given back. */
  lemma GuardReleases(c: Config, actions: seq<Action>, w: nat, r: Request)
    requires w < |actions| && Reaches(Run(c, actions[..w]), actions[w], r) && Held(c, actions, r) == {}
    ensures r in Run(c, actions + [RunGuard(r)]).releases
  {
    hide Run, Held;
    ReachedOnce(c, actions, w, r);
    HeldIsLive(c, actions, r);
    RunSnoc(c, actions, RunGuard(r));
  }

  // ---------------------------------------------------------------- admission

  /** Under a limit a call is admitted exactly when fewer than that many slots are held, and then takes one. */
  lemma AdmittedIffFree(c: Config, actions: seq<Action>, r: Request, vkey: string)
    requires c.limitsOn && vkey in c.maxConn && c.maxConn[vkey] > 0 && r !in Run(c, actions).calls
    ensures var s, s' := Run(c, actions), Run(c, actions + [Begin(r, vkey)]);
            && r in s'.calls && (s'.calls[r].phase == Reserved <==> |Holders(s, vkey)| < c.maxConn[vkey])
            && (s'.calls[r].phase == Reserved ==> s'.calls[r].reserved && Count(s'.counts, vkey) == Count(s.counts, vkey) + 1)
            && (s'.calls[r].phase != Reserved ==> s'.calls[r].phase == Over && s'.counts == s.counts)
  {
    hide Run, Holders;
    RunKeepsSlots(c, actions);
    assert CountOk(c, Run(c, actions), vkey);
    RunSnoc(c, actions, Begin(r, vkey));
  }

  /** With limits off, or none set for the client, every call is admitted and no slot is counted. */
  lemma UnlimitedIsAdmitted(c: Config, actions: seq<Action>, r: Request, vkey: string)
    requires !c.limitsOn || vkey !in c.maxConn || c.maxConn[vkey] == 0
    requires r !in Run(c, actions).calls
    ensures var s, s' := Run(c, actions), Run(c, actions + [Begin(r, vkey)]);
            r in s'.calls && s'.calls[r] == Call(vkey, false, Reserved) && s'.counts == s.counts
  {
    hide Run;
    RunSnoc(c, actions, Begin(r, vkey));
  }

  // ---------------------------------------------------------------- one connection from beginning to end

  const ONE := Config(true, map["k" := 1])

  function ToSplit(): seq<Action> { ToWaiting() + [Take(0), Wrap(0, true), Split(0)] }

  function ToRefused(): seq<Action> { ToSplit() + [Drop(0, ReadHalf), RunGuard(0), Begin(1, "k")] }

  function ToAdmitted(): seq<Action> { ToRefused() + [Drop(0, WriteHalf), RunGuard(0), Begin(2, "k")] }

  lemma SplitReached()
    ensures var s := Run(ONE, ToSplit());
            && s.calls.Keys == {0} && s.calls[0].vkey == "k" && s.calls[0].reserved && s.counts == map["k" := 1]
            && s.calls[0].phase.Live? && s.calls[0].phase.handles == {ReadHalf, WriteHalf}
  {
    hide Run, ToWaiting;
    StreamInInbox(ONE);
    RunThree(ONE, ToWaiting(), Take(0), Wrap(0, true), Split(0));
  }

  lemma FirstHalfDropped()
    ensures var s := Run(ONE, ToRefused());
            && s.calls.Keys == {0, 1} && s.calls[0].vkey == "k" && s.calls[0].reserved && s.counts == map["k" := 1]
            && s.calls[0].phase.Live? && s.calls[0].phase.handles == {WriteHalf} && s.calls[1] == Call("k", false, Over)
  {
    hide Run, ToSplit;
    SplitReached();
    RunThree(ONE, ToSplit(), Drop(0, ReadHalf), RunGuard(0), Begin(1, "k"));
    assert {ReadHalf, WriteHalf} - {ReadHalf} == {WriteHalf};
  }

  /** With one slot, a second call is refused until both halves of the first connection are gone, and then admitted. */
  lemma SlotIsFreeAfterBothHalves()
    ensures Run(ONE, ToRefused()).calls.Keys == {0, 1} && Run(ONE, ToRefused()).calls[1] == Call("k", false, Over)
    ensures 2 in Run(ONE, ToAdmitted()).calls && Run(ONE, ToAdmitted()).calls[2] == Call("k", true, Reserved)
  {
    hide Run, ToRefused;
    FirstHalfDropped();
    RunThree(ONE, ToRefused(), Drop(0, WriteHalf), RunGuard(0), Begin(2, "k"));
    assert {WriteHalf} - {WriteHalf} == {};
  }
}
