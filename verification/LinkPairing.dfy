/**
 Pairing of inbound connections with client streams, and the per-client connection slots, as a
 transition system. Each request thread, each arriving client stream and each handle of a paired
 stream takes the steps of the program in any order; every lock-protected section is one action and
 an action that is not enabled changes nothing.
 */
module LinkPairing {

  type Request = nat   // one call of request_client_stream
  type Token = nat     // one stream presented by a client

  datatype Handle = Whole | ReadHalf | WriteHalf

  datatype Phase =
    | Reserved                                                // slot decided, no link id yet
    | Issued(id: nat)                                         // link id drawn
    | Listed(id: nat)                                         // in the pending table
    | Waiting(id: nat)                                        // Open dispatched, waiting for a stream
    | Aborting(id: nat)                                       // send failed or timed out, slot still held
    | Unlisting(id: nat)                                      // slot given back, pending entry still there
    | Wrapping(id: nat, token: Token)                         // stream received, transport being wrapped
    | Leaked(id: nat)                                         // wrapping failed: the slot is never given back
    | Live(id: nat, token: Token, handles: set<Handle>)       // handed to the caller
    | Dropped(id: nat)                                        // last handle gone, guard about to run
    | Over

  datatype Call = Call(vkey: string, reserved: bool, phase: Phase)

  /** Server settings that stay fixed: whether limits apply, and each client's max_conn. */
  datatype Config = Config(limitsOn: bool, maxConn: map<string, nat>) {
    function Limit(vkey: string): nat { if limitsOn && vkey in maxConn then maxConn[vkey] else 0 }
  }

  datatype Tables = Tables(
    pending: map<nat, Request>,      // link id -> waiting request
    arrived: map<Token, nat>,        // every stream ever presented and the id it carries
    flight: map<Token, Request>,     // claimed, not yet sent into the request's channel
    inbox: map<Request, Token>,      // sent into the channel, not yet received
    owner: map<nat, Request>,        // history: which request drew an id
    claims: seq<nat>,                // history: ids claimed from the pending table
    admitted: map<nat, Token>)       // history: which stream claimed an id

  datatype State = State(
    next: nat,                       // the shared id counter
    issued: seq<nat>,                // history: link ids in the order they were drawn
    tables: Tables,
    calls: map<Request, Call>,
    counts: map<string, nat>,        // active connections per client
    releases: seq<Request>)          // history: slot releases

  const EMPTY := State(1, [], Tables(map[], map[], map[], map[], map[], [], map[]), map[], map[], [])

  datatype Action =
    | Begin(r: Request, vkey: string)     // acquire_client_connection_slot
    | Offline(r: Request)                 // no control channel
    | Issue(r: Request)                   // next_link_id
    | List(r: Request)                    // insert into pending
    | SendOpen(r: Request, sent: bool)    // control channel send
    | Arrive(token: Token, id: nat)       // raw Data or mux accept: remove from pending
    | Forward(token: Token)               // send the claimed stream to the request
    | Abandon(token: Token)               // raw Data: the acknowledgement could not be written
    | Take(r: Request)                    // recv_timeout returns a stream
    | Timeout(r: Request)                 // recv_timeout returns an error
    | GiveBack(r: Request)                // release the slot after a failure
    | Unlist(r: Request)                  // remove the pending entry after a failure
    | Wrap(r: Request, wrapped: bool)     // wrap_server_transport
    | Split(r: Request)                   // into_io_halves
    | Drop(r: Request, handle: Handle)    // a handle goes away
    | RunGuard(r: Request)                // ConnectionSlotGuard::drop
    | OtherId(n: nat)                     // other users of the counter: draw n ids or observe an id

  function Count(counts: map<string, nat>, vkey: string): nat { if vkey in counts then counts[vkey] else 0 }

  function Release(counts: map<string, nat>, vkey: string): map<string, nat> {
    if vkey !in counts || counts[vkey] == 0 then counts
    else if counts[vkey] == 1 then counts - {vkey}
    else counts[vkey := counts[vkey] - 1]
  }

  function SetPhase(s: State, r: Request, phase: Phase): State
    requires r in s.calls
  {
    s.(calls := s.calls[r := s.calls[r].(phase := phase)])
  }

  /** The slot of `r` is released (if one was reserved, or unconditionally by the guard). */
  function Freed(s: State, r: Request, always: bool): State
    requires r in s.calls
  {
    if always || s.calls[r].reserved
    then s.(counts := Release(s.counts, s.calls[r].vkey), releases := s.releases + [r]) else s
  }

  function DoBegin(c: Config, s: State, r: Request, vkey: string): State {
    if r in s.calls then s
    else if c.Limit(vkey) == 0 then s.(calls := s.calls[r := Call(vkey, false, Reserved)])
    else if Count(s.counts, vkey) >= c.Limit(vkey) then s.(calls := s.calls[r := Call(vkey, false, Over)])
    else s.(calls := s.calls[r := Call(vkey, true, Reserved)],
            counts := s.counts[vkey := Count(s.counts, vkey) + 1])
  }

  function DoOffline(s: State, r: Request): State {
    if r !in s.calls || !s.calls[r].phase.Reserved? then s
    else SetPhase(Freed(s, r, false), r, Over)
  }

  function DoIssue(s: State, r: Request): State {
    if r !in s.calls || !s.calls[r].phase.Reserved? then s
    else SetPhase(s, r, Issued(s.next)).(next := s.next + 1, issued := s.issued + [s.next],
                                         tables := s.tables.(owner := s.tables.owner[s.next := r]))
  }

  function DoList(s: State, r: Request): State {
    if r !in s.calls || !s.calls[r].phase.Issued? then s
    else
      var id := s.calls[r].phase.id;
      SetPhase(s, r, Listed(id)).(tables := s.tables.(pending := s.tables.pending[id := r]))
  }

  function DoSendOpen(s: State, r: Request, sent: bool): State {
    if r !in s.calls || !s.calls[r].phase.Listed? then s
    else SetPhase(s, r, if sent then Waiting(s.calls[r].phase.id) else Aborting(s.calls[r].phase.id))
  }

  function Present(t: Tables, token: Token, id: nat): Tables {
    if token in t.arrived then t
    else if id !in t.pending then t.(arrived := t.arrived[token := id])
    else t.(arrived := t.arrived[token := id], pending := t.pending - {id},
            flight := t.flight[token := t.pending[id]], claims := t.claims + [id],
            admitted := t.admitted[id := token])
  }

  function DoArrive(s: State, token: Token, id: nat): State { s.(tables := Present(s.tables, token, id)) }

  function DoForward(s: State, token: Token): State {
    if token !in s.tables.flight then s
    else
      var r := s.tables.flight[token];
      var t := s.tables.(flight := s.tables.flight - {token});
      s.(tables := if r in s.calls && !s.calls[r].phase.Over? then t.(inbox := t.inbox[r := token]) else t)
  }

  function DoAbandon(s: State, token: Token): State {
    s.(tables := s.tables.(flight := s.tables.flight - {token}))
  }

  function DoTake(s: State, r: Request): State {
    if r !in s.calls || !s.calls[r].phase.Waiting? || r !in s.tables.inbox then s
    else SetPhase(s, r, Wrapping(s.calls[r].phase.id, s.tables.inbox[r]))
         .(tables := s.tables.(inbox := s.tables.inbox - {r}))
  }

  function DoTimeout(s: State, r: Request): State {
    if r !in s.calls || !s.calls[r].phase.Waiting? || r in s.tables.inbox then s
    else SetPhase(s, r, Aborting(s.calls[r].phase.id))
  }

  function DoGiveBack(s: State, r: Request): State {
    if r !in s.calls || !s.calls[r].phase.Aborting? then s
    else SetPhase(Freed(s, r, false), r, Unlisting(s.calls[r].phase.id))
  }

  function DoUnlist(s: State, r: Request): State {
    if r !in s.calls || !s.calls[r].phase.Unlisting? then s
    else SetPhase(s, r, Over)
         .(tables := s.tables.(pending := s.tables.pending - {s.calls[r].phase.id}, inbox := s.tables.inbox - {r}))
  }

  function DoWrap(s: State, r: Request, wrapped: bool): State {
    if r !in s.calls || !s.calls[r].phase.Wrapping? then s
    else
      var Wrapping(id, token) := s.calls[r].phase;
      SetPhase(s, r, if wrapped then Live(id, token, {Whole}) else Leaked(id))
  }

  function DoSplit(s: State, r: Request): State {
    if r !in s.calls || !s.calls[r].phase.Live? || s.calls[r].phase.handles != {Whole} then s
    else SetPhase(s, r, s.calls[r].phase.(handles := {ReadHalf, WriteHalf}))
  }

  function DoDrop(s: State, r: Request, handle: Handle): State {
    if r !in s.calls || !s.calls[r].phase.Live? || handle !in s.calls[r].phase.handles then s
    else
      var left := s.calls[r].phase.handles - {handle};
      SetPhase(s, r, if left == {} then Dropped(s.calls[r].phase.id) else s.calls[r].phase.(handles := left))
  }

  function DoRunGuard(s: State, r: Request): State {
    if r !in s.calls || !s.calls[r].phase.Dropped? then s
    else SetPhase(Freed(s, r, true), r, Over)
  }

  function Step(c: Config, s: State, a: Action): State {
    match a
    case Begin(r, vkey) => DoBegin(c, s, r, vkey)
    case Offline(r) => DoOffline(s, r)
    case Issue(r) => DoIssue(s, r)
    case List(r) => DoList(s, r)
    case SendOpen(r, sent) => DoSendOpen(s, r, sent)
    case Arrive(token, id) => DoArrive(s, token, id)
    case Forward(token) => DoForward(s, token)
    case Abandon(token) => DoAbandon(s, token)
    case Take(r) => DoTake(s, r)
    case Timeout(r) => DoTimeout(s, r)
    case GiveBack(r) => DoGiveBack(s, r)
    case Unlist(r) => DoUnlist(s, r)
    case Wrap(r, wrapped) => DoWrap(s, r, wrapped)
    case Split(r) => DoSplit(s, r)
    case Drop(r, handle) => DoDrop(s, r, handle)
    case RunGuard(r) => DoRunGuard(s, r)
    case OtherId(n) => s.(next := s.next + n)
  }

  function Run(c: Config, actions: seq<Action>): State {
    if actions == [] then EMPTY else Step(c, Run(c, actions[..|actions| - 1]), actions[|actions| - 1])
  }

  // ---------------------------------------------------------------- pairing

  predicate NoDuplicates<T(==)>(s: seq<T>) { forall i, j | 0 <= i < j < |s| :: s[i] != s[j] }

  predicate HasId(phase: Phase) { !phase.Reserved? && !phase.Over? }

  /** The pending entry of a request may still be there in these phases. */
  predicate MayBePending(phase: Phase) {
    phase.Listed? || phase.Waiting? || phase.Aborting? || phase.Unlisting?
  }

  /** The stream was presented with this id and is the one that claimed it. */
  predicate Admitted(t: Tables, token: Token, id: nat) {
    token in t.arrived && t.arrived[token] == id && id in t.admitted && t.admitted[id] == token
  }

  /** A request holds at most one id, and the only stream it can hold is the one admitted for that id. */
  predicate CallOk(t: Tables, r: Request, phase: Phase) {
    && (HasId(phase) ==> phase.id in t.owner && t.owner[phase.id] == r)
    && (phase.Issued? ==> phase.id !in t.pending && phase.id !in t.admitted)
    && (phase.Wrapping? || phase.Live? ==> Admitted(t, phase.token, phase.id))
    && (r in t.inbox ==> !phase.Reserved? && (HasId(phase) ==> Admitted(t, t.inbox[r], phase.id)))
  }

  predicate OwnerOk(s: State, id: nat) {
    && id in s.tables.owner && id < s.next && s.tables.owner[id] in s.calls
    && var phase := s.calls[s.tables.owner[id]].phase;
       && !phase.Reserved? && (HasId(phase) ==> phase.id == id)
       && (id in s.tables.pending ==> MayBePending(phase))
  }

  /** What the tables keep among themselves. */
  predicate TablesOk(t: Tables) {
    && (forall id | id in t.pending :: id in t.owner && t.pending[id] == t.owner[id] && id !in t.admitted)
    && (forall k | k in t.flight ::
          k in t.arrived && Admitted(t, k, t.arrived[k]) && t.arrived[k] in t.owner && t.owner[t.arrived[k]] == t.flight[k])
    && (forall id | id in t.claims :: id in t.admitted)
    && (forall id | id in t.admitted :: id in t.owner && t.admitted[id] in t.arrived)
    && NoDuplicates(t.claims)
  }

  predicate IssuedOk(s: State) {
    && (forall i, j | 0 <= i < j < |s.issued| :: s.issued[i] < s.issued[j])
    && (forall i | 0 <= i < |s.issued| :: s.issued[i] < s.next)
  }

  predicate PairingInv(s: State) {
    && (forall r | r in s.calls :: CallOk(s.tables, r, s.calls[r].phase))
    && (forall id | id in s.tables.owner :: OwnerOk(s, id))
    && s.tables.inbox.Keys <= s.calls.Keys
    && TablesOk(s.tables) && IssuedOk(s)
  }

  /** Moving one request to another phase while the tables stay. */
  lemma SetCallKeepsPairing(s: State, r: Request, call: Call)
    requires PairingInv(s) && CallOk(s.tables, r, call.phase)
    requires forall id | id in s.tables.owner && s.tables.owner[id] == r ::
               && !call.phase.Reserved? && (HasId(call.phase) ==> call.phase.id == id)
               && (id in s.tables.pending ==> MayBePending(call.phase))
    ensures PairingInv(s.(calls := s.calls[r := call]))
  {
    hide TablesOk, CallOk;
    var s' := s.(calls := s.calls[r := call]);
    forall id | id in s'.tables.owner ensures OwnerOk(s', id) { assert OwnerOk(s, id); }
  }

  /** Changing the tables while the requests stay. */
  lemma SetTablesKeepsPairing(s: State, t: Tables)
    requires PairingInv(s) && TablesOk(t) && t.owner == s.tables.owner && t.inbox.Keys <= s.calls.Keys
    requires forall id | id in t.pending :: id in s.tables.pending
    requires forall r | r in s.calls :: CallOk(t, r, s.calls[r].phase)
    ensures PairingInv(s.(tables := t))
  {
    hide TablesOk, CallOk;
    forall id | id in t.owner ensures OwnerOk(s.(tables := t), id) { assert OwnerOk(s, id); }
  }

  /** Slot counts and release history do not matter to pairing. */
  lemma CountsDoNotMatter(s: State, counts: map<string, nat>, releases: seq<Request>)
    requires PairingInv(s)
    ensures PairingInv(s.(counts := counts, releases := releases))
  {
    hide TablesOk, CallOk;
    var s' := s.(counts := counts, releases := releases);
    forall id | id in s'.tables.owner ensures OwnerOk(s', id) { assert OwnerOk(s, id); }
  }

  lemma BeginKeepsPairing(c: Config, s: State, r: Request, vkey: string)
    requires PairingInv(s)
    ensures PairingInv(DoBegin(c, s, r, vkey))
  {
    hide TablesOk, Release;
    if r !in s.calls {
      forall id | id in s.tables.owner ensures s.tables.owner[id] != r { assert OwnerOk(s, id); }
      var s' := DoBegin(c, s, r, vkey);
      SetCallKeepsPairing(s, r, s'.calls[r]);
      CountsDoNotMatter(s.(calls := s'.calls), s'.counts, s'.releases);
    }
  }

  lemma OfflineKeepsPairing(s: State, r: Request)
    requires PairingInv(s)
    ensures PairingInv(DoOffline(s, r))
  {
    hide TablesOk, Release;
    if r in s.calls && s.calls[r].phase.Reserved? {
      forall id | id in s.tables.owner ensures s.tables.owner[id] != r { assert OwnerOk(s, id); }
      var s' := DoOffline(s, r);
      SetCallKeepsPairing(s, r, s'.calls[r]);
      CountsDoNotMatter(s.(calls := s'.calls), s'.counts, s'.releases);
    }
  }

  /** A freshly drawn id is new to every table. */
  lemma NewOwnerKeepsCall(t: Tables, n: nat, r: Request, x: Request, phase: Phase)
    requires CallOk(t, x, phase) && n !in t.owner
    ensures CallOk(t.(owner := t.owner[n := r]), x, phase)
  {
  }

  lemma NewOwnerIsOk(t: Tables, n: nat, r: Request)
    requires TablesOk(t) && n !in t.owner && CallOk(t, r, Reserved)
    ensures CallOk(t.(owner := t.owner[n := r]), r, Issued(n))
  {
  }

  lemma IssueKeepsOwner(s: State, r: Request, id: nat)
    requires OwnerOk(s, id) && id != s.next && r in s.calls && s.calls[r].phase.Reserved?
    ensures OwnerOk(DoIssue(s, r), id)
  {
  }

  lemma NextIsFresh(s: State)
    requires PairingInv(s)
    ensures s.next !in s.tables.owner && s.next !in s.tables.pending
  {
    hide CallOk, IssuedOk;
    assert s.next in s.tables.owner ==> OwnerOk(s, s.next);
  }

  lemma IssueKeepsPairing(s: State, r: Request)
    requires PairingInv(s)
    ensures PairingInv(DoIssue(s, r))
  {
    if r in s.calls && s.calls[r].phase.Reserved? {
      hide CallOk, OwnerOk, TablesOk;
      var s', n := DoIssue(s, r), s.next;
      NextIsFresh(s);
      NewOwnerKeepsTables(s.tables, n, r);
      assert OwnerOk(s', n) by { NewIdIsOwned(s, r); }
      forall id | id in s'.tables.owner ensures OwnerOk(s', id) {
        if id != n {
          IssueKeepsOwner(s, r, id);
        }
      }
      NewOwnerIsOk(s.tables, n, r);
      forall x | x in s'.calls ensures CallOk(s'.tables, x, s'.calls[x].phase) {
        if x != r {
          NewOwnerKeepsCall(s.tables, n, r, x, s.calls[x].phase);
        }
      }
    }
  }

  lemma NewIdIsOwned(s: State, r: Request)
    requires r in s.calls && s.calls[r].phase.Reserved? && s.next !in s.tables.pending
    ensures OwnerOk(DoIssue(s, r), s.next)
  {
  }

  lemma NewOwnerKeepsTables(t: Tables, n: nat, r: Request)
    requires TablesOk(t) && n !in t.owner
    ensures TablesOk(t.(owner := t.owner[n := r])) && n !in t.pending && n !in t.admitted
  {
  }

  /** Advancing along the same id, out of the pending phases only once the entry is gone. */
  lemma AdvanceKeepsPairing(s: State, r: Request, phase: Phase)
    requires PairingInv(s) && r in s.calls && HasId(s.calls[r].phase)
    requires !phase.Reserved? && !phase.Issued? && (HasId(phase) ==> phase.id == s.calls[r].phase.id)
    requires MayBePending(phase) || s.calls[r].phase.id !in s.tables.pending
    requires phase.Wrapping? || phase.Live? ==> Admitted(s.tables, phase.token, phase.id)
    ensures PairingInv(SetPhase(s, r, phase))
  {
    hide TablesOk;
    assert CallOk(s.tables, r, s.calls[r].phase);
    forall id | id in s.tables.owner && s.tables.owner[id] == r ensures id == s.calls[r].phase.id {
      assert OwnerOk(s, id);
    }
    SetCallKeepsPairing(s, r, s.calls[r].(phase := phase));
  }

  lemma ListKeepsPairing(s: State, r: Request)
    requires PairingInv(s)
    ensures PairingInv(DoList(s, r))
  {
    if r in s.calls && s.calls[r].phase.Issued? {
      var id := s.calls[r].phase.id;
      assert CallOk(s.tables, r, s.calls[r].phase);
      var s1 := SetPhase(s, r, Listed(id));
      AdvanceKeepsPairing(s, r, Listed(id));
      AddPending(s1, r);
    }
  }

  function Pend(t: Tables, id: nat, r: Request): Tables { t.(pending := t.pending[id := r]) }

  lemma PendKeepsTables(t: Tables, id: nat, r: Request)
    requires TablesOk(t) && id in t.owner && t.owner[id] == r && id !in t.admitted
    ensures TablesOk(Pend(t, id, r))
  {
  }

  lemma PendKeepsCall(t: Tables, id: nat, r: Request, x: Request, phase: Phase)
    requires CallOk(t, x, phase) && (phase.Issued? ==> phase.id != id)
    ensures CallOk(Pend(t, id, r), x, phase)
  {
  }

  lemma PendKeepsOwner(s: State, id: nat, r: Request, x: nat)
    requires OwnerOk(s, x) && r in s.calls && s.calls[r].phase == Listed(id) && (x == id ==> s.tables.owner[x] == r)
    ensures OwnerOk(s.(tables := Pend(s.tables, id, r)), x)
  {
  }

  lemma OnlyOwnerHasId(t: Tables, r: Request, id: nat, x: Request, phase: Phase)
    requires CallOk(t, r, Listed(id)) && CallOk(t, x, phase) && phase.Issued? && phase.id == id
    ensures x == r
  {
  }

  lemma AddPending(s: State, r: Request)
    requires PairingInv(s) && r in s.calls && s.calls[r].phase.Listed?
    requires s.calls[r].phase.id !in s.tables.pending && s.calls[r].phase.id !in s.tables.admitted
    ensures PairingInv(s.(tables := Pend(s.tables, s.calls[r].phase.id, r)))
  {
    hide CallOk, OwnerOk, TablesOk;
    var id := s.calls[r].phase.id;
    assert CallOk(s.tables, r, s.calls[r].phase);
    OwnsItsId(s.tables, r, s.calls[r].phase);
    PendKeepsTables(s.tables, id, r);
    forall x | x in s.tables.owner ensures OwnerOk(s.(tables := Pend(s.tables, id, r)), x) {
      PendKeepsOwner(s, id, r, x);
    }
    forall x | x in s.calls ensures CallOk(Pend(s.tables, id, r), x, s.calls[x].phase) {
      if s.calls[x].phase.Issued? && s.calls[x].phase.id == id {
        OnlyOwnerHasId(s.tables, r, id, x, s.calls[x].phase);
      }
      PendKeepsCall(s.tables, id, r, x, s.calls[x].phase);
    }
  }

  lemma OwnsItsId(t: Tables, r: Request, phase: Phase)
    requires CallOk(t, r, phase) && HasId(phase)
    ensures phase.id in t.owner && t.owner[phase.id] == r
  {
  }

  /** A stream claims its id from the pending table, or is dropped. */
  lemma ArriveKeepsPairing(s: State, token: Token, id: nat)
    requires PairingInv(s)
    ensures PairingInv(DoArrive(s, token, id))
  {
    hide CallOk, TablesOk, OwnerOk;
    if token !in s.tables.arrived {
      PresentKeepsTables(s.tables, token, id);
      forall r | r in s.calls ensures CallOk(Present(s.tables, token, id), r, s.calls[r].phase) {
        PresentKeepsCall(s.tables, token, id, r, s.calls[r].phase);
      }
      SetTablesKeepsPairing(s, Present(s.tables, token, id));
    }
  }

  lemma PresentKeepsCall(t: Tables, token: Token, id: nat, r: Request, phase: Phase)
    requires TablesOk(t) && token !in t.arrived && CallOk(t, r, phase)
    ensures CallOk(Present(t, token, id), r, phase)
  {
  }

  lemma UnclaimedKeepsTables(t: Tables, token: Token, id: nat)
    requires TablesOk(t) && token !in t.arrived
    ensures TablesOk(t.(arrived := t.arrived[token := id]))
  {
  }

  lemma ClaimKeepsFlight(t: Tables, t': Tables, token: Token, id: nat, k: Token)
    requires TablesOk(t) && token !in t.arrived && id in t.pending && t' == Present(t, token, id) && k in t'.flight
    ensures k in t'.arrived && Admitted(t', k, t'.arrived[k]) && t'.arrived[k] in t'.owner
    ensures t'.owner[t'.arrived[k]] == t'.flight[k]
  {
  }

  lemma ClaimKeepsRest(t: Tables, token: Token, id: nat)
    requires TablesOk(t) && token !in t.arrived && id in t.pending
    ensures var t' := Present(t, token, id);
            && (forall x | x in t'.pending :: x in t'.owner && t'.pending[x] == t'.owner[x] && x !in t'.admitted)
            && (forall x | x in t'.claims :: x in t'.admitted)
            && (forall x | x in t'.admitted :: x in t'.owner && t'.admitted[x] in t'.arrived)
            && NoDuplicates(t'.claims)
  {
  }

  lemma PresentKeepsTables(t: Tables, token: Token, id: nat)
    requires TablesOk(t) && token !in t.arrived
    ensures TablesOk(Present(t, token, id))
  {
    if id in t.pending {
      hide NoDuplicates, Admitted;
      ClaimKeepsRest(t, token, id);
      var t' := Present(t, token, id);
      forall k | k in t'.flight
        ensures k in t'.arrived && Admitted(t', k, t'.arrived[k]) && t'.arrived[k] in t'.owner
        ensures t'.owner[t'.arrived[k]] == t'.flight[k]
      {
        ClaimKeepsFlight(t, t', token, id, k);
      }
      hide Present;
    } else {
      UnclaimedKeepsTables(t, token, id);
    }
  }

  lemma ForwardKeepsPairing(s: State, token: Token)
    requires PairingInv(s)
    ensures PairingInv(DoForward(s, token)) && PairingInv(DoAbandon(s, token))
  {
    hide OwnerOk;
    var t := s.tables.(flight := s.tables.flight - {token});
    assert TablesOk(t);
    forall r | r in s.calls ensures CallOk(t, r, s.calls[r].phase) { assert CallOk(s.tables, r, s.calls[r].phase); }
    SetTablesKeepsPairing(s, t);
    if token in s.tables.flight {
      var r := s.tables.flight[token];
      if r in s.calls && !s.calls[r].phase.Over? {
        DeliverKeepsPairing(s, token, r);
      }
    }
  }

  function Hand(t: Tables, token: Token, r: Request): Tables {
    t.(flight := t.flight - {token}, inbox := t.inbox[r := token])
  }

  lemma HandKeepsTables(t: Tables, token: Token, r: Request)
    requires TablesOk(t)
    ensures TablesOk(Hand(t, token, r))
  {
  }

  lemma HandKeepsCall(t: Tables, token: Token, r: Request, x: Request, phase: Phase)
    requires CallOk(t, x, phase)
    requires x == r ==> !phase.Reserved? && (HasId(phase) ==> Admitted(t, token, phase.id))
    ensures CallOk(Hand(t, token, r), x, phase)
  {
  }

  lemma FlightIsAdmitted(t: Tables, token: Token)
    requires TablesOk(t) && token in t.flight
    ensures token in t.arrived && Admitted(t, token, t.arrived[token])
    ensures t.arrived[token] in t.owner && t.owner[t.arrived[token]] == t.flight[token]
  {
  }

  lemma OwnerPhase(s: State, id: nat)
    requires OwnerOk(s, id)
    ensures id in s.tables.owner && s.tables.owner[id] in s.calls
    ensures var phase := s.calls[s.tables.owner[id]].phase; !phase.Reserved? && (HasId(phase) ==> phase.id == id)
  {
  }

  lemma DeliverKeepsPairing(s: State, token: Token, r: Request)
    requires PairingInv(s) && token in s.tables.flight && s.tables.flight[token] == r
    requires r in s.calls && !s.calls[r].phase.Over?
    ensures PairingInv(s.(tables := Hand(s.tables, token, r)))
  {
    hide TablesOk, CallOk, OwnerOk, Admitted;
    HandKeepsTables(s.tables, token, r);
    FlightIsAdmitted(s.tables, token);
    OwnerPhase(s, s.tables.arrived[token]);
    forall x | x in s.calls ensures CallOk(Hand(s.tables, token, r), x, s.calls[x].phase) {
      HandKeepsCall(s.tables, token, r, x, s.calls[x].phase);
    }
    SetTablesKeepsPairing(s, Hand(s.tables, token, r));
  }

  lemma ClearInboxKeepsPairing(s: State, r: Request, ids: set<nat>)
    requires PairingInv(s)
    ensures PairingInv(s.(tables := s.tables.(pending := s.tables.pending - ids, inbox := s.tables.inbox - {r})))
  {
    hide OwnerOk;
    var t := s.tables.(pending := s.tables.pending - ids, inbox := s.tables.inbox - {r});
    assert TablesOk(t);
    forall x | x in s.calls ensures CallOk(t, x, s.calls[x].phase) { assert CallOk(s.tables, x, s.calls[x].phase); }
    SetTablesKeepsPairing(s, t);
  }

  lemma TakeKeepsPairing(s: State, r: Request)
    requires PairingInv(s)
    ensures PairingInv(DoTake(s, r))
  {
    hide OwnerOk;
    if DoTake(s, r) != s {
      var phase := Wrapping(s.calls[r].phase.id, s.tables.inbox[r]);
      assert CallOk(s.tables, r, s.calls[r].phase);
      AdvanceKeepsPairing(s, r, phase);
      ClearInboxKeepsPairing(SetPhase(s, r, phase), r, {});
      assert s.tables.pending - {} == s.tables.pending;
    }
  }

  lemma UnlistKeepsPairing(s: State, r: Request)
    requires PairingInv(s)
    ensures PairingInv(DoUnlist(s, r))
  {
    hide OwnerOk, CallOk, TablesOk;
    if r in s.calls && s.calls[r].phase.Unlisting? {
      var id := s.calls[r].phase.id;
      ClearInboxKeepsPairing(s, r, {id});
      var s1 := s.(tables := s.tables.(pending := s.tables.pending - {id}, inbox := s.tables.inbox - {r}));
      AdvanceKeepsPairing(s1, r, Over);
    }
  }

  lemma GiveBackKeepsPairing(s: State, r: Request)
    requires PairingInv(s)
    ensures PairingInv(DoGiveBack(s, r))
  {
    hide OwnerOk, CallOk, TablesOk, Release;
    if r in s.calls && s.calls[r].phase.Aborting? {
      var s1 := Freed(s, r, false);
      CountsDoNotMatter(s, s1.counts, s1.releases);
      AdvanceKeepsPairing(s1, r, Unlisting(s.calls[r].phase.id));
    }
  }

  lemma RunGuardKeepsPairing(s: State, r: Request)
    requires PairingInv(s)
    ensures PairingInv(DoRunGuard(s, r))
  {
    hide CallOk, TablesOk, Release;
    if r in s.calls && s.calls[r].phase.Dropped? {
      var s1 := Freed(s, r, true);
      CountsDoNotMatter(s, s1.counts, s1.releases);
      NotPending(s, r);
      AdvanceKeepsPairing(s1, r, Over);
    }
  }

  lemma NotPending(s: State, r: Request)
    requires PairingInv(s) && r in s.calls && HasId(s.calls[r].phase) && !MayBePending(s.calls[r].phase)
    ensures s.calls[r].phase.id !in s.tables.pending
  {
    assert CallOk(s.tables, r, s.calls[r].phase);
    assert OwnerOk(s, s.calls[r].phase.id);
  }

  lemma StreamMovesKeepPairing(s: State, r: Request, wrapped: bool, handle: Handle)
    requires PairingInv(s)
    ensures PairingInv(DoWrap(s, r, wrapped)) && PairingInv(DoSplit(s, r)) && PairingInv(DoDrop(s, r, handle))
  {
    hide PairingInv;
    if r in s.calls && (s.calls[r].phase.Wrapping? || s.calls[r].phase.Live?) {
      HeldStream(s, r);
      AdvanceKeepsPairing(s, r, DoWrap(s, r, wrapped).calls[r].phase);
      AdvanceKeepsPairing(s, r, DoSplit(s, r).calls[r].phase);
      AdvanceKeepsPairing(s, r, DoDrop(s, r, handle).calls[r].phase);
    }
  }

  lemma HeldStream(s: State, r: Request)
    requires PairingInv(s) && r in s.calls && (s.calls[r].phase.Wrapping? || s.calls[r].phase.Live?)
    ensures s.calls[r].phase.id !in s.tables.pending
    ensures Admitted(s.tables, s.calls[r].phase.token, s.calls[r].phase.id)
  {
    NotPending(s, r);
    assert CallOk(s.tables, r, s.calls[r].phase);
  }

  lemma WaitMovesKeepPairing(s: State, r: Request, sent: bool)
    requires PairingInv(s)
    ensures PairingInv(DoSendOpen(s, r, sent)) && PairingInv(DoTimeout(s, r))
  {
    hide OwnerOk, TablesOk, CallOk;
    if r in s.calls && s.calls[r].phase.Listed? {
      AdvanceKeepsPairing(s, r, DoSendOpen(s, r, sent).calls[r].phase);
    }
    if r in s.calls && s.calls[r].phase.Waiting? {
      AdvanceKeepsPairing(s, r, Aborting(s.calls[r].phase.id));
    }
  }

  lemma OtherIdKeepsPairing(s: State, n: nat)
    requires PairingInv(s)
    ensures PairingInv(s.(next := s.next + n))
  {
    hide TablesOk, CallOk;
    var s' := s.(next := s.next + n);
    forall id | id in s'.tables.owner ensures OwnerOk(s', id) { assert OwnerOk(s, id); }
  }

  lemma StepKeepsPairing(c: Config, s: State, a: Action)
    requires PairingInv(s)
    ensures PairingInv(Step(c, s, a))
  {
    hide PairingInv;
    match a
    case Begin(r, vkey) => BeginKeepsPairing(c, s, r, vkey);
    case Offline(r) => OfflineKeepsPairing(s, r);
    case Issue(r) => IssueKeepsPairing(s, r);
    case List(r) => ListKeepsPairing(s, r);
    case SendOpen(r, sent) => WaitMovesKeepPairing(s, r, sent);
    case Arrive(token, id) => ArriveKeepsPairing(s, token, id);
    case Forward(token) => ForwardKeepsPairing(s, token);
    case Abandon(token) => ForwardKeepsPairing(s, token);
    case Take(r) => TakeKeepsPairing(s, r);
    case Timeout(r) => WaitMovesKeepPairing(s, r, true);
    case GiveBack(r) => GiveBackKeepsPairing(s, r);
    case Unlist(r) => UnlistKeepsPairing(s, r);
    case Wrap(r, wrapped) => StreamMovesKeepPairing(s, r, wrapped, Whole);
    case Split(r) => StreamMovesKeepPairing(s, r, true, Whole);
    case Drop(r, handle) => StreamMovesKeepPairing(s, r, true, handle);
    case RunGuard(r) => RunGuardKeepsPairing(s, r);
    case OtherId(n) => OtherIdKeepsPairing(s, n);
  }

  lemma {:induction false} RunKeepsPairing(c: Config, actions: seq<Action>)
    ensures PairingInv(Run(c, actions))
  {
    hide Step;
    if actions != [] {
      hide PairingInv;
      RunKeepsPairing(c, actions[..|actions| - 1]);
      StepKeepsPairing(c, Run(c, actions[..|actions| - 1]), actions[|actions| - 1]);
    }
  }

  /**
   Pairing. In every run: link ids are drawn in strictly increasing order, so none is issued twice;
   no id is claimed twice; whatever stream a request holds was presented with exactly the id that
   request drew and is the one stream that claimed it; and no stream is held by two requests. A
   stream whose id is unknown, timed out or already claimed therefore reaches no one.
   */
  lemma Pairing(c: Config, actions: seq<Action>)
    ensures var s := Run(c, actions);
            && (forall i, j | 0 <= i < j < |s.issued| :: s.issued[i] < s.issued[j])
            && NoDuplicates(s.tables.claims)
            && (forall r | r in s.calls && (s.calls[r].phase.Wrapping? || s.calls[r].phase.Live?) ::
                  Admitted(s.tables, s.calls[r].phase.token, s.calls[r].phase.id))
            && (forall r, q | r in s.calls && q in s.calls && r != q
                     && (s.calls[r].phase.Wrapping? || s.calls[r].phase.Live?)
                     && (s.calls[q].phase.Wrapping? || s.calls[q].phase.Live?) ::
                  s.calls[r].phase.token != s.calls[q].phase.token)
  {
    hide Run, OwnerOk;
    RunKeepsPairing(c, actions);
    var s := Run(c, actions);
    forall r | r in s.calls ensures CallOk(s.tables, r, s.calls[r].phase) {}
  }

  predicate Refused(t: Tables, token: Token) {
    token in t.arrived && forall id | id in t.admitted :: t.admitted[id] != token
  }

  predicate SameArrivals(t: Tables, t': Tables) { t'.arrived == t.arrived && t'.admitted == t.admitted }

  lemma RequestMovesNoArrival(c: Config, s: State, r: Request, vkey: string, sent: bool)
    ensures SameArrivals(s.tables, DoBegin(c, s, r, vkey).tables) && SameArrivals(s.tables, DoOffline(s, r).tables)
    ensures SameArrivals(s.tables, DoIssue(s, r).tables) && SameArrivals(s.tables, DoList(s, r).tables)
    ensures SameArrivals(s.tables, DoSendOpen(s, r, sent).tables)
  {
    hide Release;
  }

  lemma StreamMovesNoArrival(s: State, r: Request, token: Token)
    ensures SameArrivals(s.tables, DoForward(s, token).tables) && SameArrivals(s.tables, DoAbandon(s, token).tables)
    ensures SameArrivals(s.tables, DoTake(s, r).tables) && SameArrivals(s.tables, DoTimeout(s, r).tables)
    ensures SameArrivals(s.tables, DoGiveBack(s, r).tables) && SameArrivals(s.tables, DoUnlist(s, r).tables)
  {
    hide Release;
  }

  lemma HandleMovesNoArrival(s: State, r: Request, wrapped: bool, handle: Handle)
    ensures SameArrivals(s.tables, DoWrap(s, r, wrapped).tables) && SameArrivals(s.tables, DoSplit(s, r).tables)
    ensures SameArrivals(s.tables, DoDrop(s, r, handle).tables) && SameArrivals(s.tables, DoRunGuard(s, r).tables)
  {
    hide Release;
  }

  /** Only an arrival changes which streams have been presented or admitted. */
  lemma OnlyArrivalsArrive(c: Config, s: State, a: Action)
    requires !a.Arrive?
    ensures SameArrivals(s.tables, Step(c, s, a).tables)
  {
    hide DoBegin, DoOffline, DoIssue, DoList, DoSendOpen, DoForward, DoAbandon, DoTake, DoTimeout, DoGiveBack, DoUnlist,
      DoWrap, DoSplit, DoDrop, DoRunGuard, SameArrivals;
    match a
    case Begin(r, vkey) => RequestMovesNoArrival(c, s, r, vkey, true);
    case Offline(r) => RequestMovesNoArrival(c, s, r, "", true);
    case Issue(r) => RequestMovesNoArrival(c, s, r, "", true);
    case List(r) => RequestMovesNoArrival(c, s, r, "", true);
    case SendOpen(r, sent) => RequestMovesNoArrival(c, s, r, "", sent);
    case Forward(token) => StreamMovesNoArrival(s, 0, token);
    case Abandon(token) => StreamMovesNoArrival(s, 0, token);
    case Take(r) => StreamMovesNoArrival(s, r, 0);
    case Timeout(r) => StreamMovesNoArrival(s, r, 0);
    case GiveBack(r) => StreamMovesNoArrival(s, r, 0);
    case Unlist(r) => StreamMovesNoArrival(s, r, 0);
    case Wrap(r, wrapped) => HandleMovesNoArrival(s, r, wrapped, Whole);
    case Split(r) => HandleMovesNoArrival(s, r, true, Whole);
    case Drop(r, handle) => HandleMovesNoArrival(s, r, true, handle);
    case RunGuard(r) => HandleMovesNoArrival(s, r, true, Whole);
    case OtherId(n) => AlwaysSame(s.tables);
  }

  lemma AlwaysSame(t: Tables)
    ensures SameArrivals(t, t)
  {
  }

  lemma PresentKeepsRefused(t: Tables, other: Token, id: nat, token: Token)
    requires Refused(t, token)
    ensures Refused(Present(t, other, id), token)
  {
  }

  lemma StepKeepsRefused(c: Config, s: State, a: Action, token: Token)
    requires Refused(s.tables, token)
    ensures Refused(Step(c, s, a).tables, token)
  {
    if a.Arrive? {
      hide Refused, Present;
      PresentKeepsRefused(s.tables, a.token, a.id, token);
    } else {
      OnlyArrivalsArrive(c, s, a);
      hide Step;
    }
  }

  lemma {:induction false} RunKeepsRefused(c: Config, before: seq<Action>, after: seq<Action>, token: Token)
    requires Refused(Run(c, before).tables, token)
    ensures Refused(Run(c, before + after).tables, token)
    decreases |after|
  {
    hide Step, Refused;
    if after == [] {
      assert before + after == before;
    } else {
      var init, last := after[..|after| - 1], after[|after| - 1];
      RunKeepsRefused(c, before, init, token);
      assert (before + after)[..|before + after| - 1] == before + init;
      StepKeepsRefused(c, Run(c, before + init), last, token);
    }
  }

  /**
   A stream that arrives when its id is not pending (never issued, already claimed, or given up after
   a timeout) is never attached to any request, then or later.
   */
  lemma LateStreamIsDropped(c: Config, before: seq<Action>, token: Token, id: nat, after: seq<Action>, r: Request)
    requires token !in Run(c, before).tables.arrived && id !in Run(c, before).tables.pending
    requires r in Run(c, before + [Arrive(token, id)] + after).calls
    ensures var phase := Run(c, before + [Arrive(token, id)] + after).calls[r].phase;
            phase.Wrapping? || phase.Live? ==> phase.token != token
  {
    hide Run;
    var mid := before + [Arrive(token, id)];
    RunKeepsPairing(c, before);
    RunKeepsPairing(c, mid + after);
    assert Run(c, mid) == DoArrive(Run(c, before), token, id) by { RunSnoc(c, before, Arrive(token, id)); }
    RunKeepsRefused(c, mid, after, token);
    assert CallOk(Run(c, mid + after).tables, r, Run(c, mid + after).calls[r].phase);
  }

  lemma RunSnoc(c: Config, actions: seq<Action>, a: Action)
    ensures Run(c, actions + [a]) == Step(c, Run(c, actions), a)
  {
    assert (actions + [a])[..|actions|] == actions;
  }

  // ---------------------------------------------------------------- giving up

  /** The call is over, its id is no longer pending, and its slot, if it had one, has been given back. */
  predicate CleanedUp(s: State, r: Request, id: nat, reserved: bool) {
    && r in s.calls && s.calls[r].phase == Over && id !in s.tables.pending && r !in s.tables.inbox
    && (reserved ==> r in s.releases)
  }

  lemma AbortCleansUp(c: Config, s: State, r: Request)
    requires r in s.calls && s.calls[r].phase.Aborting?
    ensures CleanedUp(Step(c, Step(c, s, GiveBack(r)), Unlist(r)), r, s.calls[r].phase.id, s.calls[r].reserved)
  {
    hide Release;
  }

  /** A request whose Open cannot be sent, and one that times out before a stream is there, clean up after themselves. */
  lemma GivingUpCleansUp(c: Config, s: State, r: Request)
    requires r in s.calls && HasId(s.calls[r].phase)
    ensures var call := s.calls[r];
            && (call.phase.Listed? ==>
                  CleanedUp(Step(c, Step(c, Step(c, s, SendOpen(r, false)), GiveBack(r)), Unlist(r)), r, call.phase.id, call.reserved))
            && (call.phase.Waiting? && r !in s.tables.inbox ==>
                  CleanedUp(Step(c, Step(c, Step(c, s, Timeout(r)), GiveBack(r)), Unlist(r)), r, call.phase.id, call.reserved))
  {
    hide CleanedUp, DoGiveBack, DoUnlist;
    if s.calls[r].phase.Listed? {
      AbortCleansUp(c, Step(c, s, SendOpen(r, false)), r);
    } else if s.calls[r].phase.Waiting? && r !in s.tables.inbox {
      AbortCleansUp(c, Step(c, s, Timeout(r)), r);
    }
  }

  /** A stream that arrives for a pending id and is forwarded reaches exactly the request that waits for that id. */
  lemma StreamReachesRequest(c: Config, s: State, token: Token, id: nat)
    requires PairingInv(s) && id in s.tables.pending && token !in s.tables.arrived
    requires s.tables.pending[id] in s.calls && s.calls[s.tables.pending[id]].phase == Waiting(id)
    ensures var r := s.tables.pending[id];
            var s' := Step(c, Step(c, Step(c, s, Arrive(token, id)), Forward(token)), Take(r));
            r in s'.calls && s'.calls[r].phase == Wrapping(id, token) && id !in s'.tables.pending
  {
    hide CallOk, OwnerOk, TablesOk, IssuedOk;
  }

  /** A claimed raw connection whose acknowledgement cannot be written reaches no one, and its id stays claimed. */
  lemma AbandonedIsDropped(c: Config, s: State, token: Token)
    ensures var s' := Step(c, s, Abandon(token));
            && token !in s'.tables.flight && s'.tables.inbox == s.tables.inbox && s'.tables.pending == s.tables.pending
            && s'.calls == s.calls
  {
  }
}
