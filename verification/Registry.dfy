/**
 The client map under every kind of change the server makes to it: config uploads, registration, and
 the web interface's client, tunnel and host edits, interleaved in any order. An upload, a client
 add and a registration look at the map under one lock and insert under another, so each is two
 actions: prepare a draft, then publish it.
 */
module Registry {
  import opened Wrappers
  import opened Text
  import opened Persistence
  import opened StartUp
  import Ports

  type Ticket = nat

  datatype State = State(
    clients: Clients,
    next: nat,                        // the shared id counter
    drafts: map<Ticket, Client>)     // prepared entries waiting to be inserted

  /** What a client form carries besides the key. */
  datatype Form = Form(configConnAllow: bool, body: string)

  /** Wherever an entry is looked up by client id, `key` is the entry the lookup found. */
  datatype Action =
    | PrepareUpload(u: Ticket, config: Client, helloVkey: string, valid: bool)
    | PrepareAdd(u: Ticket, vkey: string, form: Form, refused: bool)            // client add
    | PrepareRegister(u: Ticket, suffix: nat, body: string)                     // user registration
    | Publish(u: Ticket)                                                        // insert a draft
    | Edit(id: nat, key: string, vkey: string, form: Form, refused: bool)       // client edit and status
    | Delete(id: nat, key: string)                                              // client delete
    | AddTunnel(id: nat, key: string, tunnel: Child, fits: bool)                // tunnel add and copy
    | AddHost(id: nat, key: string, host: Child, fits: bool)                    // host add
    | EditTunnel(key: string, index: nat, tunnel: Child)                        // tunnel edit and status
    | EditHost(key: string, index: nat, host: Child)                            // host edit and status
    | DropTunnel(key: string, index: nat)                                      // tunnel delete
    | DropHost(key: string, index: nat)                                        // host delete
    | Restart(keys: seq<string>)                                                // save in that order, load, install
    | DrawId                                                                   // any other use of the counter

  // ---------------------------------------------------------------- config drafts

  /** Children of an uploaded config: ids assigned where missing, owner set. */
  function Tagged(cs: seq<Child>, vkey: string, next: nat): (r: (seq<Child>, nat))
    ensures r.1 >= next
  {
    if cs == [] then ([], next)
    else
      var (init, n) := Tagged(cs[..|cs| - 1], vkey, next);
      var c := cs[|cs| - 1];
      (init + [c.(id := IdFor(n, c.id), clientVkey := vkey)], NextAfter(n, c.id))
  }

  function UploadVkey(config: Client, helloVkey: string): string { if config.vkey == "" then helloVkey else config.vkey }

  /** A tunnel record as one record per tunnel in `ts`, all with its id and owner. */
  function AsTunnels(c: Child, ts: seq<Ports.Tunnel>): seq<Child> {
    if ts == [] then [] else [c.(spec := TunnelSpec(ts[0]))] + AsTunnels(c, ts[1..])
  }

  /** expand_runtime_tunnels on tunnel records. */
  function Expanded(cs: seq<Child>): seq<Child> {
    if cs == [] then []
    else
      var c := cs[|cs| - 1];
      Expanded(cs[..|cs| - 1]) + if c.spec.TunnelSpec? then AsTunnels(c, Ports.Expansion(c.spec.tunnel)) else [c]
  }

  /** install_client_config up to the write: None is an error return. `valid` covers port and count checks. */
  function Prepared(s: State, config: Client, helloVkey: string, valid: bool): (Option<Client>, nat) {
    var vkey := UploadVkey(config, helloVkey);
    if vkey == "" then (None, s.next)
    else
      var (hosts, n1) := Tagged(config.hosts, vkey, s.next);
      var (tunnels, n2) := Tagged(config.tunnels, vkey, n1);
      var c := config.(vkey := vkey, verifyKey := vkey, hosts := hosts, tunnels := tunnels);
      if !valid then (None, n2)
      else if vkey in s.clients then
        var existing := s.clients[vkey];
        if config.noStore && !existing.configConnAllow then (None, n2)
        else (Some(c.(id := existing.id, noStore := existing.noStore, hosts := hosts + Stored(existing.hosts),
                      tunnels := Expanded(tunnels + Stored(existing.tunnels)))), NextAfter(n2, existing.id))
      else (Some(c.(id := n2, noStore := true, tunnels := Expanded(tunnels))), n2 + 1)
  }

  function DoPrepareUpload(s: State, u: Ticket, config: Client, helloVkey: string, valid: bool): State {
    if u in s.drafts then s
    else
      var (c, next) := Prepared(s, config, helloVkey, valid);
      s.(next := next, drafts := if c.Some? then s.drafts[u := c.value] else s.drafts)
  }

  function DoPublish(s: State, u: Ticket): State {
    if u !in s.drafts then s
    else s.(clients := s.clients[s.drafts[u].vkey := s.drafts[u]], drafts := s.drafts - {u})
  }

  // ---------------------------------------------------------------- web edits

  function NewClient(id: nat, vkey: string, form: Form): Client {
    Client(id, vkey, vkey, false, form.configConnAllow, form.body, [], [], [], [])
  }

  /** An empty vkey is replaced by a generated one, which costs an id of its own. */
  function DoPrepareAdd(s: State, u: Ticket, vkey: string, form: Form, refused: bool): State {
    var key := if vkey == "" then "web" + Decimal(s.next) else vkey;
    var id := if vkey == "" then s.next + 1 else s.next;
    if u in s.drafts then s
    else if key in s.clients || refused then s.(next := id)
    else s.(drafts := s.drafts[u := NewClient(id, key, form)], next := id + 1)
  }

  /** The key is made from the first later id whose key is free; the id itself is the first drawn. */
  function DoPrepareRegister(s: State, u: Ticket, suffix: nat, body: string): State {
    var key := "user" + Decimal(suffix);
    if u in s.drafts || suffix < s.next || key in s.clients then s
    else s.(drafts := s.drafts[u := NewClient(s.next, key, Form(false, body))], next := suffix + 1)
  }

  predicate Found(m: Clients, id: nat, key: string) { key in m && m[key].id == id }

  function Retagged(cs: seq<Child>, vkey: string): (r: seq<Child>)
    ensures |r| == |cs|
  {
    if cs == [] then [] else Retagged(cs[..|cs| - 1], vkey) + [cs[|cs| - 1].(clientVkey := vkey)]
  }

  function NewKey(key: string, vkey: string): string { if vkey == "" then key else vkey }

  function DoEdit(s: State, id: nat, key: string, vkey: string, form: Form, refused: bool): State {
    var newKey := NewKey(key, vkey);
    if !Found(s.clients, id, key) || (newKey != key && newKey in s.clients) || refused then s
    else
      var c := s.clients[key];
      var c' := c.(vkey := newKey, verifyKey := newKey, body := form.body, configConnAllow := form.configConnAllow,
                   tunnels := Retagged(c.tunnels, newKey), hosts := Retagged(c.hosts, newKey));
      s.(clients := (s.clients - {key})[newKey := c'])
  }

  function DoDelete(s: State, id: nat, key: string): State {
    if !Found(s.clients, id, key) then s else s.(clients := s.clients - {key})
  }

  function DoAddTunnel(s: State, id: nat, key: string, tunnel: Child, fits: bool): State {
    var s1 := s.(next := s.next + 1);
    if !Found(s.clients, id, key) || !fits then s1
    else
      var c := s.clients[key];
      s1.(clients := s.clients[key := c.(tunnels := c.tunnels + [tunnel.(id := s.next, clientVkey := key, noStore := false)])])
  }

  function DoAddHost(s: State, id: nat, key: string, host: Child, fits: bool): State {
    var s1 := s.(next := s.next + 1);
    if !Found(s.clients, id, key) || !fits then s1
    else
      var c := s.clients[key];
      s1.(clients := s.clients[key := c.(hosts := c.hosts + [host.(id := s.next, clientVkey := key, noStore := false)])])
  }

  function WithTunnels(s: State, key: string, ts: seq<Child>): State
    requires key in s.clients
  {
    s.(clients := s.clients[key := s.clients[key].(tunnels := ts)])
  }

  function WithHosts(s: State, key: string, hs: seq<Child>): State
    requires key in s.clients
  {
    s.(clients := s.clients[key := s.clients[key].(hosts := hs)])
  }

  /** An edit keeps a child's id and owner. */
  function Replaced(cs: seq<Child>, i: nat, c: Child): seq<Child>
    requires i < |cs|
  {
    cs[i := c.(id := cs[i].id, clientVkey := cs[i].clientVkey)]
  }

  function Without(cs: seq<Child>, i: nat): seq<Child>
    requires i < |cs|
  {
    cs[..i] + cs[i + 1..]
  }

  function Started(l: Loaded): State { State(l.clients, l.next, map[]) }

  /** The counter of a new process starts at 1. */
  function DoRestart(s: State, keys: seq<string>): State {
    if Enumerates(keys, s.clients) then Started(Install(1, SaveIn(s.clients, keys))) else s
  }

  function Step(s: State, a: Action): State {
    match a
    case PrepareUpload(u, config, helloVkey, valid) => DoPrepareUpload(s, u, config, helloVkey, valid)
    case Publish(u) => DoPublish(s, u)
    case PrepareAdd(u, vkey, form, refused) => DoPrepareAdd(s, u, vkey, form, refused)
    case PrepareRegister(u, suffix, body) => DoPrepareRegister(s, u, suffix, body)
    case Edit(id, key, vkey, form, refused) => DoEdit(s, id, key, vkey, form, refused)
    case Delete(id, key) => DoDelete(s, id, key)
    case AddTunnel(id, key, tunnel, fits) => DoAddTunnel(s, id, key, tunnel, fits)
    case AddHost(id, key, host, fits) => DoAddHost(s, id, key, host, fits)
    case EditTunnel(key, i, tunnel) =>
      if key !in s.clients || i >= |s.clients[key].tunnels| then s
      else WithTunnels(s, key, Replaced(s.clients[key].tunnels, i, tunnel))
    case EditHost(key, i, host) =>
      if key !in s.clients || i >= |s.clients[key].hosts| then s
      else WithHosts(s, key, Replaced(s.clients[key].hosts, i, host))
    case DropTunnel(key, i) =>
      if key !in s.clients || i >= |s.clients[key].tunnels| then s
      else WithTunnels(s, key, Without(s.clients[key].tunnels, i))
    case DropHost(key, i) =>
      if key !in s.clients || i >= |s.clients[key].hosts| then s
      else WithHosts(s, key, Without(s.clients[key].hosts, i))
    case Restart(keys) => DoRestart(s, keys)
    case DrawId => s.(next := s.next + 1)
  }

  // ---------------------------------------------------------------- invariant

  /** An entry is filed under its own non-empty vkey, and its children name it as their owner. */
  predicate EntryOk(k: string, c: Client, next: nat) {
    && k != "" && c.vkey == k && c.verifyKey == k && 0 < c.id < next
    && ChildrenOf(k, c.tunnels) && ChildrenOf(k, c.hosts)
  }

  /** Writing the upload now would not duplicate an id. */
  predicate Writable(m: Clients, c: Client) { forall k | k in m && k != c.vkey :: m[k].id != c.id }

  predicate EntriesOk(s: State) {
    && s.next > 0
    && (forall k | k in s.clients :: EntryOk(k, s.clients[k], s.next))
    && (forall u | u in s.drafts :: EntryOk(s.drafts[u].vkey, s.drafts[u], s.next))
  }

  predicate IdsOk(s: State) {
    && DistinctIds(s.clients)
    && (forall u | u in s.drafts :: Writable(s.clients, s.drafts[u]))
    && (forall u, w | u in s.drafts && w in s.drafts && s.drafts[u].id == s.drafts[w].id ::
          s.drafts[u].vkey == s.drafts[w].vkey)
  }

  predicate Inv(s: State) { EntriesOk(s) && IdsOk(s) }

  /** The one thing an administrator must not do: rename a client while an upload of it is under way. */
  predicate Quiet(s: State, a: Action) {
    a.Edit? && NewKey(a.key, a.vkey) != a.key ==> forall u | u in s.drafts :: s.drafts[u].id != a.id
  }

  // ---------------------------------------------------------------- children

  lemma {:induction false} TaggedAreOwned(cs: seq<Child>, vkey: string, next: nat)
    requires next > 0
    ensures ChildrenOf(vkey, Tagged(cs, vkey, next).0)
  {
    if cs != [] {
      TaggedAreOwned(cs[..|cs| - 1], vkey, next);
    }
  }

  lemma {:induction false} RetaggedAreOwned(key: string, cs: seq<Child>, vkey: string)
    requires ChildrenOf(key, cs)
    ensures ChildrenOf(vkey, Retagged(cs, vkey))
  {
    if cs != [] {
      RetaggedAreOwned(key, cs[..|cs| - 1], vkey);
    }
  }

  lemma {:induction false} StoredAreOwned(cs: seq<Child>, k: string)
    requires ChildrenOf(k, cs)
    ensures ChildrenOf(k, Stored(cs))
  {
    if cs != [] {
      StoredAreOwned(cs[..|cs| - 1], k);
    }
  }

  lemma {:induction false} TunnelsAreOwned(c: Child, ts: seq<Ports.Tunnel>)
    requires c.id != 0
    ensures ChildrenOf(c.clientVkey, AsTunnels(c, ts))
  {
    if ts != [] {
      TunnelsAreOwned(c, ts[1..]);
    }
  }

  lemma {:induction false} ExpandedAreOwned(cs: seq<Child>, k: string)
    requires ChildrenOf(k, cs)
    ensures ChildrenOf(k, Expanded(cs))
  {
    hide AsTunnels, Ports.Expansion;
    if cs != [] {
      var c := cs[|cs| - 1];
      assert c in cs;
      ExpandedAreOwned(cs[..|cs| - 1], k);
      if c.spec.TunnelSpec? {
        TunnelsAreOwned(c, Ports.Expansion(c.spec.tunnel));
      }
    }
  }

  // ---------------------------------------------------------------- steps

  /** The prepared config is a good entry whose id is either that of the entry it replaces or new. */
  lemma PreparedIsGood(s: State, config: Client, helloVkey: string, valid: bool)
    requires EntriesOk(s)
    ensures var (c, next) := Prepared(s, config, helloVkey, valid);
            && next >= s.next
            && (c.Some? ==>
                  && EntryOk(c.value.vkey, c.value, next)
                  && if c.value.vkey in s.clients then c.value.id == s.clients[c.value.vkey].id else c.value.id >= s.next)
  {
    hide Tagged, Stored, Expanded;
    var vkey := UploadVkey(config, helloVkey);
    if vkey != "" {
      var (hosts, n1) := Tagged(config.hosts, vkey, s.next);
      var (tunnels, n2) := Tagged(config.tunnels, vkey, n1);
      TaggedAreOwned(config.hosts, vkey, s.next);
      TaggedAreOwned(config.tunnels, vkey, n1);
      if vkey in s.clients {
        var existing := s.clients[vkey];
        assert EntryOk(vkey, existing, s.next);
        StoredAreOwned(existing.hosts, vkey);
        StoredAreOwned(existing.tunnels, vkey);
        ExpandedAreOwned(tunnels + Stored(existing.tunnels), vkey);
      } else {
        ExpandedAreOwned(tunnels, vkey);
      }
    }
  }

  /** A step that keeps the entries consistent and, if they were distinct, the ids distinct. */
  predicate Keeps(s: State, s': State) { EntriesOk(s') && (IdsOk(s) ==> IdsOk(s')) }

  lemma PrepareUploadKeeps(s: State, u: Ticket, config: Client, helloVkey: string, valid: bool)
    requires EntriesOk(s)
    ensures Keeps(s, DoPrepareUpload(s, u, config, helloVkey, valid))
  {
    hide Prepared, ChildrenOf;
    if u !in s.drafts {
      PreparedIsGood(s, config, helloVkey, valid);
    }
  }

  lemma PublishKeeps(s: State, u: Ticket)
    requires EntriesOk(s)
    ensures Keeps(s, DoPublish(s, u))
  {
    hide ChildrenOf;
  }

  /** A draft with an id drawn for it, and any later counter. */
  lemma NewDraftKeeps(s: State, u: Ticket, c: Client, next: nat)
    requires EntriesOk(s) && u !in s.drafts && s.next <= c.id < next && EntryOk(c.vkey, c, next)
    ensures Keeps(s, s.(drafts := s.drafts[u := c], next := next))
  {
    hide ChildrenOf;
  }

  lemma NewClientIsGood(id: nat, key: string, form: Form, next: nat)
    requires key != "" && 0 < id < next
    ensures EntryOk(key, NewClient(id, key, form), next)
  {
  }

  lemma PrepareAddKeeps(s: State, u: Ticket, vkey: string, form: Form, refused: bool)
    requires EntriesOk(s)
    ensures Keeps(s, DoPrepareAdd(s, u, vkey, form, refused))
  {
    hide Decimal, EntryOk, NewClient, Keeps;
    var key := if vkey == "" then "web" + Decimal(s.next) else vkey;
    var id := if vkey == "" then s.next + 1 else s.next;
    NextKeeps(s, s.next);
    NextKeeps(s, id);
    if u !in s.drafts && key !in s.clients && !refused {
      NewClientIsGood(id, key, form, id + 1);
      NewClientFields(id, key, form);
      NewDraftKeeps(s, u, NewClient(id, key, form), id + 1);
    }
  }

  lemma NewClientFields(id: nat, key: string, form: Form)
    ensures NewClient(id, key, form).id == id && NewClient(id, key, form).vkey == key
  {
  }

  lemma PrepareRegisterKeeps(s: State, u: Ticket, suffix: nat, body: string)
    requires EntriesOk(s)
    ensures Keeps(s, DoPrepareRegister(s, u, suffix, body))
  {
    hide Decimal, EntryOk, NewClient, Keeps;
    var key := "user" + Decimal(suffix);
    NextKeeps(s, s.next);
    if u !in s.drafts && suffix >= s.next && key !in s.clients {
      NewClientIsGood(s.next, key, Form(false, body), suffix + 1);
      NewClientFields(s.next, key, Form(false, body));
      NewDraftKeeps(s, u, NewClient(s.next, key, Form(false, body)), suffix + 1);
    }
  }

  lemma EditKeepsEntries(s: State, id: nat, key: string, vkey: string, form: Form, refused: bool)
    requires EntriesOk(s)
    ensures EntriesOk(DoEdit(s, id, key, vkey, form, refused))
  {
    hide Retagged, ChildrenOf;
    if Found(s.clients, id, key) {
      assert EntryOk(key, s.clients[key], s.next);
      RetaggedAreOwned(key, s.clients[key].tunnels, NewKey(key, vkey));
      RetaggedAreOwned(key, s.clients[key].hosts, NewKey(key, vkey));
    }
  }

  lemma EditKeepsIds(s: State, id: nat, key: string, vkey: string, form: Form, refused: bool)
    requires EntriesOk(s) && IdsOk(s) && Quiet(s, Edit(id, key, vkey, form, refused))
    ensures IdsOk(DoEdit(s, id, key, vkey, form, refused))
  {
    hide Retagged, EntryOk;
  }

  lemma EditKeeps(s: State, id: nat, key: string, vkey: string, form: Form, refused: bool)
    requires EntriesOk(s)
    ensures EntriesOk(DoEdit(s, id, key, vkey, form, refused))
    ensures IdsOk(s) && Quiet(s, Edit(id, key, vkey, form, refused)) ==> IdsOk(DoEdit(s, id, key, vkey, form, refused))
  {
    hide EntriesOk, IdsOk, Quiet, DoEdit;
    EditKeepsEntries(s, id, key, vkey, form, refused);
    if IdsOk(s) && Quiet(s, Edit(id, key, vkey, form, refused)) {
      EditKeepsIds(s, id, key, vkey, form, refused);
    }
  }

  lemma DeleteKeeps(s: State, id: nat, key: string)
    requires EntriesOk(s)
    ensures Keeps(s, DoDelete(s, id, key))
  {
    hide ChildrenOf;
  }

  /** Replacing an entry by one with the same identity. */
  lemma ReplaceKeeps(s: State, key: string, c: Client, next: nat)
    requires EntriesOk(s) && key in s.clients && c.id == s.clients[key].id && EntryOk(key, c, next) && next >= s.next
    ensures Keeps(s, s.(clients := s.clients[key := c], next := next))
  {
    hide ChildrenOf;
  }

  lemma NextKeeps(s: State, next: nat)
    requires EntriesOk(s) && next >= s.next
    ensures Keeps(s, s.(next := next))
  {
    hide ChildrenOf;
  }

  lemma TunnelsKeep(s: State, key: string, ts: seq<Child>, next: nat)
    requires EntriesOk(s) && key in s.clients && ChildrenOf(key, ts) && next >= s.next
    ensures Keeps(s, WithTunnels(s, key, ts).(next := next))
  {
    hide ChildrenOf, IdsOk;
    assert EntryOk(key, s.clients[key], s.next);
    ReplaceKeeps(s, key, s.clients[key].(tunnels := ts), next);
  }

  lemma HostsKeep(s: State, key: string, hs: seq<Child>, next: nat)
    requires EntriesOk(s) && key in s.clients && ChildrenOf(key, hs) && next >= s.next
    ensures Keeps(s, WithHosts(s, key, hs).(next := next))
  {
    hide ChildrenOf, IdsOk;
    assert EntryOk(key, s.clients[key], s.next);
    ReplaceKeeps(s, key, s.clients[key].(hosts := hs), next);
  }

  lemma AddTunnelKeeps(s: State, id: nat, key: string, tunnel: Child, fits: bool)
    requires EntriesOk(s)
    ensures Keeps(s, DoAddTunnel(s, id, key, tunnel, fits))
  {
    hide IdsOk;
    if Found(s.clients, id, key) && fits {
      assert EntryOk(key, s.clients[key], s.next);
      hide EntriesOk;
      TunnelsKeep(s, key, s.clients[key].tunnels + [tunnel.(id := s.next, clientVkey := key, noStore := false)], s.next + 1);
    } else {
      NextKeeps(s, s.next + 1);
    }
  }

  lemma AddHostKeeps(s: State, id: nat, key: string, host: Child, fits: bool)
    requires EntriesOk(s)
    ensures Keeps(s, DoAddHost(s, id, key, host, fits))
  {
    hide IdsOk;
    if Found(s.clients, id, key) && fits {
      assert EntryOk(key, s.clients[key], s.next);
      hide EntriesOk;
      HostsKeep(s, key, s.clients[key].hosts + [host.(id := s.next, clientVkey := key, noStore := false)], s.next + 1);
    } else {
      NextKeeps(s, s.next + 1);
    }
  }

  lemma ChangedAreOwned(cs: seq<Child>, k: string, i: nat, c: Child)
    requires ChildrenOf(k, cs) && i < |cs|
    ensures ChildrenOf(k, Replaced(cs, i, c)) && ChildrenOf(k, Without(cs, i))
  {
  }

  lemma TunnelChangeKeeps(s: State, a: Action)
    requires EntriesOk(s) && (a.EditTunnel? || a.DropTunnel?)
    ensures Keeps(s, Step(s, a))
  {
    hide IdsOk, ChildrenOf, Replaced, Without;
    if a.key in s.clients && a.index < |s.clients[a.key].tunnels| {
      assert EntryOk(a.key, s.clients[a.key], s.next);
      hide EntriesOk;
      var ts := s.clients[a.key].tunnels;
      var c := if a.EditTunnel? then a.tunnel else ts[0];
      ChangedAreOwned(ts, a.key, a.index, c);
      TunnelsKeep(s, a.key, if a.EditTunnel? then Replaced(ts, a.index, c) else Without(ts, a.index), s.next);
    }
  }

  lemma HostChangeKeeps(s: State, a: Action)
    requires EntriesOk(s) && (a.EditHost? || a.DropHost?)
    ensures Keeps(s, Step(s, a))
  {
    hide IdsOk, ChildrenOf, Replaced, Without;
    if a.key in s.clients && a.index < |s.clients[a.key].hosts| {
      assert EntryOk(a.key, s.clients[a.key], s.next);
      hide EntriesOk;
      var hs := s.clients[a.key].hosts;
      var c := if a.EditHost? then a.host else hs[0];
      ChangedAreOwned(hs, a.key, a.index, c);
      HostsKeep(s, a.key, if a.EditHost? then Replaced(hs, a.index, c) else Without(hs, a.index), s.next);
    }
  }

  // ---------------------------------------------------------------- start-up

  /** Children that a client record itself carries name it as their owner; saved records carry none. */
  predicate Housed(cs: seq<Client>) {
    forall c | c in cs :: ChildrenOf(KeyOf(c), c.tunnels) && ChildrenOf(KeyOf(c), c.hosts)
  }

  lemma ClientInstalls(l: Loaded, c: Client)
    requires EntriesOk(Started(l)) && ChildrenOf(KeyOf(c), c.tunnels) && ChildrenOf(KeyOf(c), c.hosts)
    ensures EntriesOk(Started(AddClient(l, c)))
  {
    hide ChildrenOf;
  }

  lemma {:induction false} ClientsInstall(next: nat, cs: seq<Client>)
    requires Housed(cs) && next > 0
    ensures EntriesOk(Started(Installed(next, cs)))
  {
    hide ChildrenOf, AddClient;
    if cs != [] {
      ClientsInstall(next, cs[..|cs| - 1]);
      assert cs[|cs| - 1] in cs;
      ClientInstalls(Installed(next, cs[..|cs| - 1]), cs[|cs| - 1]);
    }
  }

  lemma {:induction false} TunnelsInstall(l: Loaded, ts: seq<Child>)
    requires EntriesOk(Started(l))
    ensures EntriesOk(Started(AddTunnels(l, ts)))
  {
    if ts != [] {
      hide IdsOk;
      var l1, t := AddTunnels(l, ts[..|ts| - 1]), ts[|ts| - 1];
      TunnelsInstall(l, ts[..|ts| - 1]);
      if t.clientVkey in l1.clients {
        assert EntryOk(t.clientVkey, l1.clients[t.clientVkey], l1.next);
        TunnelsKeep(Started(l1), t.clientVkey, l1.clients[t.clientVkey].tunnels + [Adopted(l1, t)], NextAfter(l1.next, t.id));
      } else {
        NextKeeps(Started(l1), Persistence.AddTunnel(l1, t).next);
      }
    }
  }

  lemma {:induction false} HostsInstall(l: Loaded, hs: seq<Child>)
    requires EntriesOk(Started(l))
    ensures EntriesOk(Started(AddHosts(l, hs)))
  {
    if hs != [] {
      hide IdsOk;
      var l1, h := AddHosts(l, hs[..|hs| - 1]), hs[|hs| - 1];
      HostsInstall(l, hs[..|hs| - 1]);
      if h.clientVkey in l1.clients {
        assert EntryOk(h.clientVkey, l1.clients[h.clientVkey], l1.next);
        HostsKeep(Started(l1), h.clientVkey, l1.clients[h.clientVkey].hosts + [Adopted(l1, h)], NextAfter(l1.next, h.id));
      } else {
        NextKeeps(Started(l1), Persistence.AddHost(l1, h).next);
      }
    }
  }

  lemma InstallIsFiled(next: nat, f: Files)
    requires next > 0 && Housed(f.clients)
    ensures EntriesOk(Started(Install(next, f)))
  {
    hide EntriesOk, AddClients, AddTunnels, AddHosts, Housed;
    ClientsInstall(next, f.clients);
    TunnelsInstall(Installed(next, f.clients), f.tunnels);
    HostsInstall(AddTunnels(Installed(next, f.clients), f.tunnels), f.hosts);
  }

  /** An installed registry satisfies the invariant if and only if its client records do not clash. */
  lemma StartIsGoodIff(next: nat, f: Files)
    requires next > 0 && Housed(f.clients)
    ensures Inv(Started(Install(next, f))) <==> NoLaterClash(next, f.clients)
  {
    hide EntriesOk, Install, Housed, NoLaterClash, DistinctIds;
    InstallIsFiled(next, f);
    DistinctIffNoLaterClash(next, f);
  }

  lemma {:induction false} SavedAreHoused(m: Clients, keys: seq<string>)
    requires forall k | k in keys :: k in m
    ensures Housed(SaveIn(m, keys).clients)
  {
    hide Kept, Stored;
    if keys != [] {
      SavedAreHoused(m, keys[..|keys| - 1]);
    }
  }

  lemma FiledIsConsistent(s: State)
    requires EntriesOk(s)
    ensures Consistent(s.clients)
  {
    hide ChildrenOf;
  }

  lemma RestartKeeps(s: State, keys: seq<string>)
    requires EntriesOk(s)
    ensures Keeps(s, DoRestart(s, keys))
  {
    hide EntriesOk, SaveIn, Install, Housed, NoLaterClash, DistinctIds, Consistent, GoodRecords;
    if Enumerates(keys, s.clients) {
      var f := SaveIn(s.clients, keys);
      FiledIsConsistent(s);
      SavedAreHoused(s.clients, keys);
      InstallIsFiled(1, f);
      if IdsOk(s) {
        SavedRecordsAreGood(s.clients, keys);
        GoodRecordsDoNotClash(1, f.clients);
        DistinctIffNoLaterClash(1, f);
      }
    }
  }

  lemma StepKeeps(s: State, a: Action)
    requires EntriesOk(s)
    ensures EntriesOk(Step(s, a))
    ensures IdsOk(s) && Quiet(s, a) ==> IdsOk(Step(s, a))
  {
    hide EntriesOk, IdsOk;
    match a
    case PrepareUpload(u, config, helloVkey, valid) => PrepareUploadKeeps(s, u, config, helloVkey, valid);
    case PrepareAdd(u, vkey, form, refused) => PrepareAddKeeps(s, u, vkey, form, refused);
    case PrepareRegister(u, suffix, body) => PrepareRegisterKeeps(s, u, suffix, body);
    case Publish(u) => PublishKeeps(s, u);
    case Edit(id, key, vkey, form, refused) => EditKeeps(s, id, key, vkey, form, refused);
    case Delete(id, key) => DeleteKeeps(s, id, key);
    case AddTunnel(id, key, tunnel, fits) => AddTunnelKeeps(s, id, key, tunnel, fits);
    case AddHost(id, key, host, fits) => AddHostKeeps(s, id, key, host, fits);
    case EditTunnel(_, _, _) => TunnelChangeKeeps(s, a);
    case DropTunnel(_, _) => TunnelChangeKeeps(s, a);
    case EditHost(_, _, _) => HostChangeKeeps(s, a);
    case DropHost(_, _) => HostChangeKeeps(s, a);
    case Restart(keys) => RestartKeeps(s, keys);
    case DrawId => NextKeeps(s, s.next + 1);
  }

  // ---------------------------------------------------------------- nothing stored is lost

  lemma {:induction false} RetaggedAt(cs: seq<Child>, vkey: string, i: nat)
    requires i < |cs|
    ensures Retagged(cs, vkey)[i] == cs[i].(clientVkey := vkey)
  {
    if i < |cs| - 1 {
      RetaggedAt(cs[..|cs| - 1], vkey, i);
    }
  }

  predicate SameButOwner(cs: seq<Child>, ds: seq<Child>, vkey: string) {
    |ds| == |cs| && forall i | 0 <= i < |cs| :: ds[i] == cs[i].(clientVkey := vkey)
  }

  /** A rename moves the entry with its id and all its children to the new key and touches no other entry. */
  lemma RenameMovesEntry(s: State, a: Action)
    requires Renames(s, a)
    ensures var m, m', k := s.clients, Step(s, a).clients, NewKey(a.key, a.vkey);
            && k == a.vkey && m'.Keys == m.Keys - {a.key} + {k} && (forall q | q in m && q != a.key :: m'[q] == m[q])
            && m'[k].id == m[a.key].id && m'[k].noStore == m[a.key].noStore
            && SameButOwner(m[a.key].tunnels, m'[k].tunnels, k) && SameButOwner(m[a.key].hosts, m'[k].hosts, k)
            && Step(s, a).next == s.next && Step(s, a).drafts == s.drafts
  {
    var c, k := s.clients[a.key], NewKey(a.key, a.vkey);
    assert SameButOwner(c.tunnels, Retagged(c.tunnels, k), k) by {
      forall i | 0 <= i < |c.tunnels| ensures Retagged(c.tunnels, k)[i] == c.tunnels[i].(clientVkey := k) {
        RetaggedAt(c.tunnels, k, i);
      }
    }
    assert SameButOwner(c.hosts, Retagged(c.hosts, k), k) by {
      forall i | 0 <= i < |c.hosts| ensures Retagged(c.hosts, k)[i] == c.hosts[i].(clientVkey := k) {
        RetaggedAt(c.hosts, k, i);
      }
    }
    hide Retagged, SameButOwner;
  }

  lemma {:induction false} StoredHas(cs: seq<Child>, c: Child)
    ensures c in Stored(cs) <==> c in cs && !c.noStore
  {
    if cs != [] {
      StoredHas(cs[..|cs| - 1], c);
      assert cs == cs[..|cs| - 1] + [cs[|cs| - 1]];
    }
  }

  lemma {:induction false} TunnelsCover(c: Child, ts: seq<Ports.Tunnel>, e: Ports.Tunnel)
    requires e in ts
    ensures c.(spec := TunnelSpec(e)) in AsTunnels(c, ts)
  {
    if e != ts[0] {
      TunnelsCover(c, ts[1..], e);
    }
  }

  /** Expansion covers every tunnel it is given: each of its copies is there, with its id and owner. */
  lemma {:induction false} ExpandedCovers(cs: seq<Child>, c: Child, e: Ports.Tunnel)
    requires c in cs && c.spec.TunnelSpec? && e in Ports.Expansion(c.spec.tunnel)
    ensures c.(spec := TunnelSpec(e)) in Expanded(cs)
  {
    hide AsTunnels, Ports.Expansion;
    var init, last := cs[..|cs| - 1], cs[|cs| - 1];
    if c == last {
      TunnelsCover(c, Ports.Expansion(c.spec.tunnel), e);
    } else {
      assert c in init by { assert cs == init + [last]; }
      ExpandedCovers(init, c, e);
    }
  }

  /**
   An accepted upload for a known client keeps each of its stored hosts and, for each of its stored
   tunnels, every copy the tunnel expands to.
   */
  lemma UploadKeepsStored(s: State, config: Client, helloVkey: string, valid: bool, h: Child, c: Child, e: Ports.Tunnel)
    requires Prepared(s, config, helloVkey, valid).0.Some? && UploadVkey(config, helloVkey) in s.clients
    requires var existing := s.clients[UploadVkey(config, helloVkey)];
             && h in existing.hosts && !h.noStore && c in existing.tunnels && !c.noStore
             && c.spec.TunnelSpec? && e in Ports.Expansion(c.spec.tunnel)
    ensures var draft := Prepared(s, config, helloVkey, valid).0.value;
            h in draft.hosts && c.(spec := TunnelSpec(e)) in draft.tunnels
  {
    hide Stored, Expanded, Tagged;
    var vkey := UploadVkey(config, helloVkey);
    var existing := s.clients[vkey];
    StoredHas(existing.hosts, h);
    StoredHas(existing.tunnels, c);
    var n1 := Tagged(config.hosts, vkey, s.next).1;
    ExpandedCovers(Tagged(config.tunnels, vkey, n1).0 + Stored(existing.tunnels), c, e);
  }

  // ---------------------------------------------------------------- runs

  function Run(s: State, actions: seq<Action>): State {
    if actions == [] then s else Step(Run(s, actions[..|actions| - 1]), actions[|actions| - 1])
  }

  /** No client is renamed while an upload of it is between its two locks. */
  predicate QuietRun(s: State, actions: seq<Action>) {
    forall i | 0 <= i < |actions| :: Quiet(Run(s, actions[..i]), actions[i])
  }

  /** Every quiet run keeps the map consistent and its ids distinct. */
  lemma {:induction false} QuietRunKeeps(s: State, actions: seq<Action>)
    requires Inv(s) && QuietRun(s, actions)
    ensures Inv(Run(s, actions))
  {
    if actions != [] {
      hide EntriesOk, IdsOk, Step, Quiet;
      var init := actions[..|actions| - 1];
      forall i | 0 <= i < |init| ensures Quiet(Run(s, init[..i]), init[i]) {
        assert init[..i] == actions[..i];
      }
      QuietRunKeeps(s, init);
      assert Quiet(Run(s, init), actions[|init|]);
      StepKeeps(Run(s, init), actions[|init|]);
    }
  }

  /** The entries, unlike the ids, are consistent after every run, quiet or not. */
  lemma {:induction false} EveryRunKeepsEntries(s: State, actions: seq<Action>)
    requires EntriesOk(s)
    ensures EntriesOk(Run(s, actions))
  {
    if actions != [] {
      hide EntriesOk, Step;
      EveryRunKeepsEntries(s, actions[..|actions| - 1]);
      StepKeeps(Run(s, actions[..|actions| - 1]), actions[|actions| - 1]);
    }
  }

  /** Looking an id up finds at most one entry. */
  lemma LookupIsUnambiguous(s: State, actions: seq<Action>, id: nat, k: string, q: string)
    requires Inv(s) && QuietRun(s, actions)
    requires Found(Run(s, actions).clients, id, k) && Found(Run(s, actions).clients, id, q)
    ensures k == q
  {
    hide Run, Step;
    QuietRunKeeps(s, actions);
  }

  /** The rename goes through. */
  predicate Renames(s: State, a: Action) {
    && a.Edit? && Found(s.clients, a.id, a.key) && !a.refused
    && NewKey(a.key, a.vkey) != a.key && NewKey(a.key, a.vkey) !in s.clients
  }

  /**
   A rename is harmless exactly when no upload of the same client is under way: otherwise publishing
   that upload files the same id under the old key again.
   */
  lemma RenameIsSafeIffQuiet(s: State, a: Action)
    requires Inv(s) && Renames(s, a)
    ensures Quiet(s, a) <==> forall u | u in s.drafts :: DistinctIds(Step(Step(s, a), Publish(u)).clients)
  {
    hide ChildrenOf, Retagged;
    if Quiet(s, a) {
      forall u | u in s.drafts ensures DistinctIds(Step(Step(s, a), Publish(u)).clients) {
        EditKeeps(s, a.id, a.key, a.vkey, a.form, a.refused);
        PublishKeeps(Step(s, a), u);
      }
    } else {
      var u :| u in s.drafts && s.drafts[u].id == a.id;
      var m := Step(Step(s, a), Publish(u)).clients;
      assert s.drafts[u].vkey == a.key;
      assert m[a.key].id == m[NewKey(a.key, a.vkey)].id;
    }
  }

  /**
   After any run at all, quiet or not, a restart through the stored files yields exactly the
   persistable projection of the map.
   */
  lemma RestartAfterAnyRun(
      jc: Json<Client>, jk: Json<Child>, s: State, actions: seq<Action>, keys: seq<string>, next: nat)
    requires Faithful(jc) && Faithful(jk) && EntriesOk(s) && Enumerates(keys, Run(s, actions).clients)
    ensures var m := Run(s, actions).clients;
            var loaded := Load(jc, jk, Save(jc, jk, SaveIn(m, keys)));
            loaded.Some? && Install(next, loaded.value).clients == Projection(m)
  {
    hide Run, ChildrenOf, Faithful, Enumerates, Projection, SaveIn, Install, Load, Save;
    EveryRunKeepsEntries(s, actions);
    assert Consistent(Run(s, actions).clients);
    RestartYieldsProjection(jc, jk, Run(s, actions).clients, keys, next);
  }

  /**
   From any stored state whose client records do not clash, whatever its tunnel and host records say,
   every quiet run of changes and restarts leaves each entry filed under its own key and every id
   below the counter and unique. By StartIsGoodIff no weaker condition on the records would do.
   */
  lemma RegistryInvariant(next: nat, f: Files, actions: seq<Action>)
    requires next > 0 && Housed(f.clients) && NoLaterClash(next, f.clients)
    requires QuietRun(Started(Install(next, f)), actions)
    ensures Inv(Run(Started(Install(next, f)), actions))
  {
    hide Inv, Run, Install, NoLaterClash, QuietRun, Housed;
    StartIsGoodIff(next, f);
    QuietRunKeeps(Started(Install(next, f)), actions);
  }

  // ---------------------------------------------------------------- a rename during an upload

  const EMPTY := State(map[], 1, map[])
  const CONFIG := Client(0, "a", "a", true, true, "", [], [], [], [])
  const UPLOAD := Action.PrepareUpload(0, CONFIG, "a", true)

  /** Upload "a" and, between the two locks of its next upload, rename it to "b". */
  function Race(): seq<Action> { Uploads() + [Edit(1, "a", "b", Form(true, ""), false), Publish(0)] }

  function Uploads(): seq<Action> { [] + [UPLOAD] + [Publish(0)] + [UPLOAD] }

  lemma RunSnoc(s: State, actions: seq<Action>, a: Action)
    ensures Run(s, actions + [a]) == Step(Run(s, actions), a)
  {
    hide Step;
    assert (actions + [a])[..|actions|] == actions;
  }

  const ENTRY := CONFIG.(id := 1)

  lemma FirstUpload()
    ensures DoPrepareUpload(EMPTY, 0, CONFIG, "a", true) == State(map[], 2, map[0 := ENTRY])
  {
    assert Tagged([], "a", 1) == ([], 1) && Expanded([]) == [];
  }

  lemma FirstPublish()
    ensures DoPublish(State(map[], 2, map[0 := ENTRY]), 0) == State(map["a" := ENTRY], 2, map[])
  {
  }

  lemma SecondUpload()
    ensures DoPrepareUpload(State(map["a" := ENTRY], 2, map[]), 0, CONFIG, "a", true)
         == State(map["a" := ENTRY], 2, map[0 := ENTRY])
  {
    assert Tagged([], "a", 2) == ([], 2) && Stored([]) == [] && Expanded([]) == [];
    hide Tagged, Stored, Expanded;
    var empty: seq<Child> := [];
    assert empty + empty == empty;
  }

  lemma UploadedTwice()
    ensures Run(EMPTY, Uploads()) == State(map["a" := ENTRY], 2, map[0 := ENTRY])
  {
    hide Run, DoPrepareUpload, DoPublish;
    RunNothing(EMPTY);
    RunSnoc(EMPTY, [], UPLOAD);
    RunSnoc(EMPTY, [] + [UPLOAD], Publish(0));
    RunSnoc(EMPTY, [] + [UPLOAD] + [Publish(0)], UPLOAD);
    FirstUpload();
    FirstPublish();
    SecondUpload();
  }

  lemma RunNothing(s: State)
    ensures Run(s, []) == s
  {
  }

  /** From an empty registry, the race ends with two clients of the same id. */
  lemma RenameDuringUploadDuplicates()
    ensures !DistinctIds(Run(EMPTY, Race()).clients)
  {
    hide Run, Uploads;
    var c := ENTRY;
    var edit := Edit(1, "a", "b", Form(true, ""), false);
    assert Race() == (Uploads() + [edit]) + [Publish(0)];
    RunSnoc(EMPTY, Uploads(), edit);
    RunSnoc(EMPTY, Uploads() + [edit], Publish(0));
    UploadedTwice();
    var s := State(map["a" := c], 2, map[0 := c]);
    var m := Run(EMPTY, Race()).clients;
    assert DoEdit(s, 1, "a", "b", Form(true, ""), false).clients == map["b" := c.(vkey := "b", verifyKey := "b")];
    assert "a" in m && "b" in m && m["a"].id == m["b"].id;
  }
}
