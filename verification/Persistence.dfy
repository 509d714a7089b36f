/**
 Saving the client map to flat record lists, writing those as text, and loading, regrouping and
 installing them again. JSON is an opaque codec of records; everything else a record holds besides
 the fields the code looks at is its `body`.
 */
module Persistence {
  import opened Wrappers
  import opened Text
  import opened Sublists
  import Ports

  /** A tunnel or a host. */
  datatype Child = Child(id: nat, clientVkey: string, noStore: bool, spec: Spec)

  datatype Spec = TunnelSpec(tunnel: Ports.Tunnel) | HostSpec(body: string)

  datatype Client = Client(
    id: nat, vkey: string, verifyKey: string, noStore: bool, configConnAllow: bool, body: string,
    tunnels: seq<Child>, hosts: seq<Child>, healths: seq<string>, localServers: seq<string>)

  type Clients = map<string, Client>

  datatype Files = Files(clients: seq<Client>, tunnels: seq<Child>, hosts: seq<Child>)

  // ---------------------------------------------------------------- saving

  function Stored(cs: seq<Child>): seq<Child> {
    if cs == [] then []
    else Stored(cs[..|cs| - 1]) + if cs[|cs| - 1].noStore then [] else [cs[|cs| - 1]]
  }

  predicate Kept(c: Client) { !c.noStore || Stored(c.tunnels) != [] || Stored(c.hosts) != [] }

  function Record(c: Client): Client {
    c.(hosts := [], tunnels := [], healths := [], localServers := [], noStore := false)
  }

  /** The three record lists after visiting `keys` in order. */
  function SaveIn(m: Clients, keys: seq<string>): Files
    requires forall k | k in keys :: k in m
  {
    if keys == [] then Files([], [], [])
    else
      var f, c := SaveIn(m, keys[..|keys| - 1]), m[keys[|keys| - 1]];
      if !Kept(c) then f
      else Files(f.clients + [Record(c)], f.tunnels + Stored(c.tunnels), f.hosts + Stored(c.hosts))
  }

  predicate Enumerates(keys: seq<string>, m: Clients) {
    && (forall k | k in keys :: k in m) && (forall k | k in m :: k in keys)
    && (forall i, j | 0 <= i < j < |keys| :: keys[i] != keys[j])
  }

  /** save_all; the map is visited in some order, and nothing below depends on which. */
  method SaveAll(m: Clients) returns (f: Files, keys: seq<string>)
    ensures Enumerates(keys, m) && f == SaveIn(m, keys)
  {
    keys, f := [], Files([], [], []);
    var rest := m.Keys;
    while rest != {}
      invariant rest <= m.Keys && (forall k | k in keys :: k in m && k !in rest)
      invariant forall k | k in m :: k in rest || k in keys
      invariant forall i, j | 0 <= i < j < |keys| :: keys[i] != keys[j]
      invariant f == SaveIn(m, keys)
    {
      var key :| key in rest;
      rest := rest - {key};
      assert (keys + [key])[..|keys|] == keys;
      keys := keys + [key];
      var c := m[key];
      if Kept(c) {
        f := Files(f.clients + [Record(c)], f.tunnels + Stored(c.tunnels), f.hosts + Stored(c.hosts));
      }
    }
  }

  // ---------------------------------------------------------------- installing

  /** The map being rebuilt and the shared id counter. */
  datatype Loaded = Loaded(clients: Clients, next: nat)

  /** A stored id is observed; a zero id is replaced by a drawn one, which is then observed too. */
  function IdFor(next: nat, id: nat): nat { if id == 0 then next else id }
  function NextAfter(next: nat, id: nat): nat { if IdFor(next, id) >= next then IdFor(next, id) + 1 else next }

  function KeyOf(c: Client): string { if c.vkey == "" then c.verifyKey else c.vkey }

  function AddClient(l: Loaded, c: Client): Loaded {
    var vkey := KeyOf(c);
    if vkey == "" then l
    else Loaded(l.clients[vkey := c.(id := IdFor(l.next, c.id), vkey := vkey, verifyKey := vkey, noStore := false)],
                NextAfter(l.next, c.id))
  }

  function Adopted(l: Loaded, t: Child): Child { t.(id := IdFor(l.next, t.id), noStore := false) }

  function AddTunnel(l: Loaded, t: Child): Loaded {
    if t.clientVkey == "" then l
    else if t.clientVkey !in l.clients then l.(next := NextAfter(l.next, t.id))
    else
      var c := l.clients[t.clientVkey];
      Loaded(l.clients[t.clientVkey := c.(tunnels := c.tunnels + [Adopted(l, t)])], NextAfter(l.next, t.id))
  }

  function AddHost(l: Loaded, h: Child): Loaded {
    if h.clientVkey == "" then l
    else if h.clientVkey !in l.clients then l.(next := NextAfter(l.next, h.id))
    else
      var c := l.clients[h.clientVkey];
      Loaded(l.clients[h.clientVkey := c.(hosts := c.hosts + [Adopted(l, h)])], NextAfter(l.next, h.id))
  }

  function AddClients(l: Loaded, cs: seq<Client>): Loaded {
    if cs == [] then l else AddClient(AddClients(l, cs[..|cs| - 1]), cs[|cs| - 1])
  }

  function AddTunnels(l: Loaded, ts: seq<Child>): Loaded {
    if ts == [] then l else AddTunnel(AddTunnels(l, ts[..|ts| - 1]), ts[|ts| - 1])
  }

  function AddHosts(l: Loaded, hs: seq<Child>): Loaded {
    if hs == [] then l else AddHost(AddHosts(l, hs[..|hs| - 1]), hs[|hs| - 1])
  }

  function Install(next: nat, f: Files): Loaded {
    AddHosts(AddTunnels(AddClients(Loaded(map[], next), f.clients), f.tunnels), f.hosts)
  }

  /** install_persistent_state on an empty registry. */
  method InstallAll(next: nat, f: Files) returns (l: Loaded)
    ensures l == Install(next, f)
  {
    l := Loaded(map[], next);
    for i := 0 to |f.clients|
      invariant l == AddClients(Loaded(map[], next), f.clients[..i])
    {
      assert f.clients[..i + 1][..i] == f.clients[..i];
      l := AddClient(l, f.clients[i]);
    }
    assert f.clients[..|f.clients|] == f.clients;
    ghost var l1 := l;
    for i := 0 to |f.tunnels|
      invariant l == AddTunnels(l1, f.tunnels[..i])
    {
      assert f.tunnels[..i + 1][..i] == f.tunnels[..i];
      l := AddTunnel(l, f.tunnels[i]);
    }
    assert f.tunnels[..|f.tunnels|] == f.tunnels;
    ghost var l2 := l;
    for i := 0 to |f.hosts|
      invariant l == AddHosts(l2, f.hosts[..i])
    {
      assert f.hosts[..i + 1][..i] == f.hosts[..i];
      l := AddHost(l, f.hosts[i]);
    }
    assert f.hosts[..|f.hosts|] == f.hosts;
  }

  // ---------------------------------------------------------------- what survives

  /** A map as the server keeps it: keyed by vkey, children tagged with it, ids assigned. */
  predicate Consistent(m: Clients) {
    forall k | k in m :: k != "" && m[k].vkey == k && m[k].verifyKey == k && m[k].id != 0
                         && ChildrenOf(k, m[k].tunnels) && ChildrenOf(k, m[k].hosts)
  }

  predicate ChildrenOf(k: string, cs: seq<Child>) { forall c | c in cs :: c.clientVkey == k && c.id != 0 }

  /** The persistable part of a client. */
  function Project(c: Client): Client {
    c.(noStore := false, tunnels := Stored(c.tunnels), hosts := Stored(c.hosts), healths := [], localServers := [])
  }

  function Projection(m: Clients): Clients { map k | k in m && Kept(m[k]) :: Project(m[k]) }

  lemma {:induction false} StoredAreChildren(k: string, cs: seq<Child>)
    requires ChildrenOf(k, cs)
    ensures forall c | c in Stored(cs) :: c.clientVkey == k && c.id != 0 && !c.noStore
    ensures Stored(Stored(cs)) == Stored(cs)
  {
    if cs != [] {
      var init, last := cs[..|cs| - 1], cs[|cs| - 1];
      StoredAreChildren(k, init);
      assert Stored(cs) == Stored(init) + if last.noStore then [] else [last];
      if !last.noStore {
        assert (Stored(init) + [last])[..|Stored(init)|] == Stored(init);
      } else {
        assert Stored(init) + [] == Stored(init);
      }
    }
  }

  /** The projection is again consistent and is its own projection. */
  lemma ProjectionIsIdempotent(m: Clients)
    requires Consistent(m)
    ensures Consistent(Projection(m)) && Projection(Projection(m)) == Projection(m)
  {
    var p := Projection(m);
    forall k | k in p
      ensures Kept(p[k]) && Project(p[k]) == p[k] && ChildrenOf(k, p[k].tunnels) && ChildrenOf(k, p[k].hosts)
    {
      StoredAreChildren(k, m[k].tunnels);
      StoredAreChildren(k, m[k].hosts);
    }
  }

  /** The records of `ts` that belong to `k`, in order. */
  function Of(ts: seq<Child>, k: string): seq<Child> {
    if ts == [] then []
    else Of(ts[..|ts| - 1], k) + if ts[|ts| - 1].clientVkey == k then [ts[|ts| - 1]] else []
  }

  lemma {:induction false} OfAppend(a: seq<Child>, b: seq<Child>, k: string)
    ensures Of(a + b, k) == Of(a, k) + Of(b, k)
    decreases |b|
  {
    if b == [] {
      assert a + b == a;
    } else {
      var init, last := b[..|b| - 1], b[|b| - 1];
      OfAppend(a, init, k);
      assert (a + b)[..|a + b| - 1] == a + init;
      var tail := if last.clientVkey == k then [last] else [];
      calc {
        Of(a + b, k);
        (Of(a, k) + Of(init, k)) + tail;
        Of(a, k) + (Of(init, k) + tail);
        Of(a, k) + Of(b, k);
      }
    }
  }

  /** Exactly the records that name `k`, in their order. */
  lemma {:induction false} OfArePicked(ts: seq<Child>, k: string) returns (at: seq<nat>)
    ensures Picked(ts, Of(ts, k), at)
    ensures forall i | 0 <= i < |ts| :: i in at <==> ts[i].clientVkey == k
  {
    hide Picked;
    if ts == [] {
      at := [];
      PickNothing<Child>();
    } else {
      var init, last := ts[..|ts| - 1], ts[|ts| - 1];
      at := OfArePicked(init, k);
      InRange(init, Of(init, k), at);
      assert ts == init + [last];
      PickSkip(init, Of(init, k), at, last);
      PickTake(init, Of(init, k), at, last);
      assert Of(init, k) + [] == Of(init, k);
      if last.clientVkey == k {
        at := at + [|init|];
      }
    }
  }

  lemma {:induction false} OfOwn(ts: seq<Child>, owner: string, k: string)
    requires forall t | t in ts :: t.clientVkey == owner
    ensures Of(ts, k) == if k == owner then ts else []
  {
    if ts != [] {
      assert ts == ts[..|ts| - 1] + [ts[|ts| - 1]];
      OfOwn(ts[..|ts| - 1], owner, k);
    }
  }

  /** Whether a client is kept or not, its stored children are what saving it adds. */
  lemma SaveSnoc(m: Clients, init: seq<string>, last: string)
    requires last in m && forall x | x in init :: x in m
    ensures var f, g := SaveIn(m, init), SaveIn(m, init + [last]);
            g.tunnels == f.tunnels + Stored(m[last].tunnels) && g.hosts == f.hosts + Stored(m[last].hosts)
  {
    hide Stored;
    var f := SaveIn(m, init);
    assert (init + [last])[..|init|] == init;
    assert f.tunnels + [] == f.tunnels && f.hosts + [] == f.hosts;
  }

  /** Flattening loses no child and no order: each client's stored children can be read back. */
  lemma {:induction false} SavedChildren(m: Clients, keys: seq<string>, k: string)
    requires Consistent(m) && (forall x | x in keys :: x in m)
    requires forall i, j | 0 <= i < j < |keys| :: keys[i] != keys[j]
    ensures var f := SaveIn(m, keys);
            && Of(f.tunnels, k) == (if k in keys then Stored(m[k].tunnels) else [])
            && Of(f.hosts, k) == (if k in keys then Stored(m[k].hosts) else [])
  {
    hide Stored, ChildrenOf, Of, SaveIn, Kept;
    if keys == [] {
      NothingSaved(m, k);
    } else {
      var init, last := keys[..|keys| - 1], keys[|keys| - 1];
      var f, c := SaveIn(m, init), m[last];
      SavedChildren(m, init, k);
      assert keys == init + [last];
      assert k in keys <==> k in init || k == last;
      assert last !in init;
      SaveSnoc(m, init, last);
      StoredAreChildren(last, c.tunnels);
      StoredAreChildren(last, c.hosts);
      OfMore(f.tunnels, Stored(c.tunnels), last, k);
      OfMore(f.hosts, Stored(c.hosts), last, k);
      AppendNothing(Of(f.tunnels, k), Stored(c.tunnels));
      AppendNothing(Of(f.hosts, k), Stored(c.hosts));
    }
  }

  lemma NothingSaved(m: Clients, k: string)
    ensures Of(SaveIn(m, []).tunnels, k) == [] && Of(SaveIn(m, []).hosts, k) == []
  {
  }

  lemma AppendNothing(a: seq<Child>, b: seq<Child>)
    ensures a + [] == a && [] + b == b
  {
  }

  lemma OfMore(ts: seq<Child>, own: seq<Child>, owner: string, k: string)
    requires forall t | t in own :: t.clientVkey == owner
    ensures Of(ts + own, k) == Of(ts, k) + if k == owner then own else []
  {
    OfAppend(ts, own, k);
    OfOwn(own, owner, k);
  }

  predicate Ready(ts: seq<Child>) { forall t | t in ts :: t.clientVkey != "" && t.id != 0 && !t.noStore }

  lemma {:induction false} SavedAreReady(m: Clients, keys: seq<string>)
    requires Consistent(m) && (forall x | x in keys :: x in m)
    ensures Ready(SaveIn(m, keys).tunnels) && Ready(SaveIn(m, keys).hosts)
  {
    hide Stored;
    if keys != [] {
      SavedAreReady(m, keys[..|keys| - 1]);
      var last := keys[|keys| - 1];
      StoredAreChildren(last, m[last].tunnels);
      StoredAreChildren(last, m[last].hosts);
    }
  }

  function Comeback(m: Clients, keys: seq<string>): Clients
    requires forall x | x in keys :: x in m
  {
    map k | k in keys && Kept(m[k]) :: Record(m[k])
  }

  lemma RecordComesBack(l: Loaded, k: string, c: Client)
    requires k != "" && c.vkey == k && c.verifyKey == k && c.id != 0
    ensures AddClient(l, Record(c)).clients == l.clients[k := Record(c)]
  {
  }

  lemma AddClientsSnoc(l: Loaded, cs: seq<Client>, c: Client)
    ensures AddClients(l, cs + [c]) == AddClient(AddClients(l, cs), c)
  {
    hide AddClient;
    assert (cs + [c])[..|cs|] == cs;
  }

  lemma ComebackSnoc(m: Clients, init: seq<string>, last: string)
    requires last in m && forall x | x in init :: x in m
    ensures Comeback(m, init + [last])
         == if Kept(m[last]) then Comeback(m, init)[last := Record(m[last])] else Comeback(m, init)
  {
    hide Kept, Record;
  }

  lemma {:induction false} ClientsComeBack(m: Clients, keys: seq<string>, next: nat)
    requires Consistent(m) && (forall x | x in keys :: x in m)
    ensures AddClients(Loaded(map[], next), SaveIn(m, keys).clients).clients == Comeback(m, keys)
  {
    hide Stored, Kept, ChildrenOf, AddClient, Record, Comeback, AddClients;
    var l := Loaded(map[], next);
    if keys == [] {
      NothingComesBack(m, l);
    } else {
      var init, last := keys[..|keys| - 1], keys[|keys| - 1];
      assert keys == init + [last];
      ClientsComeBack(m, init, next);
      ComebackSnoc(m, init, last);
      AddClientsSnoc(l, SaveIn(m, init).clients, Record(m[last]));
      RecordComesBack(AddClients(l, SaveIn(m, init).clients), last, m[last]);
    }
  }

  lemma NothingComesBack(m: Clients, l: Loaded)
    requires l.clients == map[]
    ensures AddClients(l, []).clients == Comeback(m, [])
  {
  }

  /** `r` is `m` with the records of `ts` appended to their owners' tunnels. */
  predicate TunnelsAppended(m: Clients, ts: seq<Child>, r: Clients) {
    r.Keys == m.Keys && forall k | k in m :: r[k] == m[k].(tunnels := m[k].tunnels + Of(ts, k))
  }

  predicate HostsAppended(m: Clients, hs: seq<Child>, r: Clients) {
    r.Keys == m.Keys && forall k | k in m :: r[k] == m[k].(hosts := m[k].hosts + Of(hs, k))
  }

  lemma OfSnoc(ts: seq<Child>, t: Child, k: string)
    ensures Of(ts + [t], k) == Of(ts, k) + if t.clientVkey == k then [t] else []
  {
    assert (ts + [t])[..|ts|] == ts;
  }

  lemma OneTunnel(l: Loaded, t: Child)
    requires t.clientVkey != "" && t.id != 0 && !t.noStore
    ensures AddTunnel(l, t).clients
         == if t.clientVkey !in l.clients then l.clients
            else var c := l.clients[t.clientVkey]; l.clients[t.clientVkey := c.(tunnels := c.tunnels + [t])]
  {
  }

  lemma OneHost(l: Loaded, h: Child)
    requires h.clientVkey != "" && h.id != 0 && !h.noStore
    ensures AddHost(l, h).clients
         == if h.clientVkey !in l.clients then l.clients
            else var c := l.clients[h.clientVkey]; l.clients[h.clientVkey := c.(hosts := c.hosts + [h])]
  {
  }

  lemma TunnelAppended(m: Clients, ts: seq<Child>, l: Loaded, t: Child)
    requires TunnelsAppended(m, ts, l.clients) && t.clientVkey != "" && t.id != 0 && !t.noStore
    ensures TunnelsAppended(m, ts + [t], AddTunnel(l, t).clients)
  {
    hide Of, AddTunnel;
    OneTunnel(l, t);
    var r := AddTunnel(l, t).clients;
    forall k | k in m ensures r[k] == m[k].(tunnels := m[k].tunnels + Of(ts + [t], k)) {
      OfSnoc(ts, t, k);
      AppendTwice(m[k].tunnels, Of(ts, k), [t]);
    }
  }

  lemma AppendTwice(a: seq<Child>, b: seq<Child>, c: seq<Child>)
    ensures a + (b + c) == (a + b) + c && a + (b + []) == a + b
  {
  }

  lemma HostAppended(m: Clients, hs: seq<Child>, l: Loaded, h: Child)
    requires HostsAppended(m, hs, l.clients) && h.clientVkey != "" && h.id != 0 && !h.noStore
    ensures HostsAppended(m, hs + [h], AddHost(l, h).clients)
  {
    hide Of, AddHost;
    OneHost(l, h);
    var r := AddHost(l, h).clients;
    forall k | k in m ensures r[k] == m[k].(hosts := m[k].hosts + Of(hs + [h], k)) {
      OfSnoc(hs, h, k);
      AppendTwice(m[k].hosts, Of(hs, k), [h]);
    }
  }

  lemma {:induction false} TunnelsRegroup(l: Loaded, ts: seq<Child>)
    requires Ready(ts)
    ensures TunnelsAppended(l.clients, ts, AddTunnels(l, ts).clients)
  {
    if ts == [] {
      assert forall k | k in l.clients :: l.clients[k].tunnels + [] == l.clients[k].tunnels;
    } else {
      hide TunnelsAppended, AddTunnel;
      var init, t := ts[..|ts| - 1], ts[|ts| - 1];
      assert t in ts && ts == init + [t];
      TunnelsRegroup(l, init);
      TunnelAppended(l.clients, init, AddTunnels(l, init), t);
    }
  }

  lemma {:induction false} HostsRegroup(l: Loaded, hs: seq<Child>)
    requires Ready(hs)
    ensures HostsAppended(l.clients, hs, AddHosts(l, hs).clients)
  {
    if hs == [] {
      assert forall k | k in l.clients :: l.clients[k].hosts + [] == l.clients[k].hosts;
    } else {
      hide HostsAppended, AddHost;
      var init, h := hs[..|hs| - 1], hs[|hs| - 1];
      assert h in hs && hs == init + [h];
      HostsRegroup(l, init);
      HostAppended(l.clients, init, AddHosts(l, init), h);
    }
  }

  /**
   Round trip. Saving a consistent client map, in whatever order it is visited, and installing the
   records yields exactly its persistable projection: the clients that are stored or have stored
   children, with their stored tunnels and hosts in the original order and nothing else.
   */
  lemma SaveInstallRoundTrip(m: Clients, keys: seq<string>, next: nat)
    requires Consistent(m) && Enumerates(keys, m)
    ensures Install(next, SaveIn(m, keys)).clients == Projection(m)
  {
    hide AddClients, AddTunnels, AddHosts, SaveIn, Stored, Of, Ready, Consistent, Project, Record, Comeback;
    var f := SaveIn(m, keys);
    var l1 := AddClients(Loaded(map[], next), f.clients);
    var l2 := AddTunnels(l1, f.tunnels);
    var r := Install(next, f).clients;
    ClientsComeBack(m, keys, next);
    SavedAreReady(m, keys);
    TunnelsRegroup(l1, f.tunnels);
    HostsRegroup(l2, f.hosts);
    assert r.Keys == Comeback(m, keys).Keys;
    ComebackIs(m, keys);
    forall k | k in r ensures r[k] == Project(m[k]) {
      SavedChildren(m, keys, k);
      Regrouped(m[k], l1.clients[k], r[k], Of(f.tunnels, k), Of(f.hosts, k));
    }
  }

  lemma ComebackIs(m: Clients, keys: seq<string>)
    requires Enumerates(keys, m)
    ensures forall k :: k in Comeback(m, keys) <==> k in m && Kept(m[k])
    ensures forall k | k in Comeback(m, keys) :: k in keys && Comeback(m, keys)[k] == Record(m[k])
  {
    hide Kept, Record;
  }

  lemma Regrouped(c: Client, bare: Client, r: Client, ts: seq<Child>, hs: seq<Child>)
    requires bare == Record(c) && ts == Stored(c.tunnels) && hs == Stored(c.hosts)
    requires r == bare.(tunnels := bare.tunnels + ts).(hosts := bare.hosts + hs)
    ensures r == Project(c)
  {
    hide Stored;
    assert [] + ts == ts && [] + hs == hs;
  }

  // ---------------------------------------------------------------- what the projection keeps

  /** Stored itself, or the owner of something stored. */
  predicate Persistable(c: Client) { !c.noStore || exists x | x in c.tunnels + c.hosts :: !x.noStore }

  /** The stored children are exactly those not marked otherwise, in their order. */
  lemma {:induction false} StoredArePicked(cs: seq<Child>) returns (at: seq<nat>)
    ensures Picked(cs, Stored(cs), at)
    ensures forall i | 0 <= i < |cs| :: i in at <==> !cs[i].noStore
  {
    hide Picked;
    if cs == [] {
      at := [];
      PickNothing<Child>();
    } else {
      var init, last := cs[..|cs| - 1], cs[|cs| - 1];
      at := StoredArePicked(init);
      InRange(init, Stored(init), at);
      assert cs == init + [last];
      PickSkip(init, Stored(init), at, last);
      PickTake(init, Stored(init), at, last);
      assert Stored(init) + [] == Stored(init);
      if !last.noStore {
        at := at + [|init|];
      }
    }
  }

  lemma InRange(cs: seq<Child>, ds: seq<Child>, at: seq<nat>)
    requires Picked(cs, ds, at)
    ensures forall i | i in at :: i < |cs|
  {
  }

  lemma {:induction false} SomeStored(cs: seq<Child>)
    ensures Stored(cs) != [] <==> exists x | x in cs :: !x.noStore
  {
    if cs != [] {
      SomeStored(cs[..|cs| - 1]);
      assert cs == cs[..|cs| - 1] + [cs[|cs| - 1]];
    }
  }

  lemma KeptIsPersistable(c: Client)
    ensures Kept(c) <==> Persistable(c)
  {
    hide Stored;
    SomeStored(c.tunnels);
    SomeStored(c.hosts);
    assert forall x :: x in c.tunnels + c.hosts <==> x in c.tunnels || x in c.hosts;
  }

  /** A client survives if and only if it is stored itself or owns a stored tunnel or host. */
  lemma ProjectionKeys(m: Clients, k: string)
    ensures k in Projection(m) <==> k in m && (!m[k].noStore || exists x | x in m[k].tunnels + m[k].hosts :: !x.noStore)
  {
    hide Kept;
    if k in m {
      KeptIsPersistable(m[k]);
    }
  }

  /**
   What survives of it: everything a record holds, its stored tunnels and hosts in their order, and
   neither health rules nor local servers; it comes back as stored.
   */
  lemma ProjectedClient(m: Clients, k: string) returns (ts: seq<nat>, hs: seq<nat>)
    requires k in Projection(m)
    ensures var c, p := m[k], Projection(m)[k];
            && p == Client(c.id, c.vkey, c.verifyKey, false, c.configConnAllow, c.body, p.tunnels, p.hosts, [], [])
            && Picked(c.tunnels, p.tunnels, ts) && (forall i | 0 <= i < |c.tunnels| :: i in ts <==> !c.tunnels[i].noStore)
            && Picked(c.hosts, p.hosts, hs) && (forall i | 0 <= i < |c.hosts| :: i in hs <==> !c.hosts[i].noStore)
  {
    hide Stored, Kept, Picked;
    ts := StoredArePicked(m[k].tunnels);
    hs := StoredArePicked(m[k].hosts);
  }

  /** The client records that are written are those of the persistable clients visited, and no others. */
  lemma {:induction false} SavedKeys(m: Clients, keys: seq<string>, k: string)
    requires Consistent(m) && (forall x | x in keys :: x in m)
    ensures (exists c | c in SaveIn(m, keys).clients :: c.vkey == k)
       <==> k in keys && (!m[k].noStore || exists x | x in m[k].tunnels + m[k].hosts :: !x.noStore)
  {
    hide Stored, Kept, ChildrenOf;
    if keys != [] {
      var init, last := keys[..|keys| - 1], keys[|keys| - 1];
      var f, g := SaveIn(m, init), SaveIn(m, keys);
      SavedKeys(m, init, k);
      KeptIsPersistable(m[last]);
      assert k in keys <==> k in init || k == last by { assert keys == init + [last]; }
      assert g.clients == f.clients + if Kept(m[last]) then [Record(m[last])] else [];
      if Kept(m[last]) && k == last {
        assert Record(m[last]) in g.clients && Record(m[last]).vkey == k;
      }
    }
  }

  // ---------------------------------------------------------------- record text

  const SEPARATOR: string := "*#*"
  const BREAK: string := "\n*#*"

  /** A serialised object: one line that starts with `{` and ends with `}`. */
  predicate IsRecord(s: string) { s != "" && s[0] == '{' && s[|s| - 1] == '}' && '\n' !in s }

  function Written(records: seq<string>): string {
    if records == [] then "" else records[0] + BREAK + Written(records[1..])
  }

  /** The record texts in a file; None stands for a JSON array, which is decoded as a whole. */
  function Parts(parts: seq<string>): seq<string> {
    if parts == [] then []
    else
      var part := Trim(parts[0]);
      (if part == "" || part == SEPARATOR then [] else [part]) + Parts(parts[1..])
  }

  function ReadTexts(raw: string): Option<seq<string>> {
    var trimmed := Trim(raw);
    if trimmed == "" then Some([])
    else if trimmed[0] == '[' then None
    else Some(Parts(Split(raw, BREAK)))
  }

  /** Each record is followed by a line break and the separator. */
  lemma WrittenText(a: string, b: string)
    ensures Written([a, b]) == a + "\n*#*" + b + "\n*#*"
  {
    assert [a, b][1..] == [b] && [b][1..] == [];
    assert Written([b]) == b + BREAK + "";
    assert b + BREAK + "" == b + BREAK;
  }

  /** A missing or blank file holds no records. */
  lemma BlankHoldsNothing(raw: string)
    requires Trim(raw) == ""
    ensures ReadTexts(raw) == Some([])
  {
  }

  /** A record cannot contain the start of a separator. */
  lemma NoBreakInside(r: string, rest: string, i: nat)
    requires IsRecord(r) && i < |r|
    ensures !At(r + BREAK + rest, BREAK, i)
  {
    var s := r + BREAK + rest;
    assert s[i..][0] == r[i];
    assert BREAK[0] == '\n';
  }

  lemma RecordIsTrimmed(r: string)
    requires IsRecord(r)
    ensures Trim(r) == r && r != SEPARATOR
  {
    TrimOf(r);
  }

  lemma PartsCons(part: string, parts: seq<string>)
    requires IsRecord(part)
    ensures Parts([part] + parts) == [part] + Parts(parts)
  {
    hide Trim;
    RecordIsTrimmed(part);
    assert ([part] + parts)[1..] == parts;
  }

  lemma {:induction false} PartsComeBack(records: seq<string>)
    requires forall r | r in records :: IsRecord(r)
    ensures Parts(Split(Written(records), BREAK)) == records
  {
    hide Trim, Split, IsRecord;
    if records == [] {
      EmptyText();
    } else {
      var r, rest := records[0], Written(records[1..]);
      forall i | 0 <= i < |r| ensures !At(r + BREAK + rest, BREAK, i) { NoBreakInside(r, rest, i); }
      hide At, Parts;
      SplitPart(r, BREAK, rest);
      PartsComeBack(records[1..]);
      PartsCons(r, Split(rest, BREAK));
      assert records == [r] + records[1..];
    }
  }

  lemma EmptyText()
    ensures Parts(Split("", BREAK)) == []
  {
    assert !Contains("", BREAK);
    SplitNone("", BREAK);
    assert [""][1..] == [];
  }

  /** Whole files of records round-trip, whatever the records contain besides newlines. */
  lemma RecordsRoundTrip(records: seq<string>)
    requires forall r | r in records :: IsRecord(r)
    ensures ReadTexts(Written(records)) == Some(records)
  {
    hide Split, Parts;
    PartsComeBack(records);
    if records != [] {
      var raw := Written(records);
      assert IsRecord(records[0]);
      assert raw[0] == records[0][0] == '{';
      TrimStartOf(raw);
      KeepsFirst(raw);
    }
  }

  lemma KeepsFirst(s: string)
    requires s != "" && !IsSpace(s[0])
    ensures TrimEnd(s) != "" && TrimEnd(s)[0] == s[0]
  {
    if IsSpace(s[|s| - 1]) {
      KeepsFirst(s[..|s| - 1]);
    }
  }

  // ---------------------------------------------------------------- files on disk

  /** A serialiser and its parser. */
  datatype Json<!T> = Json(encode: T -> string, decode: string -> Option<T>)

  ghost predicate Faithful<T(!new)>(j: Json<T>) {
    forall x: T :: IsRecord(j.encode(x)) && j.decode(j.encode(x)) == Some(x)
  }

  function Encoded<T>(j: Json<T>, xs: seq<T>): seq<string> {
    if xs == [] then [] else [j.encode(xs[0])] + Encoded(j, xs[1..])
  }

  function Decoded<T>(j: Json<T>, texts: seq<string>): Option<seq<T>> {
    if texts == [] then Some([])
    else match (j.decode(texts[0]), Decoded(j, texts[1..]))
      case (Some(x), Some(rest)) => Some([x] + rest)
      case _ => None
  }

  lemma {:induction false} DecodesEncoded<T(!new)>(j: Json<T>, xs: seq<T>)
    requires Faithful(j)
    ensures Decoded(j, Encoded(j, xs)) == Some(xs)
    ensures forall r | r in Encoded(j, xs) :: IsRecord(r)
  {
    if xs != [] {
      hide IsRecord;
      DecodesEncoded(j, xs[1..]);
      var texts := Encoded(j, xs);
      assert texts[1..] == Encoded(j, xs[1..]);
      assert IsRecord(j.encode(xs[0])) && j.decode(j.encode(xs[0])) == Some(xs[0]);
      assert xs == [xs[0]] + xs[1..];
    }
  }

  lemma {:induction false} EncodedAppend<T>(j: Json<T>, xs: seq<T>, x: T)
    ensures Written(Encoded(j, xs + [x])) == Written(Encoded(j, xs)) + (j.encode(x) + BREAK)
  {
    if xs == [] {
      assert Encoded(j, [x])[1..] == [];
      assert [] + [x] == [x];
    } else {
      EncodedAppend(j, xs[1..], x);
      assert (xs + [x])[1..] == xs[1..] + [x];
      assert Encoded(j, xs)[1..] == Encoded(j, xs[1..]);
      assert Encoded(j, xs + [x])[1..] == Encoded(j, xs[1..] + [x]);
    }
  }

  /** write_records: every record is followed by a newline and the separator. */
  method WriteRecords<T>(j: Json<T>, xs: seq<T>) returns (raw: string)
    ensures raw == Written(Encoded(j, xs))
  {
    raw := "";
    for i := 0 to |xs|
      invariant raw == Written(Encoded(j, xs[..i]))
    {
      EncodedAppend(j, xs[..i], xs[i]);
      assert xs[..i] + [xs[i]] == xs[..i + 1];
      raw := raw + (j.encode(xs[i]) + BREAK);
    }
    assert xs[..|xs|] == xs;
  }

  function LoadRecords<T>(j: Json<T>, raw: string): Option<seq<T>> {
    match ReadTexts(raw)
    case None => None
    case Some(texts) => Decoded(j, texts)
  }

  datatype Disk = Disk(clients: string, tunnels: string, hosts: string)

  function Save(jc: Json<Client>, jk: Json<Child>, f: Files): Disk {
    Disk(Written(Encoded(jc, f.clients)), Written(Encoded(jk, f.tunnels)), Written(Encoded(jk, f.hosts)))
  }

  function Load(jc: Json<Client>, jk: Json<Child>, d: Disk): Option<Files> {
    match (LoadRecords(jc, d.clients), LoadRecords(jk, d.tunnels), LoadRecords(jk, d.hosts))
    case (Some(cs), Some(ts), Some(hs)) => Some(Files(cs, ts, hs))
    case _ => None
  }

  /** Restarting the server: what was saved as text, read back and installed, is the projection. */
  lemma RestartYieldsProjection(jc: Json<Client>, jk: Json<Child>, m: Clients, keys: seq<string>, next: nat)
    requires Faithful(jc) && Faithful(jk) && Consistent(m) && Enumerates(keys, m)
    ensures var loaded := Load(jc, jk, Save(jc, jk, SaveIn(m, keys)));
            loaded.Some? && Install(next, loaded.value).clients == Projection(m)
  {
    hide SaveIn, Install, Encoded, Decoded, ReadTexts, Written, Projection, Consistent, IsRecord;
    var f := SaveIn(m, keys);
    DecodesEncoded(jc, f.clients);
    DecodesEncoded(jk, f.tunnels);
    DecodesEncoded(jk, f.hosts);
    RecordsRoundTrip(Encoded(jc, f.clients));
    RecordsRoundTrip(Encoded(jk, f.tunnels));
    RecordsRoundTrip(Encoded(jk, f.hosts));
    SaveInstallRoundTrip(m, keys, next);
  }
}
