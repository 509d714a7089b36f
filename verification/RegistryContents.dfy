/** What each change of the client map leaves behind, at the entry it addresses and everywhere else. */
module RegistryContents {
  import opened Wrappers
  import opened Text
  import opened Persistence
  import opened StartUp
  import opened Registry
  import Ports

  // ---------------------------------------------------------------- uploads

  /** `ds` are the uploaded children `cs`: the same in the same order, now owned by `vkey` and numbered where they had no id. */
  predicate Uploaded(cs: seq<Child>, ds: seq<Child>, vkey: string) {
    && |ds| == |cs|
    && forall i | 0 <= i < |cs| ::
         && ds[i] == cs[i].(id := ds[i].id, clientVkey := vkey)
         && ds[i].id != 0 && (cs[i].id != 0 ==> ds[i].id == cs[i].id)
  }

  lemma UploadedSnoc(cs: seq<Child>, ds: seq<Child>, vkey: string, c: Child, id: nat)
    requires Uploaded(cs, ds, vkey) && id != 0 && (c.id != 0 ==> id == c.id)
    ensures Uploaded(cs + [c], ds + [c.(id := id, clientVkey := vkey)], vkey)
  {
  }

  lemma {:induction false} TaggedIsUploaded(cs: seq<Child>, vkey: string, next: nat)
    requires next > 0
    ensures Uploaded(cs, Tagged(cs, vkey, next).0, vkey)
  {
    if cs != [] {
      var init, c := cs[..|cs| - 1], cs[|cs| - 1];
      var (ds, n) := Tagged(init, vkey, next);
      TaggedIsUploaded(init, vkey, next);
      UploadedSnoc(init, ds, vkey, c, IdFor(n, c.id));
      assert cs == init + [c];
    }
  }

  lemma {:induction false} ExpandedConcat(a: seq<Child>, b: seq<Child>)
    ensures Expanded(a + b) == Expanded(a) + Expanded(b)
    decreases |b|
  {
    hide AsTunnels, Ports.Expansion;
    if b == [] {
      assert a + b == a;
    } else {
      var init, c := b[..|b| - 1], b[|b| - 1];
      ExpandedConcat(a, init);
      assert (a + b)[..|a + b| - 1] == a + init;
      var block := if c.spec.TunnelSpec? then AsTunnels(c, Ports.Expansion(c.spec.tunnel)) else [c];
      calc {
        Expanded(a + b);
        (Expanded(a) + Expanded(init)) + block;
        Expanded(a) + (Expanded(init) + block);
        Expanded(a) + Expanded(b);
      }
    }
  }

  lemma {:induction false} AsTunnelsAt(c: Child, ts: seq<Ports.Tunnel>, i: nat)
    requires i < |ts|
    ensures |AsTunnels(c, ts)| == |ts| && AsTunnels(c, ts)[i] == c.(spec := TunnelSpec(ts[i]))
  {
    if i > 0 {
      AsTunnelsAt(c, ts[1..], i - 1);
    } else if |ts| > 1 {
      AsTunnelsAt(c, ts[1..], 0);
    }
  }

  /** One tunnel record becomes one record per copy of the tunnel, in order, with the same id, owner and mark. */
  lemma ExpandedOne(c: Child, i: nat)
    requires c.spec.TunnelSpec? && i < |Ports.Expansion(c.spec.tunnel)|
    ensures |Expanded([c])| == |Ports.Expansion(c.spec.tunnel)|
    ensures Expanded([c])[i] == c.(spec := TunnelSpec(Ports.Expansion(c.spec.tunnel)[i]))
  {
    hide AsTunnels, Ports.Expansion;
    assert [c][..0] == [] && Expanded([]) == [];
    AsTunnelsAt(c, Ports.Expansion(c.spec.tunnel), i);
    assert [] + AsTunnels(c, Ports.Expansion(c.spec.tunnel)) == AsTunnels(c, Ports.Expansion(c.spec.tunnel));
  }

  /**
   An accepted upload. Its hosts come first, in order, and behind them the stored hosts of the client
   it replaces; its tunnels are expanded first, and behind them the stored tunnels; there is nothing
   else. What the upload says about the client itself is taken over, apart from its id and mark.
   */
  lemma UploadContents(s: State, config: Client, helloVkey: string, valid: bool)
      returns (hosts: seq<Child>, tunnels: seq<Child>)
    requires s.next > 0 && Prepared(s, config, helloVkey, valid).0.Some?
    ensures var draft := Prepared(s, config, helloVkey, valid).0.value;
            var vkey := if config.vkey != "" then config.vkey else helloVkey;
            var known := vkey in s.clients;
            && Uploaded(config.hosts, hosts, vkey) && Uploaded(config.tunnels, tunnels, vkey)
            && draft.hosts == hosts + (if known then Stored(s.clients[vkey].hosts) else [])
            && draft.tunnels == Expanded(tunnels) + (if known then Expanded(Stored(s.clients[vkey].tunnels)) else [])
            && draft == config.(vkey := vkey, verifyKey := vkey, hosts := draft.hosts, tunnels := draft.tunnels,
                                id := draft.id, noStore := if known then s.clients[vkey].noStore else true)
  {
    hide Tagged, Stored, Expanded, Uploaded;
    var vkey := UploadVkey(config, helloVkey);
    var n1 := Tagged(config.hosts, vkey, s.next).1;
    hosts := Tagged(config.hosts, vkey, s.next).0;
    tunnels := Tagged(config.tunnels, vkey, n1).0;
    TaggedIsUploaded(config.hosts, vkey, s.next);
    TaggedIsUploaded(config.tunnels, vkey, n1);
    assert hosts + [] == hosts && Expanded(tunnels) + [] == Expanded(tunnels);
    if vkey in s.clients {
      ExpandedConcat(tunnels, Stored(s.clients[vkey].tunnels));
    }
  }

  /** An upload is accepted unless it has no key, fails a check, or comes over a config connection the client forbids. */
  lemma UploadAcceptedIff(s: State, config: Client, helloVkey: string, valid: bool)
    ensures Prepared(s, config, helloVkey, valid).0.Some?
       <==> var vkey := if config.vkey != "" then config.vkey else helloVkey;
            vkey != "" && valid && !(vkey in s.clients && config.noStore && !s.clients[vkey].configConnAllow)
  {
    hide Tagged, Stored, Expanded;
  }

  // ---------------------------------------------------------------- one entry changes, the others stay

  predicate OnlyAt(m: Clients, m': Clients, key: string) {
    && (forall q | q in m && q != key :: q in m' && m'[q] == m[q])
    && (forall q | q in m' && q != key :: q in m)
  }

  /** Publishing a draft files it under its own key, in place of whatever stood there, and uses it up. */
  lemma PublishFiles(s: State, u: Ticket)
    requires u in s.drafts
    ensures var s', k := Step(s, Publish(u)), s.drafts[u].vkey;
            && OnlyAt(s.clients, s'.clients, k) && k in s'.clients && s'.clients[k] == s.drafts[u]
            && s'.drafts == s.drafts - {u} && s'.next == s.next
  {
  }

  lemma DeleteRemoves(s: State, id: nat, key: string)
    ensures var s' := Step(s, Delete(id, key));
            if key in s.clients && s.clients[key].id == id then key !in s'.clients && OnlyAt(s.clients, s'.clients, key)
            else s' == s
  {
  }

  /** An edit that keeps the key sets the form and leaves id, mark, children and all other entries alone. */
  lemma EditInPlace(s: State, id: nat, key: string, vkey: string, form: Form)
    requires EntriesOk(s) && key in s.clients && s.clients[key].id == id && (vkey == "" || vkey == key)
    ensures var m, m' := s.clients, Step(s, Edit(id, key, vkey, form, false)).clients;
            && OnlyAt(m, m', key) && key in m'
            && m'[key] == m[key].(body := form.body, configConnAllow := form.configConnAllow)
  {
    hide Retagged, ChildrenOf;
    var c := s.clients[key];
    assert EntryOk(key, c, s.next);
    SameOwner(c.tunnels, key);
    SameOwner(c.hosts, key);
  }

  lemma {:induction false} SameOwner(cs: seq<Child>, key: string)
    requires ChildrenOf(key, cs)
    ensures Retagged(cs, key) == cs
  {
    if cs != [] {
      assert cs[|cs| - 1] in cs && cs == cs[..|cs| - 1] + [cs[|cs| - 1]];
      SameOwner(cs[..|cs| - 1], key);
    }
  }

  /** An edit is refused, and changes nothing, exactly when its entry is missing, its new key is taken or its form is. */
  lemma EditRefused(s: State, id: nat, key: string, vkey: string, form: Form, refused: bool)
    requires !Found(s.clients, id, key) || refused || (vkey != "" && vkey != key && vkey in s.clients)
    ensures Step(s, Edit(id, key, vkey, form, refused)) == s
  {
  }

  /** A new tunnel goes to the end of the addressed client's list, with the drawn id and the client as owner. */
  lemma AddTunnelAppends(s: State, id: nat, key: string, tunnel: Child, fits: bool)
    ensures var s', m := Step(s, Action.AddTunnel(id, key, tunnel, fits)), s.clients;
            && s'.next == s.next + 1 && s'.drafts == s.drafts
            && if key in m && m[key].id == id && fits then
                 && OnlyAt(m, s'.clients, key) && key in s'.clients
                 && s'.clients[key] == m[key].(tunnels := m[key].tunnels + [Child(s.next, key, false, tunnel.spec)])
               else s'.clients == m
  {
  }

  lemma AddHostAppends(s: State, id: nat, key: string, host: Child, fits: bool)
    ensures var s', m := Step(s, Action.AddHost(id, key, host, fits)), s.clients;
            && s'.next == s.next + 1 && s'.drafts == s.drafts
            && if key in m && m[key].id == id && fits then
                 && OnlyAt(m, s'.clients, key) && key in s'.clients
                 && s'.clients[key] == m[key].(hosts := m[key].hosts + [Child(s.next, key, false, host.spec)])
               else s'.clients == m
  {
  }

  /** `ds` is `cs` with the i-th element changed to carry the mark and the text of `c`, but not its id or owner. */
  predicate EditedAt(cs: seq<Child>, ds: seq<Child>, i: nat, c: Child) {
    && i < |cs| && |ds| == |cs| && ds[i] == Child(cs[i].id, cs[i].clientVkey, c.noStore, c.spec)
    && forall j | 0 <= j < |cs| && j != i :: ds[j] == cs[j]
  }

  /** `ds` is `cs` without its i-th element. */
  predicate RemovedAt(cs: seq<Child>, ds: seq<Child>, i: nat) {
    && i < |cs| && |ds| == |cs| - 1
    && forall j | 0 <= j < |ds| :: ds[j] == if j < i then cs[j] else cs[j + 1]
  }

  lemma EditTunnelEdits(s: State, key: string, i: nat, tunnel: Child)
    ensures var s', m := Step(s, EditTunnel(key, i, tunnel)), s.clients;
            if key in m && i < |m[key].tunnels| then
              && OnlyAt(m, s'.clients, key) && key in s'.clients
              && s'.clients[key] == m[key].(tunnels := s'.clients[key].tunnels)
              && EditedAt(m[key].tunnels, s'.clients[key].tunnels, i, tunnel)
            else s' == s
  {
  }

  lemma EditHostEdits(s: State, key: string, i: nat, host: Child)
    ensures var s', m := Step(s, EditHost(key, i, host)), s.clients;
            if key in m && i < |m[key].hosts| then
              && OnlyAt(m, s'.clients, key) && key in s'.clients
              && s'.clients[key] == m[key].(hosts := s'.clients[key].hosts)
              && EditedAt(m[key].hosts, s'.clients[key].hosts, i, host)
            else s' == s
  {
  }

  lemma DropTunnelDrops(s: State, key: string, i: nat)
    ensures var s', m := Step(s, DropTunnel(key, i)), s.clients;
            if key in m && i < |m[key].tunnels| then
              && OnlyAt(m, s'.clients, key) && key in s'.clients
              && s'.clients[key] == m[key].(tunnels := s'.clients[key].tunnels)
              && RemovedAt(m[key].tunnels, s'.clients[key].tunnels, i)
            else s' == s
  {
  }

  lemma DropHostDrops(s: State, key: string, i: nat)
    ensures var s', m := Step(s, DropHost(key, i)), s.clients;
            if key in m && i < |m[key].hosts| then
              && OnlyAt(m, s'.clients, key) && key in s'.clients
              && s'.clients[key] == m[key].(hosts := s'.clients[key].hosts)
              && RemovedAt(m[key].hosts, s'.clients[key].hosts, i)
            else s' == s
  {
  }

  /** An added client is drafted empty under a key nobody has, with an id of its own, unless the key or the form is taken. */
  lemma AddDrafts(s: State, u: Ticket, vkey: string, form: Form, refused: bool)
    requires u !in s.drafts
    ensures var s', key := Step(s, PrepareAdd(u, vkey, form, refused)), if vkey == "" then "web" + Decimal(s.next) else vkey;
            && s'.clients == s.clients
            && if key in s.clients || refused then s'.drafts == s.drafts
               else
                 && s'.drafts.Keys == s.drafts.Keys + {u} && (forall w | w in s.drafts :: s'.drafts[w] == s.drafts[w])
                 && s.next <= s'.drafts[u].id < s'.next
                 && s'.drafts[u] == Client(s'.drafts[u].id, key, key, false, form.configConnAllow, form.body, [], [], [], [])
  {
    hide Decimal;
  }

  /** A registered user is drafted empty under a free key, without the right to config connections. */
  lemma RegisterDrafts(s: State, u: Ticket, suffix: nat, body: string)
    requires u !in s.drafts && suffix >= s.next && "user" + Decimal(suffix) !in s.clients
    ensures var s', key := Step(s, PrepareRegister(u, suffix, body)), "user" + Decimal(suffix);
            && s'.clients == s.clients && s'.drafts == s.drafts[u := Client(s.next, key, key, false, false, body, [], [], [], [])]
            && s'.next > suffix
  {
    hide Decimal;
  }

  /** A restart leaves the persistable projection of the map, whatever order it was saved in, and no drafts. */
  lemma RestartProjects(s: State, keys: seq<string>)
    requires EntriesOk(s) && Enumerates(keys, s.clients)
    ensures var s' := Step(s, Restart(keys)); s'.clients == Projection(s.clients) && s'.drafts == map[]
  {
    hide EntriesOk, SaveIn, Install, Projection, Consistent;
    FiledIsConsistent(s);
    SaveInstallRoundTrip(s.clients, keys, 1);
  }
}
