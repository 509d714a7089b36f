/** Which client ids an installed set of records ends up with, and exactly when they are distinct. */
module StartUp {
  import opened Text
  import opened Persistence

  predicate DistinctIds(m: Clients) { forall k, q | k in m && q in m && k != q :: m[k].id != m[q].id }

  /** The id counter after the client records have been installed. */
  function CounterAfter(next: nat, cs: seq<Client>): nat {
    if cs == [] then next
    else
      var counter := CounterAfter(next, cs[..|cs| - 1]);
      if KeyOf(cs[|cs| - 1]) == "" then counter else NextAfter(counter, cs[|cs| - 1].id)
  }

  /** The id the i-th record is given: its own, or the counter at that point. */
  function Given(next: nat, cs: seq<Client>, i: nat): nat
    requires i < |cs|
  {
    IdFor(CounterAfter(next, cs[..i]), cs[i].id)
  }

  /** The i-th record is the last one with its key. */
  predicate Survives(cs: seq<Client>, i: nat)
    requires i < |cs|
  {
    KeyOf(cs[i]) != "" && forall j | i < j < |cs| :: KeyOf(cs[j]) != KeyOf(cs[i])
  }

  /** No surviving record carries a non-zero id that an earlier surviving one was given. */
  predicate NoLaterClash(next: nat, cs: seq<Client>) {
    forall i, j | 0 <= i < j < |cs| && Survives(cs, i) && Survives(cs, j) && cs[j].id != 0 :: cs[j].id != Given(next, cs, i)
  }

  // ---------------------------------------------------------------- ids are given in one pass

  function Installed(next: nat, cs: seq<Client>): Loaded { AddClients(Loaded(map[], next), cs) }

  lemma {:induction false} CounterIsInstalled(next: nat, cs: seq<Client>)
    ensures Installed(next, cs).next == CounterAfter(next, cs)
  {
    if cs != [] {
      CounterIsInstalled(next, cs[..|cs| - 1]);
    }
  }

  lemma {:induction false} CounterGrows(next: nat, cs: seq<Client>, i: nat)
    requires i <= |cs|
    ensures CounterAfter(next, cs[..i]) <= CounterAfter(next, cs)
    decreases |cs|
  {
    if i == |cs| {
      assert cs[..i] == cs;
    } else {
      assert cs[..|cs| - 1][..i] == cs[..i];
      CounterGrows(next, cs[..|cs| - 1], i);
    }
  }

  /** A number drawn later is greater than every id given before. */
  lemma GivenIsObserved(next: nat, cs: seq<Client>, i: nat, j: nat)
    requires i < j <= |cs| && KeyOf(cs[i]) != ""
    ensures Given(next, cs, i) < CounterAfter(next, cs[..j])
  {
    assert cs[..i + 1][..i] == cs[..i];
    assert Given(next, cs, i) < CounterAfter(next, cs[..i + 1]);
    assert cs[..j][..i + 1] == cs[..i + 1];
    CounterGrows(next, cs[..j], i + 1);
  }

  lemma GivenInInit(next: nat, cs: seq<Client>, i: nat)
    requires i < |cs| - 1
    ensures Given(next, cs[..|cs| - 1], i) == Given(next, cs, i)
  {
    assert cs[..|cs| - 1][..i] == cs[..i];
  }

  // ---------------------------------------------------------------- what the map holds

  /** The last record with a key, or -1. */
  function LastOf(cs: seq<Client>, key: string): (i: int)
    ensures -1 <= i < |cs|
    ensures i >= 0 ==> KeyOf(cs[i]) == key
    ensures forall j | i < j < |cs| :: KeyOf(cs[j]) != key
  {
    if cs == [] then -1
    else if KeyOf(cs[|cs| - 1]) == key then |cs| - 1
    else LastOf(cs[..|cs| - 1], key)
  }

  lemma {:induction false} InstalledIds(next: nat, cs: seq<Client>, key: string)
    ensures var m := Installed(next, cs).clients;
            && (key in m <==> key != "" && LastOf(cs, key) >= 0)
            && (key in m ==> m[key].id == Given(next, cs, LastOf(cs, key)))
  {
    if cs != [] {
      var init, last := cs[..|cs| - 1], cs[|cs| - 1];
      InstalledIds(next, init, key);
      CounterIsInstalled(next, init);
      if KeyOf(last) != key && LastOf(init, key) >= 0 {
        GivenInInit(next, cs, LastOf(init, key));
      }
    }
  }

  /** Under each key stands its last record, with the id it was given and the key as its vkey and verify_key. */
  lemma {:induction false} InstalledRecords(next: nat, cs: seq<Client>, key: string)
    ensures var m, i := Installed(next, cs).clients, LastOf(cs, key);
            && (key in m <==> key != "" && i >= 0)
            && (key in m ==>
                  m[key] == cs[i].(id := Given(next, cs, i), vkey := key, verifyKey := key, noStore := false))
  {
    if cs != [] {
      var init, last := cs[..|cs| - 1], cs[|cs| - 1];
      InstalledRecords(next, init, key);
      CounterIsInstalled(next, init);
      if KeyOf(last) != key && LastOf(init, key) >= 0 {
        GivenInInit(next, cs, LastOf(init, key));
      }
    }
  }

  /** `ds` are the records `cs` as installed: stored, and with an id where they had none. */
  predicate Adoptions(cs: seq<Child>, ds: seq<Child>) {
    && |ds| == |cs|
    && forall i | 0 <= i < |cs| ::
         ds[i] == cs[i].(id := ds[i].id, noStore := false) && (cs[i].id != 0 ==> ds[i].id == cs[i].id)
  }

  lemma AdoptionsSnoc(cs: seq<Child>, ds: seq<Child>, c: Child, l: Loaded)
    requires Adoptions(cs, ds)
    ensures Adoptions(cs + [c], ds + [Adopted(l, c)])
  {
  }

  /** The tunnels each client ends up with are the records that name it, in file order, whatever else the file holds. */
  lemma {:induction false} TunnelsGroup(l: Loaded, ts: seq<Child>, k: string) returns (ds: seq<Child>)
    requires k in l.clients && k != ""
    ensures Adoptions(Of(ts, k), ds) && k in AddTunnels(l, ts).clients
    ensures AddTunnels(l, ts).clients[k] == l.clients[k].(tunnels := l.clients[k].tunnels + ds)
  {
    hide Adoptions;
    if ts == [] {
      ds := [];
      NoAdoptions();
      assert l.clients[k].tunnels + [] == l.clients[k].tunnels;
    } else {
      var init, t := ts[..|ts| - 1], ts[|ts| - 1];
      ds := TunnelsGroup(l, init, k);
      if t.clientVkey == k {
        var l1 := AddTunnels(l, init);
        AdoptionsSnoc(Of(init, k), ds, t, l1);
        assert (l.clients[k].tunnels + ds) + [Adopted(l1, t)] == l.clients[k].tunnels + (ds + [Adopted(l1, t)]);
        ds := ds + [Adopted(l1, t)];
      } else {
        assert Of(init, k) + [] == Of(init, k);
      }
    }
  }

  lemma {:induction false} HostsGroup(l: Loaded, hs: seq<Child>, k: string) returns (ds: seq<Child>)
    requires k in l.clients && k != ""
    ensures Adoptions(Of(hs, k), ds) && k in AddHosts(l, hs).clients
    ensures AddHosts(l, hs).clients[k] == l.clients[k].(hosts := l.clients[k].hosts + ds)
  {
    hide Adoptions;
    if hs == [] {
      ds := [];
      NoAdoptions();
      assert l.clients[k].hosts + [] == l.clients[k].hosts;
    } else {
      var init, h := hs[..|hs| - 1], hs[|hs| - 1];
      ds := HostsGroup(l, init, k);
      if h.clientVkey == k {
        var l1 := AddHosts(l, init);
        AdoptionsSnoc(Of(init, k), ds, h, l1);
        assert (l.clients[k].hosts + ds) + [Adopted(l1, h)] == l.clients[k].hosts + (ds + [Adopted(l1, h)]);
        ds := ds + [Adopted(l1, h)];
      } else {
        assert Of(init, k) + [] == Of(init, k);
      }
    }
  }

  lemma NoAdoptions()
    ensures Adoptions([], [])
  {
  }

  lemma SurvivorIsLast(cs: seq<Client>, i: nat)
    requires i < |cs| && Survives(cs, i)
    ensures LastOf(cs, KeyOf(cs[i])) == i
  {
    hide LastOf;
  }

  lemma LastSurvives(cs: seq<Client>, key: string)
    requires key != "" && LastOf(cs, key) >= 0
    ensures Survives(cs, LastOf(cs, key))
  {
    hide LastOf;
  }

  /** Two surviving records are given the same id only if the later one carries it. */
  lemma ClashIsCarried(next: nat, cs: seq<Client>, i: nat, j: nat)
    requires i < j < |cs| && KeyOf(cs[i]) != ""
    ensures Given(next, cs, i) == Given(next, cs, j) <==> cs[j].id != 0 && cs[j].id == Given(next, cs, i)
  {
    hide CounterAfter;
    GivenIsObserved(next, cs, i, j);
  }

  lemma NoClashIsDistinct(next: nat, cs: seq<Client>)
    requires NoLaterClash(next, cs)
    ensures DistinctIds(Installed(next, cs).clients)
  {
    hide AddClients, LastOf, Given, Survives, KeyOf;
    var m := Installed(next, cs).clients;
    forall k, q | k in m && q in m && k != q ensures m[k].id != m[q].id {
      InstalledIds(next, cs, k);
      InstalledIds(next, cs, q);
      LastSurvives(cs, k);
      LastSurvives(cs, q);
      var i, j := LastOf(cs, k), LastOf(cs, q);
      SurvivorHasKey(cs, i);
      SurvivorHasKey(cs, j);
      if i < j {
        ClashIsCarried(next, cs, i, j);
      } else {
        ClashIsCarried(next, cs, j, i);
      }
    }
  }

  lemma SurvivorHasKey(cs: seq<Client>, i: nat)
    requires i < |cs| && Survives(cs, i)
    ensures KeyOf(cs[i]) != ""
  {
  }

  lemma DistinctIsNoClash(next: nat, cs: seq<Client>)
    requires DistinctIds(Installed(next, cs).clients)
    ensures NoLaterClash(next, cs)
  {
    hide AddClients, LastOf, Given, KeyOf;
    forall i, j | 0 <= i < j < |cs| && Survives(cs, i) && Survives(cs, j) && cs[j].id != 0
      ensures cs[j].id != Given(next, cs, i)
    {
      SurvivorIsLast(cs, i);
      SurvivorIsLast(cs, j);
      InstalledIds(next, cs, KeyOf(cs[i]));
      InstalledIds(next, cs, KeyOf(cs[j]));
      ClashIsCarried(next, cs, i, j);
    }
  }

  /** A client record is filed under its vkey or, if that is empty, its verify_key; with neither it is dropped. */
  lemma RecordIsFiled(l: Loaded, c: Client)
    ensures var m := AddClient(l, c).clients;
            && (c.vkey != "" ==> c.vkey in m && m.Keys == l.clients.Keys + {c.vkey} && m[c.vkey].body == c.body)
            && (c.vkey == "" && c.verifyKey != "" ==>
                  c.verifyKey in m && m.Keys == l.clients.Keys + {c.verifyKey} && m[c.verifyKey].body == c.body)
            && (c.vkey == "" && c.verifyKey == "" ==> AddClient(l, c) == l)
  {
  }

  // ---------------------------------------------------------------- every stored id is observed

  lemma {:induction false} ClientIdsObserved(next: nat, cs: seq<Client>, c: Client)
    requires c in cs && (c.vkey != "" || c.verifyKey != "")
    ensures c.id < Installed(next, cs).next
  {
    var init, last := cs[..|cs| - 1], cs[|cs| - 1];
    assert cs == init + [last];
    if c in init {
      ClientIdsObserved(next, init, c);
    }
  }

  lemma {:induction false} TunnelIdsObserved(l: Loaded, ts: seq<Child>)
    ensures AddTunnels(l, ts).next >= l.next
    ensures forall t | t in ts && t.clientVkey != "" :: t.id < AddTunnels(l, ts).next
  {
    if ts != [] {
      var init, last := ts[..|ts| - 1], ts[|ts| - 1];
      assert ts == init + [last];
      TunnelIdsObserved(l, init);
    }
  }

  lemma {:induction false} HostIdsObserved(l: Loaded, hs: seq<Child>)
    ensures AddHosts(l, hs).next >= l.next
    ensures forall h | h in hs && h.clientVkey != "" :: h.id < AddHosts(l, hs).next
  {
    if hs != [] {
      var init, last := hs[..|hs| - 1], hs[|hs| - 1];
      assert hs == init + [last];
      HostIdsObserved(l, init);
    }
  }

  /**
   After start-up the counter is above every stored id, also those of records that were overwritten or
   whose client is unknown, so no id drawn later repeats one from the files.
   */
  lemma InstallObservesAll(next: nat, f: Files)
    ensures var n := Install(next, f).next;
            && (forall c | c in f.clients && (c.vkey != "" || c.verifyKey != "") :: c.id < n)
            && (forall t | t in f.tunnels && t.clientVkey != "" :: t.id < n)
            && (forall h | h in f.hosts && h.clientVkey != "" :: h.id < n)
  {
    hide AddClients, AddTunnels, AddHosts;
    var l1 := Installed(next, f.clients);
    var l2 := AddTunnels(l1, f.tunnels);
    TunnelIdsObserved(l1, f.tunnels);
    HostIdsObserved(l2, f.hosts);
    forall c | c in f.clients && (c.vkey != "" || c.verifyKey != "") ensures c.id < l1.next {
      ClientIdsObserved(next, f.clients, c);
    }
  }

  // ---------------------------------------------------------------- children change no id

  predicate SameIds(m: Clients, m': Clients) { m'.Keys == m.Keys && forall k | k in m :: m'[k].id == m[k].id }

  lemma {:induction false} TunnelsChangeNoId(l: Loaded, ts: seq<Child>)
    ensures SameIds(l.clients, AddTunnels(l, ts).clients)
  {
    if ts != [] {
      TunnelsChangeNoId(l, ts[..|ts| - 1]);
    }
  }

  lemma {:induction false} HostsChangeNoId(l: Loaded, hs: seq<Child>)
    ensures SameIds(l.clients, AddHosts(l, hs).clients)
  {
    if hs != [] {
      HostsChangeNoId(l, hs[..|hs| - 1]);
    }
  }

  lemma SameIdsSameDistinct(m: Clients, m': Clients)
    requires SameIds(m, m')
    ensures DistinctIds(m) <==> DistinctIds(m')
  {
    if DistinctIds(m) {
      forall k, q | k in m' && q in m' && k != q ensures m'[k].id != m'[q].id {
        assert m[k].id != m[q].id;
      }
    }
    if DistinctIds(m') {
      forall k, q | k in m && q in m && k != q ensures m[k].id != m[q].id {
        assert m'[k].id != m'[q].id;
      }
    }
  }

  /**
   Whatever the files hold, the installed clients have distinct ids if and only if no surviving record
   carries a non-zero id that an earlier surviving one, numbered or not, was given.
   */
  lemma DistinctIffNoLaterClash(next: nat, f: Files)
    ensures DistinctIds(Install(next, f).clients) <==> NoLaterClash(next, f.clients)
  {
    hide AddClients, AddTunnels, AddHosts, SameIds, DistinctIds, NoLaterClash;
    var l1 := Installed(next, f.clients);
    var l2 := AddTunnels(l1, f.tunnels);
    TunnelsChangeNoId(l1, f.tunnels);
    HostsChangeNoId(l2, f.hosts);
    SameIdsSameDistinct(l1.clients, l2.clients);
    SameIdsSameDistinct(l2.clients, AddHosts(l2, f.hosts).clients);
    if NoLaterClash(next, f.clients) {
      NoClashIsDistinct(next, f.clients);
    } else if DistinctIds(l1.clients) {
      DistinctIsNoClash(next, f.clients);
    }
  }

  // ---------------------------------------------------------------- particular files

  /** Non-zero ids that are pairwise different, as a server that saved a good map writes them. */
  predicate GoodRecords(cs: seq<Client>) {
    && (forall c | c in cs :: c.id != 0)
    && (forall i, j | 0 <= i < j < |cs| :: cs[i].id != cs[j].id)
  }

  lemma GoodRecordsDoNotClash(next: nat, cs: seq<Client>)
    requires GoodRecords(cs)
    ensures NoLaterClash(next, cs)
  {
    hide CounterAfter, KeyOf;
    forall i, j | 0 <= i < j < |cs| && Survives(cs, i) && Survives(cs, j) && cs[j].id != 0
      ensures cs[j].id != Given(next, cs, i)
    {
      assert cs[i] in cs;
    }
  }

  /** What a server saves from a map with distinct ids is a good start, in whatever order it was saved. */
  lemma {:induction false} SavedRecordsAreGood(m: Clients, keys: seq<string>)
    requires Consistent(m) && DistinctIds(m) && (forall k | k in keys :: k in m)
    requires forall i, j | 0 <= i < j < |keys| :: keys[i] != keys[j]
    ensures GoodRecords(SaveIn(m, keys).clients)
    ensures forall c | c in SaveIn(m, keys).clients :: c.vkey in keys && m[c.vkey].id == c.id
  {
    hide Kept, Stored, ChildrenOf;
    if keys != [] {
      var init, last := keys[..|keys| - 1], keys[|keys| - 1];
      assert keys == init + [last];
      SavedRecordsAreGood(m, init);
      var cs := SaveIn(m, init).clients;
      forall i | 0 <= i < |cs| ensures cs[i].id != m[last].id {
        assert cs[i] in cs;
      }
    }
  }

  function Named(id: nat, key: string): Client { Client(id, key, key, false, true, "", [], [], [], []) }

  /** A record without an id is numbered before later ones are seen, so it can collide with the next. */
  lemma ZeroIdClashes()
    ensures !DistinctIds(Install(1, Files([Named(0, "a"), Named(1, "b")], [], [])).clients)
  {
    var cs := [Named(0, "a"), Named(1, "b")];
    assert cs[..0] == [];
    assert Survives(cs, 0) && Survives(cs, 1) && Given(1, cs, 0) == 1;
    DistinctIffNoLaterClash(1, Files(cs, [], []));
  }

  /** The other way round it does not. */
  lemma ZeroIdLastDoesNotClash()
    ensures DistinctIds(Install(1, Files([Named(1, "b"), Named(0, "a")], [], [])).clients)
  {
    DistinctIffNoLaterClash(1, Files([Named(1, "b"), Named(0, "a")], [], []));
  }

  /** Two records with different keys and the same non-zero id always do. */
  lemma EqualIdsClash(next: nat, id: nat, a: string, b: string)
    requires id != 0 && a != "" && b != "" && a != b
    ensures !DistinctIds(Install(next, Files([Named(id, a), Named(id, b)], [], [])).clients)
  {
    var cs := [Named(id, a), Named(id, b)];
    assert Survives(cs, 0) && Survives(cs, 1) && Given(next, cs, 0) == id;
    DistinctIffNoLaterClash(next, Files(cs, [], []));
  }
}
