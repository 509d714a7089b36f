/** The cache of HTTP responses: a map and a queue of its keys, refined against the insertion history. */
module ResponseCache {

  type Value = string

  /** The two fields of a cache, as a value. */
  datatype Cache = Cache(entries: map<string, Value>, order: seq<string>)

  const EMPTY := Cache(map[], [])

  function Without(s: seq<string>, key: string): seq<string> {
    if s == [] then []
    else Without(s[..|s| - 1], key) + if s[|s| - 1] == key then [] else [s[|s| - 1]]
  }

  /** Dropping the oldest keys while there are more than `limit`. */
  function Evict(c: Cache, limit: nat): Cache
    decreases |c.order|
  {
    if |c.order| <= limit then c else Evict(Cache(c.entries - {c.order[0]}, c.order[1..]), limit)
  }

  /** Limit 0 means no limit. */
  function Inserted(c: Cache, key: string, value: Value, limit: nat): Cache {
    if key in c.entries then Cache(c.entries[key := value], Without(c.order, key) + [key])
    else
      var grown := Cache(c.entries[key := value], c.order + [key]);
      if limit == 0 then grown else Evict(grown, limit)
  }

  class HttpResponseCache {
    var entries: map<string, Value>
    var order: seq<string>

    function State(): Cache
      reads this
    {
      Cache(entries, order)
    }

    constructor ()
      ensures State() == EMPTY
    {
      entries, order := map[], [];
    }

    method Lookup(key: string) returns (value: Value, found: bool)
      ensures found <==> key in entries
      ensures found ==> value == entries[key]
    {
      found := key in entries;
      value := if found then entries[key] else "";
    }

    method Insert(key: string, value: Value, limit: nat)
      modifies this
      ensures State() == Inserted(old(State()), key, value, limit)
    {
      if key in entries {
        entries := entries[key := value];
        order := Retain(order, key);
        order := order + [key];
        return;
      }
      entries := entries[key := value];
      order := order + [key];
      if limit == 0 {
        return;
      }
      ghost var grown := State();
      while |order| > limit
        invariant Evict(State(), limit) == Evict(grown, limit)
        decreases |order|
      {
        var oldest := order[0];
        order := order[1..];
        entries := entries - {oldest};
      }
    }
  }

  method Retain(s: seq<string>, key: string) returns (r: seq<string>)
    ensures r == Without(s, key)
  {
    r := [];
    for i := 0 to |s|
      invariant r == Without(s[..i], key)
    {
      assert s[..i + 1][..i] == s[..i];
      if s[i] != key {
        r := r + [s[i]];
      }
    }
    assert s[..|s|] == s;
  }

  // ---------------------------------------------------------------- the reference: insertion histories

  datatype Insertion = Insertion(key: string, value: Value)

  /** Position of the last insertion of a key. */
  function LastAt(h: seq<Insertion>, key: string): (i: int)
    ensures -1 <= i < |h|
    ensures i >= 0 ==> h[i].key == key
    ensures forall j | i < j < |h| :: h[j].key != key
  {
    if h == [] then -1
    else if h[|h| - 1].key == key then |h| - 1
    else LastAt(h[..|h| - 1], key)
  }

  predicate Seen(h: seq<Insertion>, key: string) { LastAt(h, key) >= 0 }

  /** The distinct keys of a history, by latest insertion. */
  function Recent(h: seq<Insertion>): seq<string> {
    if h == [] then [] else Without(Recent(h[..|h| - 1]), h[|h| - 1].key) + [h[|h| - 1].key]
  }

  function After(h: seq<Insertion>, limit: nat): Cache {
    if h == [] then EMPTY
    else Inserted(After(h[..|h| - 1], limit), h[|h| - 1].key, h[|h| - 1].value, limit)
  }

  function Suffix(s: seq<string>, n: nat): seq<string> { if |s| <= n then s else s[|s| - n..] }

  predicate Distinct(s: seq<string>) { forall i, j | 0 <= i < j < |s| :: s[i] != s[j] }

  /** The most recent `limit` keys, each with its latest value. */
  ghost predicate Refines(c: Cache, h: seq<Insertion>, limit: nat) {
    && c.order == (if limit == 0 then Recent(h) else Suffix(Recent(h), limit))
    && Filled(c, h)
  }

  ghost predicate Filled(c: Cache, h: seq<Insertion>) {
    && (forall k :: k in c.entries <==> k in c.order)
    && (forall k | k in c.entries :: Seen(h, k) && c.entries[k] == h[LastAt(h, k)].value)
  }

  // ---------------------------------------------------------------- keys in order

  lemma {:induction false} WithoutMembers(s: seq<string>, key: string)
    ensures forall k :: k in Without(s, key) <==> k in s && k != key
    ensures key !in s ==> Without(s, key) == s
  {
    if s != [] {
      WithoutMembers(s[..|s| - 1], key);
      assert s == s[..|s| - 1] + [s[|s| - 1]];
    }
  }

  lemma {:induction false} WithoutAppend(a: seq<string>, b: seq<string>, key: string)
    ensures Without(a + b, key) == Without(a, key) + Without(b, key)
    decreases |b|
  {
    if b == [] {
      assert a + b == a;
    } else {
      var init, last := b[..|b| - 1], b[|b| - 1];
      WithoutAppend(a, init, key);
      assert (a + b)[..|a + b| - 1] == a + init;
      var tail := if last == key then [] else [last];
      calc {
        Without(a + b, key);
        (Without(a, key) + Without(init, key)) + tail;
        Without(a, key) + (Without(init, key) + tail);
        Without(a, key) + Without(b, key);
      }
    }
  }

  lemma {:induction false} WithoutLength(s: seq<string>, key: string)
    requires Distinct(s) && key in s
    ensures |Without(s, key)| == |s| - 1
  {
    var init, last := s[..|s| - 1], s[|s| - 1];
    assert s == init + [last];
    if last == key {
      WithoutMembers(init, key);
    } else {
      WithoutLength(init, key);
    }
  }

  /** Ordered by last insertion in `h`, which in particular makes the keys distinct. */
  predicate ByLast(s: seq<string>, h: seq<Insertion>) {
    forall i, j | 0 <= i < j < |s| :: LastAt(h, s[i]) < LastAt(h, s[j])
  }

  predicate AllBefore(s: seq<string>, key: string, h: seq<Insertion>) {
    forall k | k in s :: LastAt(h, k) < LastAt(h, key)
  }

  lemma OrderOfSnoc(s: seq<string>, key: string, h: seq<Insertion>)
    ensures ByLast(s + [key], h) <==> ByLast(s, h) && AllBefore(s, key, h)
  {
    hide LastAt;
    var t := s + [key];
    if ByLast(t, h) {
      forall i, j | 0 <= i < j < |s| ensures LastAt(h, s[i]) < LastAt(h, s[j]) { assert t[i] == s[i] && t[j] == s[j]; }
      forall k | k in s ensures LastAt(h, k) < LastAt(h, key) {
        var i :| 0 <= i < |s| && s[i] == k;
        assert t[i] == k && t[|s|] == key;
      }
    }
  }

  lemma {:induction false} WithoutKeepsOrder(s: seq<string>, key: string, h: seq<Insertion>)
    requires ByLast(s, h)
    ensures ByLast(Without(s, key), h)
  {
    hide ByLast, LastAt;
    if s != [] {
      var init, last := s[..|s| - 1], s[|s| - 1];
      assert s == init + [last];
      OrderOfSnoc(init, last, h);
      WithoutKeepsOrder(init, key, h);
      WithoutMembers(init, key);
      OrderOfSnoc(Without(init, key), last, h);
      assert Without(init, key) + [] == Without(init, key);
    } else {
      assert ByLast([], h) by { EmptyIsOrdered(h); }
    }
  }

  lemma EmptyIsOrdered(h: seq<Insertion>)
    ensures ByLast([], h)
  {
  }

  lemma OrderOfMore(s: seq<string>, h: seq<Insertion>, x: Insertion)
    requires ByLast(s, h) && x.key !in s
    ensures ByLast(s, h + [x])
  {
    hide LastAt;
    forall k | k in s ensures LastAt(h + [x], k) == LastAt(h, k) { LastOfMore(h, x, k); }
    forall i, j | 0 <= i < j < |s| ensures LastAt(h + [x], s[i]) < LastAt(h + [x], s[j]) {
      assert s[i] in s && s[j] in s;
    }
  }

  lemma LastOfMore(h: seq<Insertion>, x: Insertion, k: string)
    ensures LastAt(h + [x], k) == if k == x.key then |h| else LastAt(h, k)
  {
    assert (h + [x])[..|h|] == h;
  }

  lemma ByLastIsDistinct(s: seq<string>, h: seq<Insertion>)
    requires ByLast(s, h)
    ensures Distinct(s)
  {
    hide LastAt;
  }

  lemma NewestComesLast(w: seq<string>, h: seq<Insertion>, x: Insertion)
    requires x.key !in w
    ensures AllBefore(w, x.key, h + [x])
  {
    hide LastAt;
    LastOfMore(h, x, x.key);
    forall k | k in w ensures LastAt(h + [x], k) < |h| { LastOfMore(h, x, k); }
  }

  lemma {:induction false} RecentHas(h: seq<Insertion>, k: string)
    ensures k in Recent(h) <==> Seen(h, k)
  {
    hide Without;
    if h != [] {
      var init, x := h[..|h| - 1], h[|h| - 1];
      RecentHas(init, k);
      WithoutMembers(Recent(init), x.key);
    }
  }

  lemma {:induction false} RecentIsOrdered(h: seq<Insertion>)
    ensures ByLast(Recent(h), h)
  {
    hide LastAt, Without, ByLast, AllBefore;
    if h == [] {
      EmptyIsOrdered(h);
    } else {
      var init, x := h[..|h| - 1], h[|h| - 1];
      assert h == init + [x];
      var w := Without(Recent(init), x.key);
      RecentIsOrdered(init);
      WithoutMembers(Recent(init), x.key);
      WithoutKeepsOrder(Recent(init), x.key, init);
      OrderOfMore(w, init, x);
      NewestComesLast(w, init, x);
      OrderOfSnoc(w, x.key, h);
    }
  }

  /** Recent lists exactly the keys ever inserted, ordered by their last insertion. */
  lemma RecentIsByLastInsertion(h: seq<Insertion>)
    ensures forall k :: k in Recent(h) <==> Seen(h, k)
    ensures ByLast(Recent(h), h) && Distinct(Recent(h))
  {
    hide Recent, Seen, ByLast, Distinct;
    forall k ensures k in Recent(h) <==> Seen(h, k) { RecentHas(h, k); }
    RecentIsOrdered(h);
    ByLastIsDistinct(Recent(h), h);
  }

  // ---------------------------------------------------------------- one insertion

  lemma {:induction false} EvictIsSuffix(c: Cache, limit: nat)
    requires Distinct(c.order) && limit > 0 && (forall k :: k in c.entries <==> k in c.order)
    ensures var e := Evict(c, limit);
            && e.order == Suffix(c.order, limit) && (forall k :: k in e.entries <==> k in e.order)
            && (forall k | k in e.entries :: k in c.entries && e.entries[k] == c.entries[k])
    decreases |c.order|
  {
    if |c.order| > limit {
      assert c.order == [c.order[0]] + c.order[1..];
      EvictIsSuffix(Cache(c.entries - {c.order[0]}, c.order[1..]), limit);
    }
  }

  lemma SuffixAppend(pre: seq<string>, suf: seq<string>, n: nat)
    requires |suf| == n || (pre == [] && |suf| <= n)
    ensures Suffix(pre + suf, n) == suf
  {
  }

  lemma DistinctParts(pre: seq<string>, suf: seq<string>, key: string)
    requires Distinct(pre + suf) && key in suf
    ensures key !in pre && Distinct(suf)
  {
    var r := pre + suf;
    var j :| 0 <= j < |suf| && suf[j] == key;
    assert r[|pre| + j] == key;
    forall i | 0 <= i < |pre| ensures pre[i] != key { assert r[i] == pre[i]; }
    forall i, k | 0 <= i < k < |suf| ensures suf[i] != suf[k] { assert r[|pre| + i] == suf[i] && r[|pre| + k] == suf[k]; }
  }

  lemma SuffixSplits(r: seq<string>, n: nat)
    ensures var suf := Suffix(r, n);
            && |suf| <= |r| && r == r[..|r| - |suf|] + suf && (|suf| == n || (|suf| < n && r[..|r| - |suf|] == []))
  {
  }

  /** Re-inserting a key that is among the most recent ones. */
  lemma HitOrder(r: seq<string>, key: string, limit: nat)
    requires Distinct(r) && key in Suffix(r, limit)
    ensures Suffix(Without(r, key) + [key], limit) == Without(Suffix(r, limit), key) + [key]
  {
    hide Without, Distinct, Suffix;
    SuffixSplits(r, limit);
    var suf := Suffix(r, limit);
    var pre := r[..|r| - |suf|];
    DistinctParts(pre, suf, key);
    WithoutAppend(pre, suf, key);
    WithoutMembers(pre, key);
    WithoutLength(suf, key);
    assert pre + Without(suf, key) + [key] == pre + (Without(suf, key) + [key]);
    SuffixAppend(pre, Without(suf, key) + [key], limit);
  }

  /** Inserting a key that is not among them, whether it is new or was dropped before. */
  lemma MissOrder(r: seq<string>, key: string, limit: nat)
    requires limit > 0 && key !in Suffix(r, limit)
    ensures Suffix(Without(r, key) + [key], limit) == Suffix(Suffix(r, limit) + [key], limit)
  {
    hide Without, Suffix;
    SuffixSplits(r, limit);
    var suf := Suffix(r, limit);
    var pre := r[..|r| - |suf|];
    WithoutAppend(pre, suf, key);
    WithoutMembers(suf, key);
    WithoutMembers(pre, key);
    var w := Without(pre, key);
    if |suf| == limit {
      var last := suf[1..] + [key];
      assert (w + suf) + [key] == (w + [suf[0]]) + last;
      assert suf + [key] == [suf[0]] + last;
      SuffixAppend(w + [suf[0]], last, limit);
      SuffixAppend([suf[0]], last, limit);
    } else {
      assert w + suf == suf;
    }
  }

  lemma DistinctSuffix(s: seq<string>, n: nat)
    requires Distinct(s)
    ensures Distinct(Suffix(s, n))
  {
  }

  lemma HitKeeps(c: Cache, h: seq<Insertion>, x: Insertion, limit: nat)
    requires Refines(c, h, limit) && x.key in c.entries
    ensures Refines(Inserted(c, x.key, x.value, limit), h + [x], limit)
  {
    hide Recent, Without, LastAt, Suffix, Distinct, ByLast, Filled;
    RecentIsByLastInsertion(h);
    RecentOfMore(h, x);
    MoveFills(c, h, x);
    if limit > 0 {
      assert x.key in c.order by { FilledKey(c, h, x.key); }
      HitOrder(Recent(h), x.key, limit);
    }
  }

  lemma FilledKey(c: Cache, h: seq<Insertion>, key: string)
    requires Filled(c, h) && key in c.entries
    ensures key in c.order
  {
    hide LastAt;
  }

  lemma MoveFills(c: Cache, h: seq<Insertion>, x: Insertion)
    requires Filled(c, h) && x.key in c.entries
    ensures Filled(Cache(c.entries[x.key := x.value], Without(c.order, x.key) + [x.key]), h + [x])
  {
    hide Without, LastAt;
    WithoutMembers(c.order, x.key);
    forall k | k in c.entries ensures LastAt(h + [x], k) == if k == x.key then |h| else LastAt(h, k) {
      LastOfMore(h, x, k);
    }
  }

  lemma RecentOfMore(h: seq<Insertion>, x: Insertion)
    ensures Recent(h + [x]) == Without(Recent(h), x.key) + [x.key]
  {
    hide Without;
    assert (h + [x])[..|h|] == h;
  }

  /** Growing by a key that is not there keeps the entries filled for the longer history. */
  lemma GrowFills(c: Cache, h: seq<Insertion>, x: Insertion)
    requires Filled(c, h)
    ensures Filled(Cache(c.entries[x.key := x.value], c.order + [x.key]), h + [x])
  {
    hide LastAt;
    forall k | k in c.entries || k == x.key ensures LastAt(h + [x], k) == if k == x.key then |h| else LastAt(h, k) {
      LastOfMore(h, x, k);
    }
  }

  lemma MissKeeps(c: Cache, h: seq<Insertion>, x: Insertion, limit: nat)
    requires Refines(c, h, limit) && x.key !in c.entries
    ensures Refines(Inserted(c, x.key, x.value, limit), h + [x], limit)
  {
    hide Recent, Without, LastAt, Suffix, Evict;
    var grown := Cache(c.entries[x.key := x.value], c.order + [x.key]);
    RecentIsByLastInsertion(h);
    RecentOfMore(h, x);
    GrowFills(c, h, x);
    if limit > 0 {
      DistinctSuffix(Recent(h), limit);
      MissOrder(Recent(h), x.key, limit);
      EvictIsSuffix(grown, limit);
    } else {
      WithoutMembers(Recent(h), x.key);
    }
  }

  /**
   Refinement. After any history of insertions with one limit, the cache holds exactly the last
   `limit` distinct keys in the order of their latest insertions (all of them when the limit is 0),
   each with its latest value, and its queue has no duplicates.
   */
  lemma {:induction false} CacheRefinesHistory(h: seq<Insertion>, limit: nat)
    ensures Refines(After(h, limit), h, limit) && Distinct(After(h, limit).order)
  {
    hide Recent, LastAt, Inserted, Suffix;
    if h == [] {
      EmptyRefines(limit);
    } else {
      var init, x := h[..|h| - 1], h[|h| - 1];
      assert h == init + [x];
      CacheRefinesHistory(init, limit);
      hide Refines;
      if x.key in After(init, limit).entries {
        HitKeeps(After(init, limit), init, x, limit);
      } else {
        MissKeeps(After(init, limit), init, x, limit);
      }
    }
    RefinedIsDistinct(After(h, limit), h, limit);
  }

  lemma EmptyRefines(limit: nat)
    ensures Refines(EMPTY, [], limit)
  {
  }

  lemma RefinedIsDistinct(c: Cache, h: seq<Insertion>, limit: nat)
    requires Refines(c, h, limit)
    ensures Distinct(c.order)
  {
    hide Recent, Suffix;
    RecentIsByLastInsertion(h);
    DistinctSuffix(Recent(h), limit);
  }
}
