/** Picking a target for a connection: round robin over the targets that health checks have not removed. */
module RoundRobin {
  import opened Wrappers
  import opened Text
  import opened Division
  import opened Sublists

  /** The trimmed non-empty lines that are not removed, in order. */
  function Healthy(lines: seq<string>, removed: set<string>): seq<string> {
    if lines == [] then []
    else
      var item := Trim(lines[|lines| - 1]);
      Healthy(lines[..|lines| - 1], removed) + if item == "" || item in removed then [] else [item]
  }

  function Items(targets: string, removed: set<string>): seq<string> { Healthy(Split(targets, "\n"), removed) }

  class Balancer {
    var cursors: map<string, nat>

    constructor ()
      ensures cursors == map[]
    {
      cursors := map[];
    }

    function Cursor(key: string): nat
      reads this
    {
      if key in cursors then cursors[key] else 0
    }

    /** select_target and pick_runtime_target; `removed` is the client's removed set at that moment. */
    method SelectTarget(key: string, targets: string, removed: set<string>) returns (r: Option<string>)
      modifies this
      ensures r.Some? <==> Items(targets, removed) != []
      ensures r.None? ==> cursors == old(cursors)
      ensures r.Some? ==> var items := Items(targets, removed);
                          r.value == items[old(Cursor(key)) % |items|]
                          && cursors == old(cursors)[key := old(Cursor(key)) % |items| + 1]
    {
      var lines := Split(targets, "\n");
      var items := [];
      for i := 0 to |lines|
        invariant items == Healthy(lines[..i], removed) && cursors == old(cursors)
      {
        hide Trim, Split;
        assert lines[..i + 1][..i] == lines[..i];
        var item := Trim(lines[i]);
        if item != "" && item !in removed {
          items := items + [item];
        }
      }
      assert lines[..|lines|] == lines;
      if items == [] {
        return None;
      }
      var cursor := if key in cursors then cursors[key] else 0;
      var index := cursor % |items|;
      cursors := cursors[key := index + 1];
      return Some(items[index]);
    }

    /** Successive picks for one key while the target list and its health stay the same. */
    method SelectMany(key: string, targets: string, removed: set<string>, k: nat) returns (picked: seq<string>)
      requires Items(targets, removed) != []
      modifies this
      ensures picked == Picks(old(Cursor(key)), Items(targets, removed), k)
      ensures Cursor(key) == CursorAfter(old(Cursor(key)), |Items(targets, removed)|, k)
    {
      picked := [];
      for i := 0 to k
        invariant picked == Picks(old(Cursor(key)), Items(targets, removed), i)
        invariant Cursor(key) == CursorAfter(old(Cursor(key)), |Items(targets, removed)|, i)
      {
        hide Items;
        var r := SelectTarget(key, targets, removed);
        picked := picked + [r.value];
      }
    }
  }

  /** The cursor stored after `k` picks among `n` items. */
  function CursorAfter(c: nat, n: nat, k: nat): nat
    requires n > 0
  {
    if k == 0 then c else CursorAfter(c, n, k - 1) % n + 1
  }

  function Picks(c: nat, items: seq<string>, k: nat): seq<string>
    requires items != []
  {
    if k == 0 then [] else Picks(c, items, k - 1) + [items[CursorAfter(c, |items|, k - 1) % |items|]]
  }

  // ---------------------------------------------------------------- under any health changes

  /** A pick is possible exactly when some target is not removed, and only such targets are picked. */
  lemma {:induction false} HealthyMembers(lines: seq<string>, removed: set<string>, x: string)
    ensures x in Healthy(lines, removed) <==> x != "" && x !in removed && exists l | l in lines :: Trim(l) == x
  {
    hide Trim;
    if lines != [] {
      assert lines == lines[..|lines| - 1] + [lines[|lines| - 1]];
      HealthyMembers(lines[..|lines| - 1], removed, x);
    }
  }

  function TrimAll(lines: seq<string>): (r: seq<string>)
    ensures |r| == |lines| && forall i | 0 <= i < |lines| :: r[i] == Trim(lines[i])
  {
    if lines == [] then [] else TrimAll(lines[..|lines| - 1]) + [Trim(lines[|lines| - 1])]
  }

  /** The targets that can be picked are the trimmed lines in their listed order, less the blank and the removed ones. */
  lemma {:induction false} HealthyArePicked(lines: seq<string>, removed: set<string>) returns (at: seq<nat>)
    ensures Picked(TrimAll(lines), Healthy(lines, removed), at)
    ensures forall i | 0 <= i < |lines| :: i in at <==> Trim(lines[i]) != "" && Trim(lines[i]) !in removed
    ensures forall i | i in at :: i < |lines|
  {
    hide Picked, Trim;
    if lines == [] {
      at := [];
      PickNothing<string>();
    } else {
      var init, item := lines[..|lines| - 1], Trim(lines[|lines| - 1]);
      at := HealthyArePicked(init, removed);
      assert TrimAll(lines) == TrimAll(init) + [item];
      PickSkip(TrimAll(init), Healthy(init, removed), at, item);
      PickTake(TrimAll(init), Healthy(init, removed), at, item);
      assert Healthy(init, removed) + [] == Healthy(init, removed);
      if item != "" && item !in removed {
        at := at + [|init|];
      }
    }
  }

  lemma NoneIffAllRemoved(targets: string, removed: set<string>)
    ensures Items(targets, removed) == []
       <==> forall l | l in Split(targets, "\n") :: Trim(l) == "" || Trim(l) in removed
  {
    hide Trim, Split, Healthy;
    var lines, items := Split(targets, "\n"), Items(targets, removed);
    forall l | l in lines ensures Trim(l) in items <==> Trim(l) != "" && Trim(l) !in removed {
      HealthyMembers(lines, removed, Trim(l));
    }
    if items != [] {
      HealthyMembers(lines, removed, items[0]);
    }
  }

  // ---------------------------------------------------------------- while health stays the same

  lemma {:induction false} CursorIsSum(c: nat, n: nat, k: nat)
    requires n > 0
    ensures CursorAfter(c, n, k) % n == (c + k) % n
  {
    if k > 0 {
      var x := c + k - 1;
      CursorIsSum(c, n, k - 1);
      SuccMod(x, n);
      calc {
        CursorAfter(c, n, k) % n;
        (x % n + 1) % n;
        (x + 1) % n;
      }
    }
  }

  /** The j-th pick from cursor `c` is item (c + j) mod n. */
  lemma {:induction false} PickIsCyclic(c: nat, items: seq<string>, k: nat, j: nat)
    requires items != [] && j < k
    ensures |Picks(c, items, k)| == k && Picks(c, items, k)[j] == items[(c + j) % |items|]
  {
    hide CursorAfter;
    if j == k - 1 {
      CursorIsSum(c, |items|, j);
      PicksLength(c, items, k);
      PicksLength(c, items, j);
    } else {
      PickIsCyclic(c, items, k - 1, j);
    }
  }

  lemma {:induction false} PicksLength(c: nat, items: seq<string>, k: nat)
    requires items != []
    ensures |Picks(c, items, k)| == k
  {
    hide CursorAfter;
    if k > 0 {
      PicksLength(c, items, k - 1);
    }
  }

  /** How often the picks numbered from `a` on, `w` of them, take position `i`. */
  function Count(c: nat, n: nat, a: nat, w: nat, i: nat): nat
    requires n > 0
  {
    if w == 0 then 0 else Count(c, n, a, w - 1, i) + if CursorAfter(c, n, a + w - 1) % n == i then 1 else 0
  }

  lemma ResidueIsMultiple(m: nat, n: nat, i: nat)
    requires i < n
    ensures m % n == i <==> (m + n - i) % n == 0
  {
    var q, r := m / n, m % n;
    assert m == q * n + r;
    if r >= i {
      if r == i {
        assert m + n - i == (q + 1) * n;
        Quotient(m + n - i, n, q + 1, 0);
      } else {
        assert m + n - i == (q + 1) * n + (r - i);
        Quotient(m + n - i, n, q + 1, r - i);
      }
    } else {
      Quotient(m + n - i, n, q, n + r - i);
    }
  }

  lemma {:induction false} CountIsQuotient(c: nat, n: nat, a: nat, w: nat, i: nat)
    requires i < n
    ensures Count(c, n, a, w, i) == (c + a + w + n - 1 - i) / n - (c + a + n - 1 - i) / n
  {
    hide CursorAfter;
    if w > 0 {
      CountIsQuotient(c, n, a, w - 1, i);
      CursorIsSum(c, n, a + w - 1);
      CrossOne(c + a + w - 1 + n - 1 - i, n);
      ResidueIsMultiple(c + a + w - 1, n, i);
    }
  }

  /** In any window of picks the positions are used equally often, up to one. */
  lemma WindowIsFair(c: nat, n: nat, a: nat, w: nat, i: nat, j: nat)
    requires i < n && j < n
    ensures -1 <= Count(c, n, a, w, i) - Count(c, n, a, w, j) <= 1
    ensures w / n <= Count(c, n, a, w, i) <= w / n + 1
  {
    hide Count;
    CountIsQuotient(c, n, a, w, i);
    CountIsQuotient(c, n, a, w, j);
    IntervalCount(c + a + n - 1 - i, w, n);
    IntervalCount(c + a + n - 1 - j, w, n);
  }
}
