/** An HTTP header list with case-insensitive names, and the algebra of setting and removing headers. */
module HeaderList {
  import opened Wrappers
  import opened Text

  datatype Header = Header(name: string, value: string)

  /** Names are compared as in section 5.1 of RFC 9110, ignoring ASCII case. */
  predicate Same(a: string, b: string) { Lower(a) == Lower(b) }

  /** The same letter in either case, or the same character. */
  predicate SameLetter(a: char, b: char) {
    a == b || ('A' <= a <= 'Z' && b as int == a as int + 32) || ('A' <= b <= 'Z' && a as int == b as int + 32)
  }

  /** Two names are the same exactly when they agree letter by letter but for case. */
  lemma {:induction false} SameIffCaseless(a: string, b: string)
    ensures Same(a, b) <==> |a| == |b| && forall i | 0 <= i < |a| :: SameLetter(a[i], b[i])
  {
    if a != "" && b != "" {
      SameIffCaseless(a[1..], b[1..]);
      assert Lower(a)[0] == LowerChar(a[0]) && Lower(a)[1..] == Lower(a[1..]);
      assert Lower(b)[0] == LowerChar(b[0]) && Lower(b)[1..] == Lower(b[1..]);
      assert |a| == |b| ==> forall i | 1 <= i < |a| :: SameLetter(a[i], b[i]) == SameLetter(a[1..][i - 1], b[1..][i - 1]);
      if |a| == |b| && forall i | 0 <= i < |a| :: SameLetter(a[i], b[i]) {
        forall i | 0 <= i < |a[1..]| ensures SameLetter(a[1..][i], b[1..][i]) { assert SameLetter(a[i + 1], b[i + 1]); }
      }
      if Same(a, b) {
        assert SameLetter(a[0], b[0]);
        forall i | 0 <= i < |a| ensures SameLetter(a[i], b[i]) {
          assert i > 0 ==> a[i] == a[1..][i - 1] && b[i] == b[1..][i - 1];
        }
      }
    }
  }

  function Get(hs: seq<Header>, name: string): Option<string> {
    if hs == [] then None
    else if Same(hs[0].name, name) then Some(hs[0].value)
    else Get(hs[1..], name)
  }

  /** Overwrite the first header of that name, or append a new one. */
  function Set(hs: seq<Header>, h: Header): seq<Header> {
    if hs == [] then [h]
    else if Same(hs[0].name, h.name) then [hs[0].(value := h.value)] + hs[1..]
    else [hs[0]] + Set(hs[1..], h)
  }

  function Remove(hs: seq<Header>, name: string): seq<Header> {
    if hs == [] then []
    else (if Same(hs[0].name, name) then [] else [hs[0]]) + Remove(hs[1..], name)
  }

  function Sets(hs: seq<Header>, changes: seq<Header>): seq<Header>
    decreases |changes|
  {
    if changes == [] then hs else Sets(Set(hs, changes[0]), changes[1..])
  }

  predicate Has(hs: seq<Header>, name: string) { exists h | h in hs :: Same(h.name, name) }

  predicate HasAll(hs: seq<Header>, changes: seq<Header>) { forall c | c in changes :: Has(hs, c.name) }

  // ---------------------------------------------------------------- the operations as the program performs them

  method SetHeader(hs: seq<Header>, name: string, value: string) returns (r: seq<Header>)
    ensures r == Set(hs, Header(name, value))
  {
    hide Lower, Same;
    ghost var h := Header(name, value);
    var i := 0;
    while i < |hs| && !Same(hs[i].name, name)
      invariant i <= |hs| && Set(hs, h) == hs[..i] + Set(hs[i..], h)
    {
      ghost var rest := hs[i..];
      assert rest[1..] == hs[i + 1..];
      assert hs[..i] + [hs[i]] == hs[..i + 1];
      calc {
        Set(hs, h);
        hs[..i] + Set(rest, h);
        hs[..i] + ([rest[0]] + Set(rest[1..], h));
        hs[..i + 1] + Set(hs[i + 1..], h);
      }
      i := i + 1;
    }
    if i < |hs| {
      r := hs[..i] + ([hs[i].(value := value)] + hs[i + 1..]);
      assert hs[i..][1..] == hs[i + 1..];
    } else {
      r := hs + [Header(name, value)];
      assert hs[..i] == hs && hs[i..] == [];
    }
  }

  method RemoveHeader(hs: seq<Header>, name: string) returns (r: seq<Header>)
    ensures r == Remove(hs, name)
  {
    hide Lower, Same;
    r := [];
    for i := 0 to |hs|
      invariant Remove(hs, name) == r + Remove(hs[i..], name)
    {
      assert hs[i..][1..] == hs[i + 1..];
      if !Same(hs[i].name, name) {
        assert r + ([hs[i]] + Remove(hs[i + 1..], name)) == (r + [hs[i]]) + Remove(hs[i + 1..], name);
        r := r + [hs[i]];
      } else {
        assert r + ([] + Remove(hs[i + 1..], name)) == r + Remove(hs[i + 1..], name);
      }
    }
  }

  // ---------------------------------------------------------------- presence and values

  lemma {:induction false} SetHas(hs: seq<Header>, h: Header, name: string)
    ensures Has(Set(hs, h), name) <==> Has(hs, name) || Same(h.name, name)
  {
    hide Lower;
    if hs == [] {
    } else if Same(hs[0].name, h.name) {
      assert hs == [hs[0]] + hs[1..];
    } else {
      SetHas(hs[1..], h, name);
      assert hs == [hs[0]] + hs[1..];
    }
  }

  lemma {:induction false} GetOfSet(hs: seq<Header>, h: Header, name: string)
    ensures Get(Set(hs, h), name) == if Same(h.name, name) then Some(h.value) else Get(hs, name)
  {
    hide Lower;
    if hs != [] {
      GetOfSet(hs[1..], h, name);
    }
  }

  lemma RemoveCons(hs: seq<Header>, name: string)
    requires hs != []
    ensures Remove(hs, name)
         == if Same(hs[0].name, name) then Remove(hs[1..], name) else [hs[0]] + Remove(hs[1..], name)
  {
    hide Lower, Same;
    assert [] + Remove(hs[1..], name) == Remove(hs[1..], name);
  }

  lemma {:induction false} GetOfRemove(hs: seq<Header>, gone: string, name: string)
    ensures Get(Remove(hs, gone), name) == if Same(gone, name) then None else Get(hs, name)
  {
    hide Lower;
    if hs != [] {
      GetOfRemove(hs[1..], gone, name);
      RemoveCons(hs, gone);
    }
  }

  /** The value the last change of that name assigns. */
  function LastSet(changes: seq<Header>, name: string): Option<string> {
    if changes == [] then None
    else match LastSet(changes[1..], name)
      case Some(v) => Some(v)
      case None => if Same(changes[0].name, name) then Some(changes[0].value) else None
  }

  lemma {:induction false} GetOfSets(hs: seq<Header>, changes: seq<Header>, name: string)
    ensures Get(Sets(hs, changes), name)
         == if LastSet(changes, name).Some? then LastSet(changes, name) else Get(hs, name)
    decreases |changes|
  {
    hide Lower, Get, Set, Same;
    if changes != [] {
      GetOfSets(Set(hs, changes[0]), changes[1..], name);
      GetOfSet(hs, changes[0], name);
    }
  }

  // ---------------------------------------------------------------- untouched headers

  /** The headers whose name is none of `names`, in order. */
  function Others(hs: seq<Header>, names: seq<string>): seq<Header> {
    if hs == [] then []
    else (if Named(hs[0].name, names) then [] else [hs[0]]) + Others(hs[1..], names)
  }

  predicate Named(name: string, names: seq<string>) { exists n | n in names :: Same(n, name) }

  lemma NamedIsSame(a: string, b: string, names: seq<string>)
    requires Same(a, b)
    ensures Named(a, names) == Named(b, names)
  {
    hide Lower;
  }

  lemma {:induction false} SetKeepsOthers(hs: seq<Header>, h: Header, names: seq<string>)
    requires Named(h.name, names)
    ensures Others(Set(hs, h), names) == Others(hs, names)
  {
    hide Lower, Named, Same;
    if hs != [] {
      if Same(hs[0].name, h.name) {
        NamedIsSame(hs[0].name, h.name, names);
      } else {
        SetKeepsOthers(hs[1..], h, names);
      }
    }
  }

  lemma {:induction false} RemoveKeepsOthers(hs: seq<Header>, name: string, names: seq<string>)
    requires Named(name, names)
    ensures Others(Remove(hs, name), names) == Others(hs, names)
  {
    hide Lower, Named, Same;
    if hs != [] {
      RemoveKeepsOthers(hs[1..], name, names);
      if Same(hs[0].name, name) {
        NamedIsSame(hs[0].name, name, names);
        assert [] + Remove(hs[1..], name) == Remove(hs[1..], name);
      }
    }
  }

  lemma {:induction false} SetsKeepOthers(hs: seq<Header>, changes: seq<Header>, names: seq<string>)
    requires forall c | c in changes :: Named(c.name, names)
    ensures Others(Sets(hs, changes), names) == Others(hs, names)
    decreases |changes|
  {
    hide Lower, Named, Set, Others;
    if changes != [] {
      SetKeepsOthers(hs, changes[0], names);
      SetsKeepOthers(Set(hs, changes[0]), changes[1..], names);
    }
  }

  // ---------------------------------------------------------------- setting again changes nothing

  lemma {:induction false} SetOverwrites(hs: seq<Header>, a: Header, b: Header)
    requires Same(a.name, b.name)
    ensures Set(Set(hs, a), b) == Set(hs, a.(value := b.value))
    ensures Has(hs, a.name) ==> Set(Set(hs, a), b) == Set(hs, b)
  {
    hide Lower;
    if hs != [] {
      SetOverwrites(hs[1..], a, b);
    }
  }

  lemma {:induction false} SetCommutes(hs: seq<Header>, a: Header, b: Header)
    requires Has(hs, a.name) && !Same(a.name, b.name)
    ensures Set(Set(hs, a), b) == Set(Set(hs, b), a)
  {
    hide Lower;
    var t := hs[1..];
    if Same(hs[0].name, a.name) {
      assert ([hs[0].(value := a.value)] + t)[1..] == t;
      assert ([hs[0]] + Set(t, b))[1..] == Set(t, b);
    } else if Same(hs[0].name, b.name) {
      assert ([hs[0].(value := b.value)] + t)[1..] == t;
    } else {
      SetCommutes(t, a, b);
    }
  }

  /** An earlier overwrite of a header that is set at the end anyway makes no difference. */
  lemma {:induction false} SetIsForgotten(hs: seq<Header>, changes: seq<Header>, a: Header, b: Header)
    requires Has(hs, a.name) && Same(a.name, b.name)
    ensures Set(Sets(Set(hs, a), changes), b) == Set(Sets(hs, changes), b)
    decreases |changes|
  {
    hide Lower, Set, Has;
    if changes == [] {
      SetOverwrites(hs, a, b);
    } else {
      var c := changes[0];
      assert Same(a.name, c.name) || !Same(a.name, c.name);
      if Same(a.name, c.name) {
        SetOverwrites(hs, a, c);
      } else {
        SetCommutes(hs, a, c);
        SetHas(hs, c, a.name);
        SetIsForgotten(Set(hs, c), changes[1..], a, b);
      }
    }
  }

  lemma {:induction false} SetsHas(hs: seq<Header>, changes: seq<Header>, name: string)
    ensures Has(hs, name) ==> Has(Sets(hs, changes), name)
    ensures (exists c | c in changes :: Same(c.name, name)) ==> Has(Sets(hs, changes), name)
    decreases |changes|
  {
    hide Lower, Set, Has;
    if changes != [] {
      SetHas(hs, changes[0], name);
      SetsHas(Set(hs, changes[0]), changes[1..], name);
    }
  }

  lemma {:induction false} SetInside(hs: seq<Header>, more: seq<Header>, h: Header)
    requires Has(hs, h.name)
    ensures Set(hs + more, h) == Set(hs, h) + more
  {
    hide Lower;
    assert (hs + more)[0] == hs[0] && (hs + more)[1..] == hs[1..] + more;
    if !Same(hs[0].name, h.name) {
      SetInside(hs[1..], more, h);
    }
  }

  lemma {:induction false} SetOutside(hs: seq<Header>, h: Header)
    requires !Has(hs, h.name)
    ensures Set(hs, h) == hs + [h]
  {
    hide Lower;
    if hs != [] {
      SetOutside(hs[1..], h);
      assert hs == [hs[0]] + hs[1..];
    }
  }

  lemma {:induction false} SetsInside(hs: seq<Header>, more: seq<Header>, changes: seq<Header>)
    requires HasAll(hs, changes)
    ensures Sets(hs + more, changes) == Sets(hs, changes) + more
    decreases |changes|
  {
    hide Lower, Set, Has;
    if changes != [] {
      assert changes[0] in changes;
      SetInside(hs, more, changes[0]);
      forall c | c in changes[1..] ensures Has(Set(hs, changes[0]), c.name) { SetHas(hs, changes[0], c.name); }
      SetsInside(Set(hs, changes[0]), more, changes[1..]);
    }
  }

  lemma {:induction false} SetsAppend(hs: seq<Header>, changes: seq<Header>, c: Header)
    ensures Sets(hs, changes + [c]) == Set(Sets(hs, changes), c)
    decreases |changes|
  {
    hide Set;
    if changes == [] {
      assert [] + [c] == [c];
      assert [c][1..] == [];
    } else {
      assert (changes + [c])[1..] == changes[1..] + [c];
      SetsAppend(Set(hs, changes[0]), changes[1..], c);
    }
  }

  lemma SetsHasAll(hs: seq<Header>, changes: seq<Header>)
    ensures HasAll(Sets(hs, changes), changes)
  {
    hide Lower, Sets, Has;
    forall c | c in changes ensures Has(Sets(hs, changes), c.name) { SetsHas(hs, changes, c.name); }
  }

  /** Applying the same changes again has no effect. */
  lemma {:induction false} SetsIsIdempotent(hs: seq<Header>, changes: seq<Header>)
    ensures Sets(Sets(hs, changes), changes) == Sets(hs, changes)
    decreases |changes|
  {
    hide Lower, Set, Has, Sets, HasAll;
    if changes == [] {
      assert Sets(hs, []) == hs by { SetsNone(hs); }
    } else {
      var init, b := changes[..|changes| - 1], changes[|changes| - 1];
      assert changes == init + [b];
      var x := Sets(hs, init);
      SetsIsIdempotent(hs, init);
      SetsAppend(hs, init, b);
      SetsAppend(Set(x, b), init, b);
      if Has(x, b.name) {
        SetIsForgotten(x, init, b, b);
      } else {
        SetsHasAll(hs, init);
        SetOutside(x, b);
        SetsInside(x, [b], init);
        SetAgain(x, b);
      }
    }
  }

  lemma SetsNone(hs: seq<Header>)
    ensures Sets(hs, []) == hs
  {
  }

  lemma SetAgain(hs: seq<Header>, h: Header)
    ensures Set(Set(hs, h), h) == Set(hs, h)
  {
    hide Lower, Set;
    SetOverwrites(hs, h, h);
  }

  /** Overwriting a header that the changes set anyway makes no difference. */
  lemma {:induction false} SetIsAbsorbed(hs: seq<Header>, h: Header, changes: seq<Header>)
    requires Has(hs, h.name) && LastSet(changes, h.name).Some?
    ensures Sets(Set(hs, h), changes) == Sets(hs, changes)
    decreases |changes|
  {
    hide Lower, Set, Has;
    var c := changes[0];
    if Same(h.name, c.name) {
      SetOverwrites(hs, h, c);
    } else {
      SetCommutes(hs, h, c);
      SetHas(hs, c, h.name);
      SetIsAbsorbed(Set(hs, c), h, changes[1..]);
    }
  }

  // ---------------------------------------------------------------- removal among changes

  lemma {:induction false} RemoveOfSet(hs: seq<Header>, h: Header, name: string)
    ensures Remove(Set(hs, h), name) == if Same(h.name, name) then Remove(hs, name) else Set(Remove(hs, name), h)
  {
    hide Lower;
    if hs != [] {
      var first, t := hs[0], hs[1..];
      RemoveOfSet(t, h, name);
      RemoveCons(hs, name);
      RemoveCons([first.(value := h.value)] + t, name);
      RemoveCons([first] + Set(t, h), name);
    }
  }

  /** Removing a header after some changes is removing it before those of the changes that do not set it. */
  lemma {:induction false} RemoveOfSets(hs: seq<Header>, changes: seq<Header>, name: string)
    ensures Remove(Sets(hs, changes), name) == Sets(Remove(hs, name), Remove(changes, name))
    decreases |changes|
  {
    hide Lower, Set, Same;
    if changes != [] {
      var c := changes[0];
      RemoveOfSets(Set(hs, c), changes[1..], name);
      hide Sets;
      RemoveOfSet(hs, c, name);
      SetsOfRemove(Remove(hs, name), changes, name);
    }
  }

  lemma SetsOfRemove(hs: seq<Header>, changes: seq<Header>, name: string)
    requires changes != []
    ensures Sets(hs, Remove(changes, name))
         == Sets(if Same(changes[0].name, name) then hs else Set(hs, changes[0]), Remove(changes[1..], name))
  {
    hide Lower, Set, Same;
    var rest := Remove(changes[1..], name);
    assert [] + rest == rest;
    assert ([changes[0]] + rest)[1..] == rest;
  }

  lemma {:induction false} RemoveTwice(hs: seq<Header>, name: string)
    ensures Remove(Remove(hs, name), name) == Remove(hs, name)
  {
    hide Lower, Same;
    if hs != [] {
      RemoveTwice(hs[1..], name);
      RemoveCons(hs, name);
      RemoveCons([hs[0]] + Remove(hs[1..], name), name);
    }
  }

  lemma {:induction false} RemoveOfConcat(a: seq<Header>, b: seq<Header>, name: string)
    ensures Remove(a + b, name) == Remove(a, name) + Remove(b, name)
  {
    hide Same;
    if a == [] {
      assert a + b == b;
    } else {
      RemoveOfConcat(a[1..], b, name);
      assert (a + b)[1..] == a[1..] + b && (a + b)[0] == a[0];
      RemoveCons(a + b, name);
      RemoveCons(a, name);
    }
  }

  lemma {:induction false} RemoveAbsent(hs: seq<Header>, name: string)
    requires !Has(hs, name)
    ensures Remove(hs, name) == hs
  {
    hide Same;
    if hs != [] {
      assert hs[0] in hs;
      RemoveAbsent(hs[1..], name);
      RemoveCons(hs, name);
    }
  }
}
