// De-duplication and the empty user key: the one key whose older versions the loops do not recognise.
module EmptyKey {
  import opened Keys
  import opened Merge

  /** How many entries at the front have the empty key; in key order, all of them. */
  function EmptyRun(es: seq<Entry>): (n: nat)
    ensures n <= |es|
  {
    if es == [] || es[0].key != [] then 0 else 1 + EmptyRun(es[1..])
  }

  function Kept(es: seq<Entry>, drop: bool): seq<Entry> {
    if es == [] then []
    else if drop && es[0].kind.Deletion? then Kept(es[1..], drop)
    else [es[0]] + Kept(es[1..], drop)
  }

  /** Every version of the empty key survives, tombstones aside when they are dropped. */
  lemma {:induction false} EmptyKeySurvivors(es: seq<Entry>, drop: bool)
    ensures Survivors(es, None, drop)
         == Kept(es[..EmptyRun(es)], drop) + Survivors(es[EmptyRun(es)..], None, drop)
  {
    hide Survivors;
    var n := EmptyRun(es);
    if n > 0 {
      EmptyKeySurvivors(es[1..], drop);
      SurvivorsPop(es[0], es[1..], None, drop);
      assert es == [es[0]] + es[1..];
      assert es[..n][1..] == es[1..][..n - 1] && es[..n][0] == es[0];
      assert es[n..] == es[1..][n - 1..];
    } else {
      assert es[n..] == es;
    }
  }

  lemma {:induction false} RestIsNamed(es: seq<Entry>)
    requires KeyOrdered(es)
    ensures var n := EmptyRun(es);
            && KeyOrdered(es[n..]) && (forall e :: e in es[..n] ==> e.key == [])
            && (forall e :: e in es[n..] ==> e.key != [])
  {
    var n := EmptyRun(es);
    if n > 0 {
      assert KeyOrdered(es[1..]);
      RestIsNamed(es[1..]);
      assert es[n..] == es[1..][n - 1..];
      assert es[..n] == [es[0]] + es[1..][..n - 1];
    } else if es != [] {
      forall e | e in es
        ensures e.key != []
      {
        var i :| 0 <= i < |es| && es[i] == e;
        assert i == 0 || !Less(es[i].key, es[0].key);
      }
    }
  }

  lemma {:induction false} KeptMember(es: seq<Entry>, drop: bool)
    ensures forall e :: e in Kept(es, drop) <==> e in es && !(drop && e.kind.Deletion?)
  {
    if es != [] {
      KeptMember(es[1..], drop);
      assert forall e :: e in es <==> e == es[0] || e in es[1..];
    }
  }

  /** The loops emit one version per key exactly when they meet at most one surviving version of the empty key. */
  lemma OnePerKey(es: seq<Entry>, drop: bool)
    requires KeyOrdered(es)
    ensures Ascending(Survivors(es, None, drop)) <==> |Kept(es[..EmptyRun(es)], drop)| <= 1
  {
    hide Survivors, Kept, EmptyRun, Find, Less, Ascending;
    var n := EmptyRun(es);
    var a, b := Kept(es[..n], drop), Survivors(es[n..], None, drop);
    EmptyKeySurvivors(es, drop);
    RestIsNamed(es);
    KeptMember(es[..n], drop);
    SurvivorsExact(es[n..], None, drop);
    forall e | e in b
      ensures e.key != []
    {
      FindIndex(es[n..], e.key);
    }
    AscendingFront(a, b);
  }

  lemma AscendingFront(a: seq<Entry>, b: seq<Entry>)
    requires (forall e :: e in a ==> e.key == []) && (forall e :: e in b ==> e.key != []) && Ascending(b)
    ensures Ascending(a + b) <==> |a| <= 1
  {
    assert forall i :: 0 <= i < |a| ==> a[i] in a;
    assert forall i :: 0 <= i < |b| ==> b[i] in b;
    if |a| > 1 {
      assert (a + b)[0].key == [] && (a + b)[1].key == [];
    } else if |a| == 1 {
      assert forall i :: 0 < i < |a + b| ==> (a + b)[i] == b[i - 1];
    } else {
      assert a + b == b;
    }
  }

  lemma {:induction false} FirstKept(es: seq<Entry>)
    requires forall e :: e in es ==> e.key == []
    ensures Kept(es, true) == [] <==> forall e :: e in es ==> e.kind.Deletion?
    ensures es != [] && es[0].kind.Value? ==> Kept(es, true) != [] && Kept(es, true)[0] == es[0]
  {
    if es != [] {
      FirstKept(es[1..]);
      assert forall e :: e in es <==> e == es[0] || e in es[1..];
    }
  }

  /**
   * Dropping tombstones shows a key as the newest version has it; for the empty key exactly unless a
   * tombstone is its newest version and an older value is still among the sources.
   */
  lemma EmptyKeyRevived(es: seq<Entry>)
    requires KeyOrdered(es)
    ensures var f, r := Find(es, []), Find(Survivors(es, None, true), []);
            r == (if f.Some? && f.value.kind.Value? then f else None) <==>
            !(f.Some? && f.value.kind.Deletion? && exists e :: e in es && e.key == [] && e.kind.Value?)
  {
    hide Survivors, Kept, EmptyRun, KeyOrdered, Find;
    var n := EmptyRun(es);
    var a := Kept(es[..n], true);
    RestIsNamed(es);
    KeptMember(es[..n], true);
    FirstKept(es[..n]);
    EmptyKeyFinds(es);
    assert es == es[..n] + es[n..];
    assert forall e :: e in es && e.key == [] ==> e in es[..n];
  }

  lemma EmptyKeyFinds(es: seq<Entry>)
    requires KeyOrdered(es)
    ensures var n := EmptyRun(es);
            && Find(es, []) == (if n == 0 then None else Some(es[..n][0]))
            && var a := Kept(es[..n], true);
               Find(Survivors(es, None, true), []) == if a == [] then None else Some(a[0])
  {
    hide Survivors, Kept, EmptyRun, Less, Ascending, Find;
    var n := EmptyRun(es);
    var a, b := Kept(es[..n], true), Survivors(es[n..], None, true);
    EmptyKeySurvivors(es, true);
    RestIsNamed(es);
    KeptMember(es[..n], true);
    SurvivorsExact(es[n..], None, true);
    assert es == es[..n] + es[n..];
    forall e | e in b
      ensures e.key != []
    {
      FindIndex(es[n..], e.key);
    }
    FindFront(es[..n], es[n..]);
    FindFront(a, b);
  }

  lemma FindFront(a: seq<Entry>, b: seq<Entry>)
    requires (forall e :: e in a ==> e.key == []) && forall e :: e in b ==> e.key != []
    ensures Find(a + b, []) == if a == [] then None else Some(a[0])
  {
    if a == [] {
      assert a + b == b;
      FindIndex(b, []);
    } else {
      assert a[0] in a && (a + b)[0] == a[0];
    }
  }

  /** Deleting the empty key and compacting to the bottom level brings the deleted value back. */
  lemma EmptyKeyRevivedExample()
    ensures var es := [Entry([], 2, Deletion, []), Entry([], 1, Value, [7])];
            KeyOrdered(es) && Find(Survivors(es, None, true), []) == Some(es[1])
  {
    var es := [Entry([], 2, Deletion, []), Entry([], 1, Value, [7])];
    assert es[1..] == [es[1]] && es[1..][1..] == [];
    assert Survivors(es[1..][1..], None, true) == [];
    assert Survivors(es[1..], None, true) == [es[1]];
  }
}
