// The k-way merge shared by compaction and scans, and the de-duplication that follows it.
module Merge {
  import opened Keys

  /**
   * How a heap ranks its sources: mergeHeap and minHeap compare internal keys,
   * scanHeap compares user keys only. Both break ties by the lower source index.
   */
  datatype Order = ByVersion | ByKey

  predicate Precedes(o: Order, a: Entry, b: Entry) {
    match o
    case ByVersion => Before(a, b)
    case ByKey => Less(a.key, b.key)
  }

  ghost predicate AllSorted(cs: seq<seq<Entry>>) {
    forall j :: 0 <= j < |cs| ==> Sorted(cs[j])
  }

  /** The source heap.Pop takes next, or |cs| when every source is exhausted. */
  function Top(o: Order, cs: seq<seq<Entry>>): (i: nat)
    ensures i <= |cs|
    ensures i == |cs| ==> forall j :: 0 <= j < |cs| ==> cs[j] == []
    ensures i < |cs| ==> cs[i] != []
    ensures i < |cs| ==> forall j :: 0 <= j < |cs| && cs[j] != [] ==> !Precedes(o, cs[j][0], cs[i][0])
    ensures i < |cs| ==> forall j :: 0 <= j < i && cs[j] != [] ==> Precedes(o, cs[i][0], cs[j][0])
  {
    if cs == [] then 0
    else
      var n := |cs| - 1;
      var i := Top(o, cs[..n]);
      LessIsTotalOrder();
      assert forall j :: 0 <= j < n ==> cs[..n][j] == cs[j];
      if cs[n] == [] then (if i == n then |cs| else i)
      else if i == n || Precedes(o, cs[n][0], cs[i][0]) then n
      else i
  }

  function Total(cs: seq<seq<Entry>>): nat {
    if cs == [] then 0 else |cs[0]| + Total(cs[1..])
  }

  function Advance(cs: seq<seq<Entry>>, i: nat): seq<seq<Entry>>
    requires i < |cs| && cs[i] != []
  {
    cs[i := cs[i][1..]]
  }

  lemma {:induction false} AdvanceTotal(cs: seq<seq<Entry>>, i: nat)
    requires i < |cs| && cs[i] != []
    ensures Total(cs) == Total(Advance(cs, i)) + 1
  {
    if i > 0 {
      AdvanceTotal(cs[1..], i - 1);
      assert Advance(cs, i)[1..] == Advance(cs[1..], i - 1);
    } else {
      assert Advance(cs, i)[1..] == cs[1..];
    }
  }

  /** Everything the heap yields, in the order it yields it. */
  function Merged(o: Order, cs: seq<seq<Entry>>): seq<Entry>
    decreases Total(cs)
  {
    var i := Top(o, cs);
    if i == |cs| then []
    else
      AdvanceTotal(cs, i);
      [cs[i][0]] + Merged(o, Advance(cs, i))
  }

  lemma MergedPop(o: Order, cs: seq<seq<Entry>>)
    requires Top(o, cs) < |cs|
    ensures Merged(o, cs) == [cs[Top(o, cs)][0]] + Merged(o, Advance(cs, Top(o, cs)))
    ensures Total(Advance(cs, Top(o, cs))) < Total(cs)
  {
    AdvanceTotal(cs, Top(o, cs));
  }

  function Bag(cs: seq<seq<Entry>>): multiset<Entry> {
    if cs == [] then multiset{} else multiset(cs[0]) + Bag(cs[1..])
  }

  lemma {:induction false} AdvanceBag(cs: seq<seq<Entry>>, i: nat)
    requires i < |cs| && cs[i] != []
    ensures Bag(cs) == Bag(Advance(cs, i)) + multiset{cs[i][0]}
  {
    if i > 0 {
      AdvanceBag(cs[1..], i - 1);
      assert Advance(cs, i)[1..] == Advance(cs[1..], i - 1);
    } else {
      assert Advance(cs, i)[1..] == cs[1..];
      assert cs[0] == [cs[0][0]] + cs[0][1..];
    }
  }

  lemma {:induction false} BagMember(cs: seq<seq<Entry>>, e: Entry)
    ensures e in Bag(cs) <==> exists j :: 0 <= j < |cs| && e in cs[j]
  {
    if cs != [] {
      BagMember(cs[1..], e);
      if j :| 0 <= j < |cs| && e in cs[j] {
        assert j > 0 ==> e in cs[1..][j - 1];
        assert e in cs[0] || exists j :: 0 <= j < |cs[1..]| && e in cs[1..][j];
      }
      if j :| 0 <= j < |cs[1..]| && e in cs[1..][j] {
        assert e in cs[j + 1];
      }
    } else {
      assert e !in Bag(cs);
    }
  }

  /** The merge loses and invents nothing. */
  lemma {:induction false} MergedIsPermutation(o: Order, cs: seq<seq<Entry>>)
    ensures multiset(Merged(o, cs)) == Bag(cs)
    decreases Total(cs)
  {
    var i := Top(o, cs);
    if i == |cs| {
      forall e | e in Bag(cs)
        ensures false
      {
        BagMember(cs, e);
      }
      assert Bag(cs) == multiset{};
    } else {
      AdvanceTotal(cs, i);
      AdvanceBag(cs, i);
      MergedIsPermutation(o, Advance(cs, i));
    }
  }

  lemma MergedMember(o: Order, cs: seq<seq<Entry>>, e: Entry)
    ensures e in Merged(o, cs) <==> exists j :: 0 <= j < |cs| && e in cs[j]
  {
    MergedIsPermutation(o, cs);
    BagMember(cs, e);
    assert e in Merged(o, cs) <==> e in multiset(Merged(o, cs));
  }

  lemma AdvanceSorted(cs: seq<seq<Entry>>, i: nat)
    requires AllSorted(cs) && i < |cs| && cs[i] != []
    ensures AllSorted(Advance(cs, i))
  {
    hide Less;
    assert Sorted(cs[i]);
    forall j | 0 <= j < |cs|
      ensures Sorted(Advance(cs, i)[j])
    {
      assert Sorted(cs[j]);
    }
  }

  /** No entry left in any source precedes the one the heap pops. */
  lemma TopIsLeast(o: Order, cs: seq<seq<Entry>>, j: nat, e: Entry)
    requires AllSorted(cs) && Top(o, cs) < |cs|
    requires j < |cs| && e in cs[j]
    ensures !Precedes(o, e, cs[Top(o, cs)][0])
    ensures j < Top(o, cs) ==> Precedes(o, cs[Top(o, cs)][0], e)
  {
    hide Less;
    LessIsTotalOrder();
    assert Sorted(cs[j]);
    var h :| 0 <= h < |cs[j]| && cs[j][h] == e;
    assert h == 0 || Before(cs[j][0], e);
  }

  ghost predicate NonDecreasing(o: Order, m: seq<Entry>) {
    forall i, j :: 0 <= i < j < |m| ==> !Precedes(o, m[j], m[i])
  }

  /** The merge of sorted sources comes out in the heap's order. */
  lemma {:induction false} MergedIsOrdered(o: Order, cs: seq<seq<Entry>>)
    requires AllSorted(cs)
    ensures NonDecreasing(o, Merged(o, cs))
    decreases Total(cs)
  {
    hide Less;
    var i := Top(o, cs);
    if i < |cs| {
      var rest := Advance(cs, i);
      AdvanceTotal(cs, i);
      AdvanceSorted(cs, i);
      MergedIsOrdered(o, rest);
      var m := Merged(o, rest);
      forall h | 0 <= h < |m|
        ensures !Precedes(o, m[h], cs[i][0])
      {
        MergedMember(o, rest, m[h]);
        var j :| 0 <= j < |rest| && m[h] in rest[j];
        assert m[h] in cs[j];
        TopIsLeast(o, cs, j, m[h]);
      }
      assert Merged(o, cs) == [cs[i][0]] + m;
    }
  }

  /** The answer of probing the sources one after another. */
  function FirstHit(cs: seq<seq<Entry>>, k: Bytes): Option<Entry> {
    if cs == [] then None
    else if Find(cs[0], k).Some? then Find(cs[0], k)
    else FirstHit(cs[1..], k)
  }

  lemma {:induction false} FirstHitIndex(cs: seq<seq<Entry>>, k: Bytes)
    ensures FirstHit(cs, k).None? <==> forall j :: 0 <= j < |cs| ==> Find(cs[j], k).None?
    ensures FirstHit(cs, k).Some? ==>
              exists j :: 0 <= j < |cs| && Find(cs[j], k) == FirstHit(cs, k)
                       && forall i :: 0 <= i < j ==> Find(cs[i], k).None?
  {
    if cs != [] {
      FirstHitIndex(cs[1..], k);
      assert forall j :: 0 < j < |cs| ==> cs[j] == cs[1..][j - 1];
      if Find(cs[0], k).None? && FirstHit(cs[1..], k).Some? {
        var j :| 0 <= j < |cs[1..]| && Find(cs[1..][j], k) == FirstHit(cs[1..], k)
                 && forall i :: 0 <= i < j ==> Find(cs[1..][i], k).None?;
        assert Find(cs[j + 1], k) == FirstHit(cs, k);
        assert forall i :: 0 <= i < j + 1 ==> Find(cs[i], k).None?;
      }
    }
  }

  lemma {:induction false} FirstHitConcat(a: seq<seq<Entry>>, b: seq<seq<Entry>>, k: Bytes)
    ensures FirstHit(a + b, k) == if FirstHit(a, k).Some? then FirstHit(a, k) else FirstHit(b, k)
  {
    if a == [] {
      assert a + b == b;
    } else {
      assert (a + b)[1..] == a[1..] + b;
      FirstHitConcat(a[1..], b, k);
    }
  }

  lemma FirstHitTop(cs: seq<seq<Entry>>, k: Bytes)
    requires AllSorted(cs) && Top(ByKey, cs) < |cs| && cs[Top(ByKey, cs)][0].key == k
    ensures FirstHit(cs, k) == Some(cs[Top(ByKey, cs)][0])
  {
    hide Less, Top;
    LessIsTotalOrder();
    var i := Top(ByKey, cs);
    forall j | 0 <= j < i
      ensures Find(cs[j], k).None?
    {
      FindIndex(cs[j], k);
      forall e | e in cs[j]
        ensures e.key != k
      {
        TopIsLeast(ByKey, cs, j, e);
      }
    }
    assert Find(cs[i], k) == Some(cs[i][0]);
    FirstHitIndex(cs, k);
  }

  lemma {:induction false} FirstHitPointwise(cs: seq<seq<Entry>>, ds: seq<seq<Entry>>, k: Bytes)
    requires |cs| == |ds| && forall j :: 0 <= j < |cs| ==> Find(cs[j], k) == Find(ds[j], k)
    ensures FirstHit(cs, k) == FirstHit(ds, k)
  {
    hide Find;
    if cs != [] {
      FirstHitPointwise(cs[1..], ds[1..], k);
    }
  }

  /** Merging by user key shows, for every key, the version the probing order finds. */
  lemma {:induction false} MergedByKeyFind(cs: seq<seq<Entry>>, k: Bytes)
    requires AllSorted(cs)
    ensures Find(Merged(ByKey, cs), k) == FirstHit(cs, k)
    decreases Total(cs)
  {
    hide Less, Top;
    var i := Top(ByKey, cs);
    if i == |cs| {
      FirstHitNone(cs, k);
    } else {
      var rest := Advance(cs, i);
      MergedPop(ByKey, cs);
      assert Merged(ByKey, cs)[1..] == Merged(ByKey, rest);
      if cs[i][0].key == k {
        FirstHitTop(cs, k);
      } else {
        AdvanceSorted(cs, i);
        MergedByKeyFind(rest, k);
        FirstHitPointwise(rest, cs, k);
      }
    }
  }

  /** e is a version of k held by some source, and no source holds a newer one. */
  ghost predicate IsNewest(cs: seq<seq<Entry>>, k: Bytes, e: Entry) {
    && e.key == k
    && (exists j :: 0 <= j < |cs| && e in cs[j])
    && forall j, e' :: 0 <= j < |cs| && e' in cs[j] && e'.key == k ==> e'.seqno <= e.seqno
  }

  lemma FirstHitNone(cs: seq<seq<Entry>>, k: Bytes)
    ensures FirstHit(cs, k).None? <==> forall j, e :: 0 <= j < |cs| && e in cs[j] ==> e.key != k
  {
    FirstHitIndex(cs, k);
    forall j | 0 <= j < |cs|
      ensures Find(cs[j], k).None? <==> forall e :: e in cs[j] ==> e.key != k
    {
      FindIndex(cs[j], k);
    }
  }

  lemma MergedFindSome(o: Order, cs: seq<seq<Entry>>, k: Bytes)
    ensures Find(Merged(o, cs), k).None? <==> FirstHit(cs, k).None?
  {
    hide Merged, Find, FirstHit;
    var m := Merged(o, cs);
    FirstHitNone(cs, k);
    FindIndex(m, k);
    forall e
      ensures e in m <==> exists j :: 0 <= j < |cs| && e in cs[j]
    {
      MergedMember(o, cs, e);
    }
  }

  /** Merging by version shows the newest version of every key first. */
  lemma MergedByVersionFind(cs: seq<seq<Entry>>, k: Bytes)
    requires AllSorted(cs)
    ensures Find(Merged(ByVersion, cs), k).None? <==> FirstHit(cs, k).None?
    ensures Find(Merged(ByVersion, cs), k).Some? ==> IsNewest(cs, k, Find(Merged(ByVersion, cs), k).value)
  {
    hide Merged, Find, FirstHit, AllSorted;
    var m := Merged(ByVersion, cs);
    MergedFindSome(ByVersion, cs, k);
    if Find(m, k).Some? {
      MergedIsOrdered(ByVersion, cs);
      FirstIsNewest(m, k);
      forall e
        ensures e in m <==> exists j :: 0 <= j < |cs| && e in cs[j]
      {
        MergedMember(ByVersion, cs, e);
      }
    }
  }

  lemma FirstIsNewest(m: seq<Entry>, k: Bytes)
    requires NonDecreasing(ByVersion, m) && Find(m, k).Some?
    ensures Find(m, k).value in m && Find(m, k).value.key == k
    ensures forall e :: e in m && e.key == k ==> e.seqno <= Find(m, k).value.seqno
  {
    hide Less;
    FindIndex(m, k);
    var i :| 0 <= i < |m| && m[i] == Find(m, k).value && m[i].key == k
             && forall j :: 0 <= j < i ==> m[j].key != k;
    forall e | e in m && e.key == k
      ensures e.seqno <= m[i].seqno
    {
      var h :| 0 <= h < |m| && m[h] == e;
      assert h == i || !Precedes(ByVersion, m[h], m[i]);
    }
  }

  /**
   * The user key the loop remembers to recognise older versions. It is copied with
   * append(prev[:0], key...), so an empty first key leaves the buffer nil.
   */
  function Remember(prev: Option<Bytes>, k: Bytes): Option<Bytes> {
    if prev.None? && k == [] then None else Some(k)
  }

  /** The entries the loop keeps: the first of each user key, without tombstones if drop. */
  function Survivors(es: seq<Entry>, prev: Option<Bytes>, drop: bool): seq<Entry> {
    if es == [] then []
    else if prev == Some(es[0].key) then Survivors(es[1..], prev, drop)
    else
      var rest := Survivors(es[1..], Remember(prev, es[0].key), drop);
      if drop && es[0].kind.Deletion? then rest else [es[0]] + rest
  }

  /** One turn of the loop. */
  lemma SurvivorsPop(e: Entry, rest: seq<Entry>, prev: Option<Bytes>, drop: bool)
    ensures prev == Some(e.key) ==>
              Survivors([e] + rest, prev, drop) == Survivors(rest, prev, drop)
    ensures prev != Some(e.key) && drop && e.kind.Deletion? ==>
              Survivors([e] + rest, prev, drop) == Survivors(rest, Remember(prev, e.key), drop)
    ensures prev != Some(e.key) && !(drop && e.kind.Deletion?) ==>
              Survivors([e] + rest, prev, drop) == [e] + Survivors(rest, Remember(prev, e.key), drop)
  {
    assert ([e] + rest)[1..] == rest;
  }

  lemma MergedExhausted(o: Order, cs: seq<seq<Entry>>, prev: Option<Bytes>, drop: bool)
    requires Top(o, cs) == |cs|
    ensures Merged(o, cs) == [] && Survivors(Merged(o, cs), prev, drop) == []
  {
  }

  ghost predicate KeyOrdered(es: seq<Entry>) {
    forall i, j :: 0 <= i < j < |es| ==> !Less(es[j].key, es[i].key)
  }

  ghost predicate KeyedAbove(es: seq<Entry>, prev: Option<Bytes>) {
    forall e :: e in es ==> e.key != [] && (prev.Some? ==> !Less(e.key, prev.value))
  }

  /**
   * On non-empty keys the survivors are exactly the first version of every key, minus the
   * tombstones when they are dropped, and they come out one per key in ascending order.
   */
  lemma {:induction false} SurvivorsExact(es: seq<Entry>, prev: Option<Bytes>, drop: bool)
    requires KeyOrdered(es) && KeyedAbove(es, prev)
    ensures Ascending(Survivors(es, prev, drop))
    ensures forall e :: e in Survivors(es, prev, drop) <==>
              Find(es, e.key) == Some(e) && prev != Some(e.key) && !(drop && e.kind.Deletion?)
  {
    hide Less;
    LessIsTotalOrder();
    if es != [] {
      var tail, k := es[1..], es[0].key;
      assert forall i :: 0 <= i < |tail| ==> tail[i] == es[i + 1];
      assert es[0] in es && forall e :: e in tail ==> e in es;
      assert KeyedAbove(tail, Some(k));
      if prev == Some(k) {
        SurvivorsExact(tail, prev, drop);
      } else {
        SurvivorsExact(tail, Some(k), drop);
        var rest := Survivors(tail, Some(k), drop);
        forall e | e in rest
          ensures Less(k, e.key)
        {
          FindIndex(tail, e.key);
        }
        forall e
          ensures e in Survivors(es, prev, drop) <==>
                    Find(es, e.key) == Some(e) && prev != Some(e.key) && !(drop && e.kind.Deletion?)
        {
          FindIndex(tail, e.key);
        }
      }
    }
  }
}
