// Leveled compaction: picking inputs, merging them, and what the outputs hold.
module Compaction {
  import opened Keys
  import opened Merge

  // ---- The merge loop of executeCompaction ----

  /** What a compaction writes: the newest version of each key, without tombstones at the bottom. */
  function Compacted(cs: seq<seq<Entry>>, bottom: bool): seq<Entry> {
    Survivors(Merged(ByVersion, cs), None, bottom)
  }

  /**
   * Pop the heap until it is empty, skip older versions of the key just seen, drop tombstones at
   * the bottom level, and roll to a new output file whenever the current one is full.
   */
  method MergeInputs(inputs: seq<seq<Entry>>, bottom: bool, full: seq<Entry> -> bool)
      returns (outs: seq<seq<Entry>>)
    ensures Flatten(outs) == Compacted(inputs, bottom)
    ensures forall o :: o in outs ==> o != [] && Filling(o, full)
    ensures forall j :: 0 <= j < |outs| - 1 ==> full(outs[j])
  {
    hide Filling;
    hide Top, Remember, Merged, Survivors, Flatten, Total;
    var heap, prev := inputs, None;
    var builder: seq<Entry> := [];
    outs := [];
    ghost var all, done: seq<Entry> := Compacted(inputs, bottom), [];
    var i := Top(ByVersion, heap);
    FlattenEmpty();
    assert Filling([], full) by { NothingFilled(full); }
    while i < |heap|
      invariant i == Top(ByVersion, heap)
      invariant (forall o :: o in outs ==> o != [] && Filling(o, full) && full(o)) && Filling(builder, full)
      invariant Flatten(outs) + builder == done
      invariant done + Survivors(Merged(ByVersion, heap), prev, bottom) == all
      decreases Total(heap)
    {
      var e := heap[i][0];
      MergedPop(ByVersion, heap);
      SurvivorsPop(e, Merged(ByVersion, Advance(heap, i)), prev, bottom);
      if prev == Some(e.key) {
      } else {
        prev := Remember(prev, e.key);
        if e.kind.Deletion? && bottom {
        } else {
          if full(builder) {
            outs := Rolled(outs, builder);
            builder := [];
            NothingFilled(full);
          }
          FillOne(builder, e, full);
          builder := builder + [e];
          OneMore(Flatten(outs), builder[..|builder| - 1], e, Survivors(Merged(ByVersion, Advance(heap, i)), prev, bottom));
          done := done + [e];
        }
      }
      heap := Advance(heap, i);
      i := Top(ByVersion, heap);
    }
    MergedExhausted(ByVersion, heap, prev, bottom);
    outs := Rolled(outs, builder);
    assert done + [] == done && Flatten(outs) + [] == Flatten(outs);
  }

  /** No part of an output that an entry was added to was full. */
  ghost predicate Filling(o: seq<Entry>, full: seq<Entry> -> bool) {
    forall m :: 0 < m < |o| ==> !full(o[..m])
  }

  lemma NothingFilled(full: seq<Entry> -> bool)
    ensures Filling([], full)
  {
  }

  lemma FillOne(b: seq<Entry>, e: Entry, full: seq<Entry> -> bool)
    requires Filling(b, full) && (b == [] || !full(b))
    ensures Filling(b + [e], full)
  {
    forall m | 0 < m < |b + [e]|
      ensures !full((b + [e])[..m])
    {
      assert (b + [e])[..m] == b[..m];
      assert b[..|b|] == b;
    }
  }

  lemma OneMore(a: seq<Entry>, b: seq<Entry>, e: Entry, tail: seq<Entry>)
    ensures a + (b + [e]) == (a + b) + [e]
    ensures (a + b) + ([e] + tail) == ((a + b) + [e]) + tail
  {
  }

  /** Closes the current output file, if it holds anything. */
  method Rolled(outs: seq<seq<Entry>>, builder: seq<Entry>) returns (r: seq<seq<Entry>>)
    ensures Flatten(r) + [] == Flatten(outs) + builder && r == if builder == [] then outs else outs + [builder]
  {
    hide Flatten;
    if builder == [] {
      return outs;
    }
    FlattenAppend(outs, builder);
    return outs + [builder];
  }

  ghost predicate NamedKeys(cs: seq<seq<Entry>>) {
    forall j, e :: 0 <= j < |cs| && e in cs[j] ==> e.key != []
  }

  lemma VersionOrderIsKeyOrder(m: seq<Entry>)
    requires NonDecreasing(ByVersion, m)
    ensures KeyOrdered(m)
  {
    hide Less;
    forall i, j | 0 <= i < j < |m|
      ensures !Less(m[j].key, m[i].key)
    {
      assert !Precedes(ByVersion, m[j], m[i]);
    }
  }

  lemma MergedNamed(cs: seq<seq<Entry>>)
    requires NamedKeys(cs)
    ensures KeyedAbove(Merged(ByVersion, cs), None)
  {
    forall e | e in Merged(ByVersion, cs)
      ensures e.key != []
    {
      MergedMember(ByVersion, cs, e);
    }
  }

  /**
   * The outputs hold, for every user key of the inputs, exactly its newest version, unless that is
   * a tombstone reaching the bottom level, and they hold it once, keys ascending.
   */
  lemma CompactedExact(cs: seq<seq<Entry>>, bottom: bool)
    requires AllSorted(cs) && NamedKeys(cs)
    ensures Ascending(Compacted(cs, bottom))
    ensures forall e :: e in Compacted(cs, bottom) ==>
              IsNewest(cs, e.key, e) && !(bottom && e.kind.Deletion?)
    ensures forall k :: FirstHit(cs, k).Some? ==>
              exists e :: IsNewest(cs, k, e) && (e in Compacted(cs, bottom) || (bottom && e.kind.Deletion?))
  {
    hide Less;
    var m := Merged(ByVersion, cs);
    MergedIsOrdered(ByVersion, cs);
    VersionOrderIsKeyOrder(m);
    MergedNamed(cs);
    SurvivorsExact(m, None, bottom);
    forall e | e in Compacted(cs, bottom)
      ensures IsNewest(cs, e.key, e) && !(bottom && e.kind.Deletion?)
    {
      MergedByVersionFind(cs, e.key);
    }
    forall k | FirstHit(cs, k).Some?
      ensures exists e :: IsNewest(cs, k, e) && (e in Compacted(cs, bottom) || (bottom && e.kind.Deletion?))
    {
      MergedByVersionFind(cs, k);
      var e := Find(m, k).value;
      assert IsNewest(cs, k, e);
    }
  }
}
