// Reading: Get walks memtables and files in order, and finds the last write of the key.
module EngineRead {
  import opened Keys
  import opened Merge
  import opened Manifest
  import opened Levels
  import opened Commit
  import opened Meaning

  // ---- Files ----

  /** SSTableReader.Get on a table's entries: the first version of k not above readSeq. */
  function FindAt(es: seq<Entry>, k: Bytes, readSeq: nat): Option<Entry> {
    if es == [] then None
    else if es[0].key == k && es[0].seqno <= readSeq then Some(es[0])
    else FindAt(es[1..], k, readSeq)
  }

  lemma {:induction false} FindAtIsFind(es: seq<Entry>, k: Bytes, readSeq: nat)
    requires forall e :: e in es ==> e.seqno <= readSeq
    ensures FindAt(es, k, readSeq) == Find(es, k)
  {
    if es != [] { FindAtIsFind(es[1..], k, readSeq); }
  }

  function FirstHitAt(l: seq<Meta>, fs: Files, k: Bytes, readSeq: nat): Option<Entry>
    requires OnDisk(l, fs)
  {
    if l == [] then None
    else
      var h := FindAt(fs[l[0].id], k, readSeq);
      if h.Some? then h else FirstHitAt(l[1..], fs, k, readSeq)
  }

  ghost predicate AllOnDisk(v: Version, fs: Files)
    requires v.WellFormed()
  {
    forall i :: 0 <= i < MAX_LEVELS ==> OnDisk(v.levels[i], fs)
  }

  /** Levels from i down: one candidate file each. */
  function DeepLookup(v: Version, fs: Files, i: nat, k: Bytes, readSeq: nat): Option<Entry>
    requires v.WellFormed() && AllOnDisk(v, fs)
    decreases MAX_LEVELS - i
  {
    if i >= MAX_LEVELS then None
    else
      var h := LevelLookup(v.levels[i], fs, k, readSeq);
      if h.Some? then h else DeepLookup(v, fs, i + 1, k, readSeq)
  }

  function LevelLookup(l: seq<Meta>, fs: Files, k: Bytes, readSeq: nat): Option<Entry> {
    match Candidate(l, k)
    case None => None
    case Some(m) => if m.id in fs then FindAt(fs[m.id], k, readSeq) else None
  }

  lemma SortedOnDisk(l: seq<Meta>, fs: Files, o: SortBy)
    requires OnDisk(l, fs)
    ensures OnDisk(SortMetas(o, l), fs)
    ensures forall m :: m in SortMetas(o, l) <==> m in l
  {
    forall m
      ensures m in SortMetas(o, l) <==> m in l
    {
      assert m in multiset(SortMetas(o, l)) <==> m in multiset(l);
    }
  }

  /** L0 newest file first, then one candidate per level. */
  ghost function FileLookup(v: Version, fs: Files, k: Bytes, readSeq: nat): Option<Entry>
    requires v.WellFormed() && AllOnDisk(v, fs)
  {
    SortedOnDisk(v.levels[0], fs, NewestFirst);
    var h := FirstHitAt(SortMetas(NewestFirst, v.levels[0]), fs, k, readSeq);
    if h.Some? then h else DeepLookup(v, fs, 1, k, readSeq)
  }

  /** e is the newest version of k in any file at level i or deeper; r is None when there is none. */
  ghost predicate BestFrom(v: Version, fs: Files, i: nat, k: Bytes, r: Option<Entry>)
    requires v.WellFormed()
  {
    && (r.Some? ==> r.value.key == k)
    && (r.Some? ==> exists j, m :: i <= j < MAX_LEVELS && m in v.levels[j] && m.id in fs && r.value in fs[m.id])
    && forall j, m, x {:trigger m in v.levels[j], x in fs[m.id]} ::
         i <= j < MAX_LEVELS && m in v.levels[j] && m.id in fs && x in fs[m.id] && x.key == k ==>
         r.Some? && x.seqno <= r.value.seqno
  }

  ghost predicate Visible(v: Version, fs: Files, readSeq: nat)
    requires v.WellFormed()
  {
    forall e :: Held(v, fs, e) ==> e.seqno <= readSeq
  }

  lemma VisibleFile(v: Version, fs: Files, readSeq: nat, i: nat, m: Meta, k: Bytes)
    requires v.WellFormed() && Visible(v, fs, readSeq) && i < MAX_LEVELS && m in v.levels[i] && m.id in fs
    ensures FindAt(fs[m.id], k, readSeq) == Find(fs[m.id], k)
  {
    hide Held;
    forall e | e in fs[m.id]
      ensures e.seqno <= readSeq
    {
      HeldBy(v, fs, i, m, e);
    }
    FindAtIsFind(fs[m.id], k, readSeq);
  }

  lemma FileOk(v: Version, fs: Files, maxLevel: nat, i: nat, m: Meta)
    requires VersionOk(v, fs, maxLevel) && i < MAX_LEVELS && m in v.levels[i]
    ensures TableOk(m, fs)
  {
  }

  /** A hit in file m dominates every file read after it. */
  lemma HitDominates(v: Version, fs: Files, maxLevel: nat, i: nat, m: Meta, j: nat, b: Meta, k: Bytes, x: Entry)
    requires v.WellFormed() && VersionOk(v, fs, maxLevel) && FileLayered(v, fs)
    requires i < MAX_LEVELS && j < MAX_LEVELS && m in v.levels[i] && b in v.levels[j]
    requires m.id in fs && b.id in fs && (m == b || ReadBefore(i, m, j, b))
    requires Find(fs[m.id], k).Some? && x in fs[b.id] && x.key == k
    ensures x.seqno <= Find(fs[m.id], k).value.seqno
  {
    hide VersionOk, FileLayered, Find, Sorted, Less;
    FileOk(v, fs, maxLevel, i, m);
    FileOk(v, fs, maxLevel, j, b);
    FindIn(fs[b.id], k, x);
    if m != b {
      LayeredPair(v, fs, i, m, j, b, k);
    }
  }

  lemma LevelLookupIs(v: Version, fs: Files, maxLevel: nat, readSeq: nat, i: nat, k: Bytes)
    requires v.WellFormed() && VersionOk(v, fs, maxLevel) && Visible(v, fs, readSeq) && 1 <= i < MAX_LEVELS
    ensures LevelLookup(v.levels[i], fs, k, readSeq).None? ==>
              forall m, x :: m in v.levels[i] && m.id in fs && x in fs[m.id] ==> x.key != k
    ensures LevelLookup(v.levels[i], fs, k, readSeq).Some? ==>
              exists m :: m in v.levels[i] && m.id in fs && Find(fs[m.id], k) == LevelLookup(v.levels[i], fs, k, readSeq)
                       && forall b :: b in v.levels[i] && Covers(b, k) ==> b == m
  {
    hide Less, Held, Ranked, Tidy, Sorted, FirstHit;
    var l := v.levels[i];
    assert LevelOk(l, fs);
    CandidateMember(l, fs, k);
    if Candidate(l, k).Some? {
      var m := Candidate(l, k).value;
      VisibleFile(v, fs, readSeq, i, m, k);
      var p :| 0 <= p < |l| && l[p] == m;
      CandidateIs(l, fs, k, p);
    }
    if LevelLookup(l, fs, k, readSeq).None? {
      CandidateSuffices(l, fs, k);
      NoHitInLevel(l, fs, k);
    }
  }

  lemma NoHitInLevel(l: seq<Meta>, fs: Files, k: Bytes)
    requires OnDisk(l, fs) && FirstHit(Contents(l, fs), k).None?
    ensures forall m, x :: m in l && m.id in fs && x in fs[m.id] ==> x.key != k
  {
    FirstHitNone(Contents(l, fs), k);
    forall m, x | m in l && m.id in fs && x in fs[m.id]
      ensures x.key != k
    {
      var p :| 0 <= p < |l| && l[p] == m;
      assert x in Contents(l, fs)[p];
    }
  }

  lemma {:induction false} DeepLookupIsBest(v: Version, fs: Files, maxLevel: nat, readSeq: nat, i: nat, k: Bytes)
    requires VersionOk(v, fs, maxLevel) && FileLayered(v, fs) && Visible(v, fs, readSeq)
    requires 1 <= i <= MAX_LEVELS && AllOnDisk(v, fs)
    ensures BestFrom(v, fs, i, k, DeepLookup(v, fs, i, k, readSeq))
    decreases MAX_LEVELS - i
  {
    hide VersionOk, FileLayered, Held, LevelLookup, Find, Covers;
    if i < MAX_LEVELS {
      assert v.WellFormed() by { FileOkShape(v, fs, maxLevel); }
      var h := LevelLookup(v.levels[i], fs, k, readSeq);
      LevelLookupIs(v, fs, maxLevel, readSeq, i, k);
      if h.Some? {
        var m :| m in v.levels[i] && m.id in fs && Find(fs[m.id], k) == h
                 && forall b :: b in v.levels[i] && Covers(b, k) ==> b == m;
        FindIndex(fs[m.id], k);
        forall j, b, x | i <= j < MAX_LEVELS && b in v.levels[j] && b.id in fs && x in fs[b.id] && x.key == k
          ensures x.seqno <= h.value.seqno
        {
          if i == j {
            FileOk(v, fs, maxLevel, j, b);
            KeysCovered(b, fs, x);
          }
          HitDominates(v, fs, maxLevel, i, m, j, b, k, x);
        }
      } else {
        DeepLookupIsBest(v, fs, maxLevel, readSeq, i + 1, k);
      }
    }
  }

  lemma FileOkShape(v: Version, fs: Files, maxLevel: nat)
    requires VersionOk(v, fs, maxLevel)
    ensures v.WellFormed() && AllOnDisk(v, fs) && AscendingIds(v.levels[0])
  {
    hide LevelOk, Less, Ranked;
  }

  lemma {:induction false} FirstHitAtIndex(l: seq<Meta>, fs: Files, k: Bytes, readSeq: nat)
    requires OnDisk(l, fs)
    ensures var h := FirstHitAt(l, fs, k, readSeq);
            && (h.None? ==> forall m :: m in l ==> FindAt(fs[m.id], k, readSeq).None?)
            && (h.Some? ==> exists i :: 0 <= i < |l| && FindAt(fs[l[i].id], k, readSeq) == h
                              && forall j :: 0 <= j < i ==> FindAt(fs[l[j].id], k, readSeq).None?)
  {
    hide FindAt;
    if l != [] {
      var h := FindAt(fs[l[0].id], k, readSeq);
      if h.None? {
        var tail := l[1..];
        FirstHitAtIndex(tail, fs, k, readSeq);
        assert forall m :: m in l <==> m == l[0] || m in tail;
        assert forall j :: 0 < j < |l| ==> l[j] == tail[j - 1];
        var r := FirstHitAt(tail, fs, k, readSeq);
        if r.Some? {
          var i :| 0 <= i < |tail| && FindAt(fs[tail[i].id], k, readSeq) == r
                   && forall j :: 0 <= j < i ==> FindAt(fs[tail[j].id], k, readSeq).None?;
          assert FindAt(fs[l[i + 1].id], k, readSeq) == r;
        }
      }
    }
  }

  lemma NewestFirstOrder(l: seq<Meta>, i: nat, j: nat)
    requires DistinctIds(l) && i < j < |SortMetas(NewestFirst, l)|
    ensures SortMetas(NewestFirst, l)[i].id > SortMetas(NewestFirst, l)[j].id
  {
    var r := SortMetas(NewestFirst, l);
    SortMetasOrdered(NewestFirst, l);
    DistinctIdsPermuted(l, r);
    assert !Ranked(NewestFirst, r[j], r[i]);
  }

  lemma AscendingDistinct(l: seq<Meta>)
    requires AscendingIds(l)
    ensures DistinctIds(l)
  {
  }

  /** Among all files the one read first that holds k holds its newest version. */
  lemma FileLookupIsBest(v: Version, fs: Files, maxLevel: nat, readSeq: nat, k: Bytes)
    requires VersionOk(v, fs, maxLevel) && FileLayered(v, fs) && v.WellFormed() && Visible(v, fs, readSeq)
    requires AllOnDisk(v, fs)
    ensures BestFrom(v, fs, 0, k, FileLookup(v, fs, k, readSeq))
  {
    hide VersionOk, FileLayered, Held, Find, DeepLookup, SortMetas, FirstHitAt;
    FileOkShape(v, fs, maxLevel);
    SortedOnDisk(v.levels[0], fs, NewestFirst);
    var l := SortMetas(NewestFirst, v.levels[0]);
    var h := FirstHitAt(l, fs, k, readSeq);
    FirstHitAtIndex(l, fs, k, readSeq);
    if h.Some? {
      L0HitIsBest(v, fs, maxLevel, readSeq, k);
    } else {
      DeepLookupIsBest(v, fs, maxLevel, readSeq, 1, k);
      forall m, x | m in v.levels[0] && m.id in fs && x in fs[m.id]
        ensures x.key != k
      {
        VisibleFile(v, fs, readSeq, 0, m, k);
        FindIndex(fs[m.id], k);
      }
    }
  }

  lemma L0HitIsBest(v: Version, fs: Files, maxLevel: nat, readSeq: nat, k: Bytes)
    requires VersionOk(v, fs, maxLevel) && FileLayered(v, fs) && v.WellFormed() && Visible(v, fs, readSeq)
    requires AllOnDisk(v, fs) && OnDisk(SortMetas(NewestFirst, v.levels[0]), fs)
    requires FirstHitAt(SortMetas(NewestFirst, v.levels[0]), fs, k, readSeq).Some?
    ensures BestFrom(v, fs, 0, k, FirstHitAt(SortMetas(NewestFirst, v.levels[0]), fs, k, readSeq))
  {
    hide VersionOk, FileLayered, Held, Find, DeepLookup, SortMetas, FirstHitAt, FindAt;
    FileOkShape(v, fs, maxLevel);
    AscendingDistinct(v.levels[0]);
    SortedOnDisk(v.levels[0], fs, NewestFirst);
    var l := SortMetas(NewestFirst, v.levels[0]);
    var h := FirstHitAt(l, fs, k, readSeq);
    FirstHitAtIndex(l, fs, k, readSeq);
    var i :| 0 <= i < |l| && FindAt(fs[l[i].id], k, readSeq) == h
             && forall j :: 0 <= j < i ==> FindAt(fs[l[j].id], k, readSeq).None?;
    var m := l[i];
    assert m in l && m in v.levels[0];
    VisibleFile(v, fs, readSeq, 0, m, k);
    FindIndex(fs[m.id], k);
    forall j, b, x | 0 <= j < MAX_LEVELS && b in v.levels[j] && b.id in fs && x in fs[b.id] && x.key == k
      ensures x.seqno <= h.value.seqno
    {
      if j == 0 {
        assert b in l;
        var p :| 0 <= p < |l| && l[p] == b;
        VisibleFile(v, fs, readSeq, 0, b, k);
        FindIndex(fs[b.id], k);
        assert p >= i;
        if p > i {
          NewestFirstOrder(v.levels[0], i, p);
        }
      }
      HitDominates(v, fs, maxLevel, 0, m, j, b, k, x);
    }
  }
}
