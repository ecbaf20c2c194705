// What a committed compaction preserves: disjoint levels, the newest version of every key, every read.
module Meaning {
  import opened Keys
  import opened Merge
  import opened Manifest
  import opened Levels
  import opened Compaction
  import opened Commit

  // ---- Outputs ----

  lemma InputsSound(v: Version, fs: Files, job: Job, maxLevel: nat)
    requires VersionOk(v, fs, maxLevel) && Picks(v, job, maxLevel)
    ensures OnDisk(Merging(v, job, maxLevel), fs)
    ensures var cs := Contents(Merging(v, job, maxLevel), fs); AllSorted(cs) && NamedKeys(cs)
    ensures forall m :: m in Inputs(v, job.level, job.n) ==> TableOk(m, fs)
  {
    hide Merging, Inputs, Less, Compacted, Flatten, Lo, Hi;
    var ins := Merging(v, job, maxLevel);
    MergingFacts(v, job, maxLevel);
    forall m | m in Inputs(v, job.level, job.n)
      ensures TableOk(m, fs)
    {
      InputMember(v, job.level, job.n, m);
    }
    forall m | m in ins
      ensures TableOk(m, fs)
    {
    }
    var cs := Contents(ins, fs);
    forall j | 0 <= j < |cs|
      ensures Sorted(cs[j]) && forall e: Entry :: e in cs[j] ==> e.key != []
    {
      assert ins[j] in ins;
    }
  }

  lemma OutputEntry(v: Version, fs: Files, job: Job, maxLevel: nat, m: Meta, e: Entry)
    requires VersionOk(v, fs, maxLevel) && JobOk(v, fs, job, maxLevel)
    requires m in job.outs && e in fs[m.id]
    ensures e in Compacted(Contents(Merging(v, job, maxLevel), fs), Bottom(job, maxLevel))
    ensures exists x :: x in Inputs(v, job.level, job.n) && e in fs[x.id]
  {
    hide Merging, Inputs, Less, Compacted;
    var ins := Merging(v, job, maxLevel);
    var cs, os := Contents(ins, fs), Contents(job.outs, fs);
    InputsSound(v, fs, job, maxLevel);
    var i :| 0 <= i < |job.outs| && job.outs[i] == m;
    assert e in os[i];
    FlattenMember(os, e);
    CompactedExact(cs, Bottom(job, maxLevel));
    var j :| 0 <= j < |cs| && e in cs[j];
    MergingMember(v, job, maxLevel, ins[j]);
    assert ins[j] in ins;
  }

  /** Rolled outputs hold one version per key, and their ranges are apart and in order. */
  lemma OutputsSpaced(v: Version, fs: Files, job: Job, maxLevel: nat)
    requires VersionOk(v, fs, maxLevel) && JobOk(v, fs, job, maxLevel)
    ensures LevelOk(job.outs, fs)
  {
    hide Merging, Inputs, Less, Compacted;
    var os := Contents(job.outs, fs);
    InputsSound(v, fs, job, maxLevel);
    CompactedExact(Contents(Merging(v, job, maxLevel), fs), Bottom(job, maxLevel));
    FlattenParts(os);
    forall i, j | 0 <= i < j < |job.outs|
      ensures Less(job.outs[i].last, job.outs[j].first)
    {
      assert job.outs[i] in job.outs && job.outs[j] in job.outs;
      assert TableOk(job.outs[i], fs) && TableOk(job.outs[j], fs);
      assert os[i][|os[i]| - 1] in os[i] && os[j][0] in os[j];
    }
    forall m | m in job.outs
      ensures Ascending(fs[m.id])
    {
      var i :| 0 <= i < |job.outs| && job.outs[i] == m;
      assert os[i] == fs[m.id];
    }
  }

  // ---- Levels stay disjoint ----

  ghost predicate Apart(a: Meta, b: Meta) {
    Less(a.last, b.first) || Less(b.last, a.first)
  }

  lemma SpacedApart(l: seq<Meta>, a: Meta, b: Meta)
    requires Spaced(l) && a in l && b in l && a != b
    ensures Apart(a, b)
  {
    var i :| 0 <= i < |l| && l[i] == a;
    var j :| 0 <= j < |l| && l[j] == b;
    assert i < j || j < i;
  }

  /** A file the compaction did not pick up is apart from every key it did. */
  lemma BystanderApart(v: Version, fs: Files, job: Job, maxLevel: nat, a: Meta, x: Meta, k: Bytes)
    requires VersionOk(v, fs, maxLevel) && Picks(v, job, maxLevel)
    requires a in v.levels[job.level + 1] && a !in Inputs(v, job.level, job.n)
    requires x in Inputs(v, job.level, job.n) && Covers(x, k)
    ensures var base := v.levels[job.level][..job.n];
            if Less(a.last, Lo(base)) then Less(a.last, k) else Less(Hi(base), a.first) && Less(k, a.first)
  {
    hide Less, Inputs, Lo, Hi;
    LessIsTotalOrder();
    var base := v.levels[job.level][..job.n];
    InputMember(v, job.level, job.n, a);
    InputMember(v, job.level, job.n, x);
    FirstNotAboveLast(a, fs);
    if x in base {
      HullCovers(base, x);
    } else {
      SpacedApart(v.levels[job.level + 1], a, x);
    }
  }

  lemma OutputApartFromBystander(v: Version, fs: Files, job: Job, maxLevel: nat, a: Meta, b: Meta)
    requires VersionOk(v, fs, maxLevel) && JobOk(v, fs, job, maxLevel)
    requires a in v.levels[job.level + 1] && a !in Inputs(v, job.level, job.n)
    requires b in job.outs
    ensures Apart(a, b)
  {
    hide Less, Inputs, Merging, Lo, Hi, Compacted, VersionOk;
    var es := fs[b.id];
    WrittenApart(v, fs, job, maxLevel, a, b, es[0]);
    WrittenApart(v, fs, job, maxLevel, a, b, es[|es| - 1]);
  }

  lemma WrittenApart(v: Version, fs: Files, job: Job, maxLevel: nat, a: Meta, b: Meta, e: Entry)
    requires VersionOk(v, fs, maxLevel) && JobOk(v, fs, job, maxLevel)
    requires a in v.levels[job.level + 1] && a !in Inputs(v, job.level, job.n)
    requires b in job.outs && e in fs[b.id]
    ensures if Less(a.last, Lo(v.levels[job.level][..job.n])) then Less(a.last, e.key) else Less(e.key, a.first)
  {
    hide Less, Inputs, Merging, Lo, Hi, Compacted, VersionOk;
    InputsSound(v, fs, job, maxLevel);
    OutputEntry(v, fs, job, maxLevel, b, e);
    var x :| x in Inputs(v, job.level, job.n) && e in fs[x.id];
    KeysCovered(x, fs, e);
    BystanderApart(v, fs, job, maxLevel, a, x, e.key);
  }

  /** Files pairwise apart and sorted by first key are in order. */
  lemma ApartSpaced(l: seq<Meta>, fs: Files)
    requires TablesOk(l, fs) && DistinctIds(l) && RankOrdered(FirstKey, l)
    requires forall a, b :: a in l && b in l && a != b ==> Apart(a, b)
    ensures Spaced(l)
  {
    hide Less;
    LessIsTotalOrder();
    forall i, j | 0 <= i < j < |l|
      ensures Less(l[i].last, l[j].first)
    {
      assert l[i] in l && l[j] in l && l[i] != l[j];
      assert !Ranked(FirstKey, l[j], l[i]);
      FirstNotAboveLast(l[j], fs);
    }
  }

  lemma OutLevelOk(v: Version, w: Version, fs: Files, job: Job, maxLevel: nat)
    requires VersionOk(v, fs, maxLevel) && JobOk(v, fs, job, maxLevel) && Replaced(v, w, job, maxLevel)
    ensures LevelOk(w.levels[job.level + 1], fs)
  {
    hide Less, Inputs, Merging, Compacted, Ranked;
    var out := job.level + 1;
    var l := w.levels[out];
    OutputsSpaced(v, fs, job, maxLevel);
    forall a, b | a in l && b in l && a != b
      ensures Apart(a, b)
    {
      if a in job.outs && b in job.outs {
        SpacedApart(job.outs, a, b);
      } else if a in job.outs {
        OutputApartFromBystander(v, fs, job, maxLevel, b, a);
      } else if b in job.outs {
        OutputApartFromBystander(v, fs, job, maxLevel, a, b);
      } else {
        ReplacedOrigin(v, w, job, maxLevel, out, a);
        ReplacedOrigin(v, w, job, maxLevel, out, b);
        SpacedApart(v.levels[out], a, b);
      }
    }
    ApartSpaced(l, fs);
  }

  lemma InLevelOk(v: Version, w: Version, fs: Files, job: Job, maxLevel: nat)
    requires VersionOk(v, fs, maxLevel) && Picks(v, job, maxLevel) && Replaced(v, w, job, maxLevel)
    ensures TablesOk(w.levels[job.level], fs)
    ensures job.level >= 1 ==> LevelOk(w.levels[job.level], fs)
  {
    hide Less, Inputs, Ranked;
    var l := w.levels[job.level];
    if job.level >= 1 {
      forall a, b | a in l && b in l && a != b
        ensures Apart(a, b)
      {
        SpacedApart(v.levels[job.level], a, b);
      }
      ApartSpaced(l, fs);
    }
  }

  lemma ReplacedOrigin(v: Version, w: Version, job: Job, maxLevel: nat, i: nat, x: Meta)
    requires Picks(v, job, maxLevel) && Replaced(v, w, job, maxLevel)
    requires i < MAX_LEVELS && x in w.levels[i]
    ensures x in v.levels[i] || (i == job.level + 1 && x in job.outs)
  {
    hide Inputs;
  }

  lemma IdsStayDistinct(v: Version, w: Version, fs: Files, job: Job, maxLevel: nat)
    requires VersionOk(v, fs, maxLevel) && JobOk(v, fs, job, maxLevel) && Replaced(v, w, job, maxLevel)
    ensures AscendingIds(w.levels[0])
    ensures forall i, j, a, b :: 0 <= i < j < MAX_LEVELS && a in w.levels[i] && b in w.levels[j] ==> a.id != b.id
  {
    hide Inputs, Merging, Compacted, Ranked, LevelOk, TablesOk, Less;
    forall i, j, a, b | 0 <= i < j < MAX_LEVELS && a in w.levels[i] && b in w.levels[j]
      ensures a.id != b.id
    {
      ReplacedOrigin(v, w, job, maxLevel, i, a);
      ReplacedOrigin(v, w, job, maxLevel, j, b);
    }
  }

  /** A compaction leaves a version that satisfies every invariant, its files still on disk. */
  lemma CommitKeepsVersionOk(v: Version, fs: Files, job: Job, maxLevel: nat)
    requires VersionOk(v, fs, maxLevel) && JobOk(v, fs, job, maxLevel)
    ensures Applicable(v, job, maxLevel)
    ensures VersionOk(Committed(v, job, maxLevel), fs, maxLevel)
  {
    hide Less, Inputs, Merging, Compacted, Ranked, Committed, LevelOk, TablesOk;
    CommitReplaces(v, fs, job, maxLevel);
    var w := Committed(v, job, maxLevel);
    OutLevelOk(v, w, fs, job, maxLevel);
    InLevelOk(v, w, fs, job, maxLevel);
    IdsStayDistinct(v, w, fs, job, maxLevel);
    forall i | 0 <= i < MAX_LEVELS
      ensures TablesOk(w.levels[i], fs) && (i >= 1 ==> LevelOk(w.levels[i], fs))
    {
      if i == job.level + 1 {
        LevelOkTables(w.levels[i], fs);
      } else if i != job.level {
        assert w.levels[i] == v.levels[i];
      }
    }
  }

  lemma LevelOkTables(l: seq<Meta>, fs: Files)
    requires LevelOk(l, fs)
    ensures TablesOk(l, fs)
  {
  }

  // ---- The newest version of every key ----

  /** e is in a file the version references. */
  ghost predicate Held(v: Version, fs: Files, e: Entry)
    requires v.WellFormed()
  {
    exists i, m :: 0 <= i < MAX_LEVELS && m in v.levels[i] && m.id in fs && e in fs[m.id]
  }

  ghost predicate NewestHeld(v: Version, fs: Files, k: Bytes, e: Entry)
    requires v.WellFormed()
  {
    Held(v, fs, e) && e.key == k && forall x :: Held(v, fs, x) && x.key == k ==> x.seqno <= e.seqno
  }

  ghost predicate HeldCoherent(v: Version, fs: Files)
    requires v.WellFormed()
  {
    forall a, b :: Held(v, fs, a) && Held(v, fs, b) && a.seqno == b.seqno ==> a == b
  }

  /** File a at level i is read before file b at level j. */
  predicate ReadBefore(i: nat, a: Meta, j: nat, b: Meta) {
    i < j || (i == j == 0 && a.id > b.id)
  }

  /** A file read earlier holds the newer version of every key it shares with a later one. */
  ghost predicate FileLayered(v: Version, fs: Files)
    requires v.WellFormed()
  {
    forall i, a, j, b, k {:trigger a in v.levels[i], b in v.levels[j], Find(fs[a.id], k), Find(fs[b.id], k)} ::
      0 <= i < MAX_LEVELS && 0 <= j < MAX_LEVELS && a in v.levels[i] && b in v.levels[j]
      && a.id in fs && b.id in fs && ReadBefore(i, a, j, b)
      && Find(fs[a.id], k).Some? && Find(fs[b.id], k).Some?
      ==> Find(fs[a.id], k).value.seqno >= Find(fs[b.id], k).value.seqno
  }

  lemma FindIn(es: seq<Entry>, k: Bytes, e: Entry)
    requires Sorted(es) && e in es && e.key == k
    ensures Find(es, k).Some? && Find(es, k).value in es && Find(es, k).value.key == k
    ensures e.seqno <= Find(es, k).value.seqno
  {
    FindIsNewest(es, k);
  }

  lemma HeldBy(v: Version, fs: Files, i: nat, m: Meta, e: Entry)
    requires v.WellFormed() && i < MAX_LEVELS && m in v.levels[i] && m.id in fs && e in fs[m.id]
    ensures Held(v, fs, e)
  {
  }

  /** The newest version of k among the inputs is written, unless it is dropped at the bottom. */
  lemma InputNewest(v: Version, fs: Files, job: Job, maxLevel: nat, x: Meta, e: Entry)
      returns (n: Entry, y: Meta, o: Option<Meta>)
    requires VersionOk(v, fs, maxLevel) && JobOk(v, fs, job, maxLevel)
    requires x in Inputs(v, job.level, job.n) && e in fs[x.id]
    ensures n.key == e.key && e.seqno <= n.seqno
    ensures y in Inputs(v, job.level, job.n) && y.id in fs && n in fs[y.id]
    ensures forall z, f :: z in Inputs(v, job.level, job.n) && f in fs[z.id] && f.key == e.key ==> f.seqno <= n.seqno
    ensures match o
            case Some(m) => m in job.outs && m.id in fs && n in fs[m.id]
            case None => Bottom(job, maxLevel) && n.kind.Deletion?
  {
    hide Merging, Inputs, Less, Compacted, Lo, Hi, VersionOk, AllSorted, NamedKeys;
    var ins := Merging(v, job, maxLevel);
    var cs, bottom := Contents(ins, fs), Bottom(job, maxLevel);
    InputsSound(v, fs, job, maxLevel);
    CompactedExact(cs, bottom);
    FirstHitNone(cs, e.key);
    var i := PositionOf(v, fs, job, maxLevel, x);
    assert e in cs[i];
    n :| IsNewest(cs, e.key, n) && (n in Compacted(cs, bottom) || (bottom && n.kind.Deletion?));
    var j :| 0 <= j < |cs| && n in cs[j];
    y := ins[j];
    assert y in ins;
    MergingMember(v, job, maxLevel, y);
    forall z, f | z in Inputs(v, job.level, job.n) && f in fs[z.id] && f.key == e.key
      ensures f.seqno <= n.seqno
    {
      var h := PositionOf(v, fs, job, maxLevel, z);
      assert f in cs[h];
    }
    o := if n in Compacted(cs, bottom) then Some(WriterOf(v, fs, job, maxLevel, n)) else None;
  }

  /** The output file that holds a written entry. */
  ghost function WriterOf(v: Version, fs: Files, job: Job, maxLevel: nat, n: Entry): (m: Meta)
    requires JobOk(v, fs, job, maxLevel)
    requires n in Compacted(Contents(Merging(v, job, maxLevel), fs), Bottom(job, maxLevel))
    ensures m in job.outs && m.id in fs && n in fs[m.id]
  {
    hide Merging, Compacted, Inputs;
    var os := Contents(job.outs, fs);
    FlattenMember(os, n);
    var h :| 0 <= h < |os| && n in os[h];
    job.outs[h]
  }

  lemma PositionOf(v: Version, fs: Files, job: Job, maxLevel: nat, x: Meta) returns (i: nat)
    requires JobOk(v, fs, job, maxLevel) && x in Inputs(v, job.level, job.n)
    ensures i < |Merging(v, job, maxLevel)| && Merging(v, job, maxLevel)[i] == x
    ensures Contents(Merging(v, job, maxLevel), fs)[i] == fs[x.id]
  {
    hide Merging, Inputs, Compacted, Flatten;
    MergingMember(v, job, maxLevel, x);
    i :| 0 <= i < |Merging(v, job, maxLevel)| && Merging(v, job, maxLevel)[i] == x;
  }

  /** w lies between v and the committed version: every bystander is there, and all outputs or all inputs. */
  ghost predicate Between(v: Version, w: Version, job: Job, maxLevel: nat)
    requires Picks(v, job, maxLevel)
  {
    && w.WellFormed()
    && (forall i, x {:trigger x in w.levels[i]} :: 0 <= i < MAX_LEVELS && x in w.levels[i] ==>
          x in v.levels[i] || (i == job.level + 1 && x in job.outs))
    && (forall i, x {:trigger x in v.levels[i]} ::
          0 <= i < MAX_LEVELS && x in v.levels[i] && x !in Inputs(v, job.level, job.n) ==> x in w.levels[i])
    && ((forall x :: x in job.outs ==> x in w.levels[job.level + 1])
        || (forall i, x {:trigger x in v.levels[i]} :: 0 <= i < MAX_LEVELS && x in v.levels[i] ==> x in w.levels[i]))
  }

  lemma InputIsFile(v: Version, job: Job, maxLevel: nat, x: Meta)
    requires Picks(v, job, maxLevel) && x in Inputs(v, job.level, job.n)
    ensures x in v.levels[job.level] || x in v.levels[job.level + 1]
  {
    hide Inputs, Lo, Hi, Less;
    InputMember(v, job.level, job.n, x);
  }

  lemma BetweenHolds(v: Version, w: Version, fs: Files, job: Job, maxLevel: nat, e: Entry)
    requires VersionOk(v, fs, maxLevel) && JobOk(v, fs, job, maxLevel) && Between(v, w, job, maxLevel)
    requires Held(w, fs, e)
    ensures Held(v, fs, e)
  {
    hide Inputs, Less, Merging, Compacted, LevelOk, TablesOk, Ranked;
    var i, m :| 0 <= i < MAX_LEVELS && m in w.levels[i] && m.id in fs && e in fs[m.id];
    if m !in v.levels[i] {
      OutputEntry(v, fs, job, maxLevel, m, e);
      var x :| x in Inputs(v, job.level, job.n) && e in fs[x.id];
      InputIsFile(v, job, maxLevel, x);
    }
  }

  /** Whatever v holds, w holds a version at least as new, unless a tombstone was dropped. */
  lemma HeldOrSuperseded(v: Version, w: Version, fs: Files, job: Job, maxLevel: nat, e: Entry) returns (n: Entry)
    requires VersionOk(v, fs, maxLevel) && JobOk(v, fs, job, maxLevel)
    requires Picks(v, job, maxLevel) && Between(v, w, job, maxLevel)
    requires Held(v, fs, e)
    ensures n.key == e.key && e.seqno <= n.seqno && Held(v, fs, n)
    ensures Held(w, fs, n) || (Bottom(job, maxLevel) && n.kind.Deletion?)
  {
    hide Inputs, VersionOk, JobOk;
    var i, m :| 0 <= i < MAX_LEVELS && m in v.levels[i] && m.id in fs && e in fs[m.id];
    n := e;
    if m in w.levels[i] {
      HeldBy(w, fs, i, m, e);
    } else {
      var y, o;
      n, y, o := InputNewest(v, fs, job, maxLevel, m, e);
      InputIsFile(v, job, maxLevel, y);
      HeldBy(v, fs, if y in v.levels[job.level] then job.level else job.level + 1, y, n);
      if o.Some? {
        HeldBy(w, fs, job.level + 1, o.value, n);
      }
    }
  }

  /**
   * While a compaction's edits are being applied, and whatever part of them has been, the newest
   * version of every key over all referenced files is what it was, if no tombstone is dropped.
   */
  lemma NewestUnchanged(v: Version, w: Version, fs: Files, job: Job, maxLevel: nat, k: Bytes, e: Entry)
    requires VersionOk(v, fs, maxLevel) && JobOk(v, fs, job, maxLevel)
    requires w.WellFormed() && Picks(v, job, maxLevel) && Between(v, w, job, maxLevel)
    requires HeldCoherent(v, fs) && !Bottom(job, maxLevel)
    ensures NewestHeld(w, fs, k, e) <==> NewestHeld(v, fs, k, e)
  {
    hide Held, Between, VersionOk, JobOk;
    forall x | Held(w, fs, x)
      ensures Held(v, fs, x)
    {
      BetweenHolds(v, w, fs, job, maxLevel, x);
    }
    if NewestHeld(v, fs, k, e) {
      var n := HeldOrSuperseded(v, w, fs, job, maxLevel, e);
    }
    if NewestHeld(w, fs, k, e) {
      forall x | Held(v, fs, x) && x.key == k
        ensures x.seqno <= e.seqno
      {
        var n := HeldOrSuperseded(v, w, fs, job, maxLevel, x);
      }
    }
  }

  // ---- Prefixes of the edit list ----

  lemma AddPrefixBetween(v: Version, fs: Files, job: Job, maxLevel: nat, j: nat)
    requires VersionOk(v, fs, maxLevel) && JobOk(v, fs, job, maxLevel) && j <= |job.outs|
    ensures forall e :: e in Adds(job.outs[..j]) ==> InRange(e)
    ensures Between(v, UpdateAll(v, Adds(job.outs[..j])), job, maxLevel)
  {
    hide Inputs, Less, Merging, Compacted, LevelOk, TablesOk, Ranked, UpdateAll;
    OutputsFresh(v, fs, job, maxLevel);
    PrefixDistinct(v.levels[job.level + 1], job.outs, j);
    AddAll(v, job.outs[..j], job.level + 1);
  }

  lemma DeletePrefixBetween(v: Version, fs: Files, job: Job, maxLevel: nat, d: nat)
    requires VersionOk(v, fs, maxLevel) && JobOk(v, fs, job, maxLevel) && d <= |Merging(v, job, maxLevel)|
    ensures var es := Adds(job.outs) + Deletes(Merging(v, job, maxLevel)[..d]);
            (forall e :: e in es ==> InRange(e)) && Between(v, UpdateAll(v, es), job, maxLevel)
  {
    hide Inputs, Less, Merging, Compacted, LevelOk, TablesOk, Ranked, UpdateAll, Minus, Hits;
    var out, ins := job.level + 1, Merging(v, job, maxLevel);
    OutputsFresh(v, fs, job, maxLevel);
    MergingFacts(v, job, maxLevel);
    AddAll(v, job.outs, out);
    var u := UpdateAll(v, Adds(job.outs));
    DeleteAll(u, ins[..d]);
    UpdateAllConcat(v, Adds(job.outs), Deletes(ins[..d]));
    var w := UpdateAll(u, Deletes(ins[..d]));
    forall i: nat, x: Meta | Hits(ins[..d], i, x.id)
      ensures Hits(ins, i, x.id)
    {
      HitsPrefix(ins, d, i, x.id);
    }
    forall i: nat, x | i < MAX_LEVELS && x in v.levels[i] && x !in Inputs(v, job.level, job.n)
      ensures x in w.levels[i]
    {
      HitsInputs(v, job, maxLevel, i, x);
      assert x in u.levels[i];
    }
    forall x | x in job.outs
      ensures x in w.levels[out]
    {
      assert x in u.levels[out];
    }
  }

  lemma HitsPrefix(ds: seq<Meta>, d: nat, i: nat, id: nat)
    requires d <= |ds| && Hits(ds[..d], i, id)
    ensures Hits(ds, i, id)
  {
    var x :| x in ds[..d] && x.level == i && x.id == id;
    assert x in ds;
  }

  /**
   * At every prefix of a compaction's manifest edits the map from key to newest version over all
   * referenced files is unchanged, provided the output level is not the bottom one.
   */
  lemma EditPrefixKeepsNewest(v: Version, fs: Files, job: Job, maxLevel: nat, j: nat, k: Bytes, e: Entry)
    requires VersionOk(v, fs, maxLevel) && JobOk(v, fs, job, maxLevel)
    requires HeldCoherent(v, fs) && !Bottom(job, maxLevel)
    requires j <= |CommitEdits(v, job, maxLevel)|
    ensures forall x :: x in CommitEdits(v, job, maxLevel)[..j] ==> InRange(x)
    ensures NewestHeld(UpdateAll(v, CommitEdits(v, job, maxLevel)[..j]), fs, k, e) <==> NewestHeld(v, fs, k, e)
  {
    hide NewestHeld, VersionOk, Merging, UpdateAll, HeldCoherent, Compacted, Inputs;
    var es, n := CommitEdits(v, job, maxLevel), |job.outs|;
    if j <= n {
      assert es[..j] == Adds(job.outs[..j]);
      AddPrefixBetween(v, fs, job, maxLevel, j);
    } else {
      assert es[..j] == Adds(job.outs) + Deletes(Merging(v, job, maxLevel)[..j - n]);
      DeletePrefixBetween(v, fs, job, maxLevel, j - n);
    }
    NewestUnchanged(v, UpdateAll(v, es[..j]), fs, job, maxLevel, k, e);
  }

  // ---- The committed version ----

  lemma BothCover(l: seq<Meta>, a: Meta, b: Meta, k: Bytes)
    requires Spaced(l) && a in l && b in l && Covers(a, k) && Covers(b, k)
    ensures a == b
  {
    hide Less;
    LessIsTotalOrder();
    if a != b {
      SpacedApart(l, a, b);
    }
  }

  lemma FindCovered(m: Meta, fs: Files, k: Bytes)
    requires TableOk(m, fs) && Find(fs[m.id], k).Some?
    ensures Covers(m, k) && Find(fs[m.id], k).value in fs[m.id] && Find(fs[m.id], k).value.key == k
  {
    FindIsNewest(fs[m.id], k);
    KeysCovered(m, fs, Find(fs[m.id], k).value);
  }

  lemma LaterInL0(l: seq<Meta>, n: nat, x: Meta, f: Meta)
    requires AscendingIds(l) && n <= |l| && x in l[..n] && f in l && f !in l[..n]
    ensures f.id > x.id
  {
    var p :| 0 <= p < n && l[p] == x;
    var q :| 0 <= q < |l| && l[q] == f;
    assert forall t :: 0 <= t < n ==> l[t] in l[..n];
  }

  /** A file the compaction leaves alone holds nothing older than the inputs do. */
  lemma BystanderNewer(v: Version, fs: Files, job: Job, maxLevel: nat, i: nat, f: Meta, x: Meta, k: Bytes)
    requires VersionOk(v, fs, maxLevel) && FileLayered(v, fs) && Picks(v, job, maxLevel)
    requires i <= job.level + 1 && f in v.levels[i] && f !in Inputs(v, job.level, job.n)
    requires x in Inputs(v, job.level, job.n) && f.id in fs && x.id in fs
    requires Find(fs[f.id], k).Some? && Find(fs[x.id], k).Some?
    ensures Find(fs[f.id], k).value.seqno >= Find(fs[x.id], k).value.seqno
  {
    hide Less, Inputs, Lo, Hi, Ranked;
    LessIsTotalOrder();
    InputMember(v, job.level, job.n, x);
    InputMember(v, job.level, job.n, f);
    var j := if x in v.levels[job.level][..job.n] then job.level else job.level + 1;
    assert x in v.levels[j] && TableOk(x, fs) && TableOk(f, fs);
    FindCovered(x, fs, k);
    FindCovered(f, fs, k);
    if i == job.level + 1 {
      BystanderApart(v, fs, job, maxLevel, f, x, k);
    } else if i < j {
      assert ReadBefore(i, f, j, x);
    } else if job.level == 0 {
      LaterInL0(v.levels[0], job.n, x, f);
      assert ReadBefore(i, f, j, x);
    } else {
      BothCover(v.levels[i], f, x, k);
    }
  }

  lemma OutputHit(v: Version, fs: Files, job: Job, maxLevel: nat, o: Meta, k: Bytes) returns (j: nat, x: Meta)
    requires VersionOk(v, fs, maxLevel) && JobOk(v, fs, job, maxLevel)
    requires o in job.outs && o.id in fs && Find(fs[o.id], k).Some?
    ensures j == job.level || j == job.level + 1
    ensures x in Inputs(v, job.level, job.n) && x in v.levels[j] && x.id in fs
    ensures Find(fs[x.id], k).Some?
    ensures Find(fs[x.id], k).value.seqno == Find(fs[o.id], k).value.seqno
  {
    hide Less, Inputs, Merging, Compacted;
    FindCovered(o, fs, k);
    var e := Find(fs[o.id], k).value;
    OutputEntry(v, fs, job, maxLevel, o, e);
    x :| x in Inputs(v, job.level, job.n) && e in fs[x.id];
    InputIsFile(v, job, maxLevel, x);
    j := if x in v.levels[job.level] then job.level else job.level + 1;
    InputsSound(v, fs, job, maxLevel);
    FindIn(fs[x.id], k, e);
    var n := PositionOf(v, fs, job, maxLevel, x);
    CompactedExact(Contents(Merging(v, job, maxLevel), fs), Bottom(job, maxLevel));
  }

  lemma CommittedPair(v: Version, w: Version, fs: Files, job: Job, maxLevel: nat,
                      i: nat, a: Meta, j: nat, b: Meta, k: Bytes)
    requires VersionOk(v, fs, maxLevel) && JobOk(v, fs, job, maxLevel) && FileLayered(v, fs)
    requires Picks(v, job, maxLevel) && w.WellFormed() && Replaced(v, w, job, maxLevel)
    requires i < MAX_LEVELS && j < MAX_LEVELS && a in w.levels[i] && b in w.levels[j]
    requires a.id in fs && b.id in fs && ReadBefore(i, a, j, b)
    requires Find(fs[a.id], k).Some? && Find(fs[b.id], k).Some?
    ensures Find(fs[a.id], k).value.seqno >= Find(fs[b.id], k).value.seqno
  {
    hide VersionOk, JobOk, Inputs, FileLayered, Replaced, Find;
    ReplacedOrigin(v, w, job, maxLevel, i, a);
    ReplacedOrigin(v, w, job, maxLevel, j, b);
    if a in v.levels[i] && b in v.levels[j] {
      LayeredPair(v, fs, i, a, j, b, k);
    } else if b in v.levels[j] {
      var h, x := OutputHit(v, fs, job, maxLevel, a, k);
      LayeredPair(v, fs, h, x, j, b, k);
    } else {
      var h, x := OutputHit(v, fs, job, maxLevel, b, k);
      KeptIsBystander(v, w, fs, job, maxLevel, i, a);
      BystanderNewer(v, fs, job, maxLevel, i, a, x, k);
    }
  }

  /** Reading order keeps newer versions first across a commit. */
  lemma CommitKeepsLayered(v: Version, w: Version, fs: Files, job: Job, maxLevel: nat)
    requires VersionOk(v, fs, maxLevel) && JobOk(v, fs, job, maxLevel) && FileLayered(v, fs)
    requires Picks(v, job, maxLevel) && w.WellFormed() && Replaced(v, w, job, maxLevel)
    ensures FileLayered(w, fs)
  {
    hide VersionOk, JobOk, Replaced, Find;
    forall i, a, j, b, k | 0 <= i < MAX_LEVELS && 0 <= j < MAX_LEVELS && a in w.levels[i] && b in w.levels[j]
                           && a.id in fs && b.id in fs && ReadBefore(i, a, j, b)
                           && Find(fs[a.id], k).Some? && Find(fs[b.id], k).Some?
      ensures Find(fs[a.id], k).value.seqno >= Find(fs[b.id], k).value.seqno
    {
      CommittedPair(v, w, fs, job, maxLevel, i, a, j, b, k);
    }
  }

  lemma LayeredPair(v: Version, fs: Files, i: nat, a: Meta, j: nat, b: Meta, k: Bytes)
    requires v.WellFormed() && FileLayered(v, fs)
    requires i < MAX_LEVELS && j < MAX_LEVELS && a in v.levels[i] && b in v.levels[j]
    requires a.id in fs && b.id in fs && ReadBefore(i, a, j, b)
    requires Find(fs[a.id], k).Some? && Find(fs[b.id], k).Some?
    ensures Find(fs[a.id], k).value.seqno >= Find(fs[b.id], k).value.seqno
  {
  }

  lemma KeptIsBystander(v: Version, w: Version, fs: Files, job: Job, maxLevel: nat, i: nat, a: Meta)
    requires VersionOk(v, fs, maxLevel) && Picks(v, job, maxLevel) && Replaced(v, w, job, maxLevel)
    requires i <= job.level && a in w.levels[i] && a in v.levels[i]
    ensures a !in Inputs(v, job.level, job.n)
  {
    hide Inputs, Less, Lo, Hi;
    InputMember(v, job.level, job.n, a);
  }

  /** At the bottom no output holds a key whose newest input version is a tombstone. */
  lemma DroppedNotWritten(v: Version, fs: Files, job: Job, maxLevel: nat, y: Meta, n: Entry, f: Meta, z: Entry)
    requires VersionOk(v, fs, maxLevel) && JobOk(v, fs, job, maxLevel) && HeldCoherent(v, fs)
    requires Bottom(job, maxLevel) && n.kind.Deletion?
    requires y in Inputs(v, job.level, job.n) && y.id in fs && n in fs[y.id]
    requires forall x, e :: x in Inputs(v, job.level, job.n) && e in fs[x.id] && e.key == n.key ==> e.seqno <= n.seqno
    requires f in job.outs && f.id in fs && z in fs[f.id]
    ensures z.key != n.key
  {
    hide Inputs, Less, Merging, Compacted, Held, VersionOk;
    OutputEntry(v, fs, job, maxLevel, f, z);
    InputsSound(v, fs, job, maxLevel);
    var cs := Contents(Merging(v, job, maxLevel), fs);
    CompactedExact(cs, true);
    var x :| x in Inputs(v, job.level, job.n) && z in fs[x.id];
    var h := PositionOf(v, fs, job, maxLevel, y);
    assert n in cs[h];
    if z.key == n.key {
      InputHeld(v, fs, job, maxLevel, x, z);
      InputHeld(v, fs, job, maxLevel, y, n);
    }
  }

  lemma InputHeld(v: Version, fs: Files, job: Job, maxLevel: nat, x: Meta, e: Entry)
    requires Picks(v, job, maxLevel) && x in Inputs(v, job.level, job.n) && x.id in fs && e in fs[x.id]
    ensures Held(v, fs, e)
  {
    hide Inputs;
    InputIsFile(v, job, maxLevel, x);
    HeldBy(v, fs, if x in v.levels[job.level] then job.level else job.level + 1, x, e);
  }

  /** A file of the committed version that is not an output was not an input either. */
  lemma SurvivorIsBystander(v: Version, w: Version, fs: Files, job: Job, maxLevel: nat, i: nat, f: Meta)
    requires VersionOk(v, fs, maxLevel) && Picks(v, job, maxLevel) && Replaced(v, w, job, maxLevel)
    requires i < MAX_LEVELS && f in w.levels[i] && f !in job.outs && Bottom(job, maxLevel)
    ensures i <= job.level + 1 && f in v.levels[i] && f !in Inputs(v, job.level, job.n)
  {
    hide Inputs, Less, Lo, Hi;
    ReplacedOrigin(v, w, job, maxLevel, i, f);
    InputMember(v, job.level, job.n, f);
  }

  lemma Superseded(v: Version, w: Version, fs: Files, job: Job, maxLevel: nat, x: Entry) returns (n: Entry)
    requires VersionOk(v, fs, maxLevel) && JobOk(v, fs, job, maxLevel) && FileLayered(v, fs) && HeldCoherent(v, fs)
    requires Picks(v, job, maxLevel) && w.WellFormed() && Replaced(v, w, job, maxLevel)
    requires Between(v, w, job, maxLevel) && Held(v, fs, x)
    ensures n.key == x.key && x.seqno <= n.seqno && Held(v, fs, n)
    ensures Held(w, fs, n)
         || (Bottom(job, maxLevel) && n.kind.Deletion? && forall z :: Held(w, fs, z) ==> z.key != x.key)
  {
    hide Inputs, VersionOk, JobOk, FileLayered, HeldCoherent, Replaced, Find;
    var i, m :| 0 <= i < MAX_LEVELS && m in v.levels[i] && m.id in fs && x in fs[m.id];
    n := x;
    if m in w.levels[i] {
      HeldBy(w, fs, i, m, x);
    } else {
      var y, o;
      n, y, o := InputNewest(v, fs, job, maxLevel, m, x);
      InputHeld(v, fs, job, maxLevel, y, n);
      if o.Some? {
        HeldBy(w, fs, job.level + 1, o.value, n);
      } else if z :| Held(w, fs, z) && z.key == x.key {
        n := NewerBystander(v, w, fs, job, maxLevel, y, n, z);
        BetweenHolds(v, w, fs, job, maxLevel, n);
      }
    }
  }

  lemma NewerBystander(v: Version, w: Version, fs: Files, job: Job, maxLevel: nat, y: Meta, n: Entry, z: Entry)
      returns (r: Entry)
    requires VersionOk(v, fs, maxLevel) && JobOk(v, fs, job, maxLevel) && FileLayered(v, fs) && HeldCoherent(v, fs)
    requires Picks(v, job, maxLevel) && w.WellFormed() && Replaced(v, w, job, maxLevel)
    requires Bottom(job, maxLevel) && n.kind.Deletion?
    requires y in Inputs(v, job.level, job.n) && y.id in fs && n in fs[y.id]
    requires forall x, e :: x in Inputs(v, job.level, job.n) && e in fs[x.id] && e.key == n.key ==> e.seqno <= n.seqno
    requires Held(w, fs, z) && z.key == n.key
    ensures Held(w, fs, r) && r.key == n.key && n.seqno <= r.seqno
  {
    hide Inputs, JobOk, FileLayered, HeldCoherent, Replaced, Find, Less, Ranked;
    var i, f :| 0 <= i < MAX_LEVELS && f in w.levels[i] && f.id in fs && z in fs[f.id];
    if f in job.outs {
      DroppedNotWritten(v, fs, job, maxLevel, y, n, f, z);
      r := z;
    } else {
      SurvivorIsBystander(v, w, fs, job, maxLevel, i, f);
      InputIsFile(v, job, maxLevel, y);
      assert TableOk(f, fs) && TableOk(y, fs);
      FindIn(fs[f.id], n.key, z);
      FindIn(fs[y.id], n.key, n);
      BystanderNewer(v, fs, job, maxLevel, i, f, y, n.key);
      r := Find(fs[f.id], n.key).value;
      HeldBy(w, fs, i, f, r);
    }
  }

  lemma ReplacedIsBetween(v: Version, w: Version, fs: Files, job: Job, maxLevel: nat)
    requires VersionOk(v, fs, maxLevel) && JobOk(v, fs, job, maxLevel) && Replaced(v, w, job, maxLevel)
    ensures Between(v, w, job, maxLevel)
  {
    hide Inputs, Less, Lo, Hi, Merging, Compacted;
    forall i: nat, x | i < MAX_LEVELS && x in w.levels[i]
      ensures x in v.levels[i] || (i == job.level + 1 && x in job.outs)
    {
      ReplacedOrigin(v, w, job, maxLevel, i, x);
    }
    forall i: nat, x | i < MAX_LEVELS && x in v.levels[i] && x !in Inputs(v, job.level, job.n)
      ensures x in w.levels[i]
    {
      InputMember(v, job.level, job.n, x);
      assert Kept(v, job, maxLevel, i, x);
    }
  }

  /**
   * A completed compaction changes no key's newest version, except that a tombstone reaching the
   * bottom disappears, and then nothing holds its key any more.
   */
  lemma CommitKeepsNewest(v: Version, fs: Files, job: Job, maxLevel: nat, k: Bytes, e: Entry)
    requires VersionOk(v, fs, maxLevel) && JobOk(v, fs, job, maxLevel) && FileLayered(v, fs) && HeldCoherent(v, fs)
    ensures Applicable(v, job, maxLevel)
    ensures var w := Committed(v, job, maxLevel);
            && (NewestHeld(w, fs, k, e) ==> NewestHeld(v, fs, k, e))
            && (NewestHeld(v, fs, k, e) ==>
                  || NewestHeld(w, fs, k, e)
                  || (Bottom(job, maxLevel) && e.kind.Deletion? && forall z :: Held(w, fs, z) ==> z.key != k))
  {
    hide Held, Between, FileLayered, Committed, Replaced, Compacted, Merging, Inputs;
    CommitReplaces(v, fs, job, maxLevel);
    var w := Committed(v, job, maxLevel);
    ReplacedIsBetween(v, w, fs, job, maxLevel);
    forall x | Held(w, fs, x)
      ensures Held(v, fs, x)
    {
      BetweenHolds(v, w, fs, job, maxLevel, x);
    }
    if NewestHeld(v, fs, k, e) {
      var n := Superseded(v, w, fs, job, maxLevel, e);
    }
    if NewestHeld(w, fs, k, e) {
      forall x | Held(v, fs, x) && x.key == k
        ensures x.seqno <= e.seqno
      {
        var n := Superseded(v, w, fs, job, maxLevel, x);
      }
    }
  }
}