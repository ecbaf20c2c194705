// A crash between the manifest edits of a compaction that drops tombstones: the inputs go one by
// one, and a tombstone's file can go before the file with the value it hides.
module BottomPrefix {
  import opened Keys
  import opened Manifest
  import opened Levels
  import opened Compaction
  import opened Commit
  import opened Meaning

  /** The two versions hold the same newest live value of k, or neither holds one. */
  ghost predicate SameLive(v: Version, w: Version, fs: Files, k: Bytes)
    requires v.WellFormed() && w.WellFormed()
  {
    forall e: Entry :: e.kind.Value? ==> (NewestHeld(w, fs, k, e) <==> NewestHeld(v, fs, k, e))
  }

  ghost predicate NewestIn(l: seq<Meta>, fs: Files, k: Bytes, z: Entry) {
    && z.key == k && InSome(l, fs, z)
    && forall x :: InSome(l, fs, x) && x.key == k ==> x.seqno <= z.seqno
  }

  ghost predicate InSome(l: seq<Meta>, fs: Files, z: Entry) {
    exists m :: m in l && m.id in fs && z in fs[m.id]
  }

  ghost predicate HeldOnlyBy(v: Version, fs: Files, t: Entry, gone: seq<Meta>)
    requires v.WellFormed()
  {
    forall i, m {:trigger m in v.levels[i]} ::
      0 <= i < MAX_LEVELS && m in v.levels[i] && m.id in fs && t in fs[m.id] ==> m in gone
  }

  /**
   * The newest version of k is a tombstone held only by inputs among the first d, and the newest
   * version in the other inputs is a value.
   */
  ghost predicate Exposed(v: Version, fs: Files, ins: seq<Meta>, d: nat, k: Bytes)
    requires v.WellFormed() && d <= |ins|
  {
    exists t, z :: NewestHeld(v, fs, k, t) && t.kind.Deletion? && HeldOnlyBy(v, fs, t, ins[..d])
                   && NewestIn(ins[d..], fs, k, z) && z.kind.Value?
  }

  /** w is v in the middle of a commit, with the first d inputs gone. */
  ghost predicate CutAt(v: Version, w: Version, job: Job, maxLevel: nat, d: nat)
    requires Picks(v, job, maxLevel) && d <= |Merging(v, job, maxLevel)|
  {
    && Between(v, w, job, maxLevel)
    && forall i, x {:trigger x in w.levels[i]} {:trigger x in v.levels[i]} ::
         0 <= i < MAX_LEVELS && x in v.levels[i] ==> (x in w.levels[i] <==> x !in Merging(v, job, maxLevel)[..d])
  }

  // ---- Prefixes of the edit list ----

  lemma AddsCut(v: Version, fs: Files, job: Job, maxLevel: nat, j: nat)
    requires VersionOk(v, fs, maxLevel) && JobOk(v, fs, job, maxLevel) && j <= |job.outs|
    ensures forall e :: e in Adds(job.outs[..j]) ==> InRange(e)
    ensures CutAt(v, UpdateAll(v, Adds(job.outs[..j])), job, maxLevel, 0)
  {
    hide Inputs, Less, Merging, Compacted, LevelOk, TablesOk, Ranked, UpdateAll, Between;
    AddPrefixBetween(v, fs, job, maxLevel, j);
    OutputsFresh(v, fs, job, maxLevel);
    PrefixDistinct(v.levels[job.level + 1], job.outs, j);
    AddAll(v, job.outs[..j], job.level + 1);
  }

  lemma HitsMember(v: Version, job: Job, maxLevel: nat, d: nat, i: nat, x: Meta)
    requires Tidy(v) && Picks(v, job, maxLevel) && d <= |Merging(v, job, maxLevel)|
    requires i < MAX_LEVELS && x in v.levels[i]
    ensures Hits(Merging(v, job, maxLevel)[..d], i, x.id) <==> x in Merging(v, job, maxLevel)[..d]
  {
    hide Merging, Inputs, Ranked;
    var gone := Merging(v, job, maxLevel)[..d];
    MergingFacts(v, job, maxLevel);
    if Hits(gone, i, x.id) {
      var y :| y in gone && y.level == i && y.id == x.id;
      assert y in Merging(v, job, maxLevel);
      SameId(v.levels[i], y, x);
    }
  }

  lemma DeletesCut(v: Version, fs: Files, job: Job, maxLevel: nat, d: nat)
    requires VersionOk(v, fs, maxLevel) && JobOk(v, fs, job, maxLevel) && d <= |Merging(v, job, maxLevel)|
    ensures var es := Adds(job.outs) + Deletes(Merging(v, job, maxLevel)[..d]);
            (forall e :: e in es ==> InRange(e)) && CutAt(v, UpdateAll(v, es), job, maxLevel, d)
  {
    hide Inputs, Less, Merging, Compacted, LevelOk, TablesOk, Ranked, UpdateAll, Minus, Hits, Between;
    var ins := Merging(v, job, maxLevel);
    DeletePrefixBetween(v, fs, job, maxLevel, d);
    OutputsFresh(v, fs, job, maxLevel);
    MergingFacts(v, job, maxLevel);
    AddAll(v, job.outs, job.level + 1);
    var u := UpdateAll(v, Adds(job.outs));
    DeleteAll(u, ins[..d]);
    UpdateAllConcat(v, Adds(job.outs), Deletes(ins[..d]));
    var w := UpdateAll(u, Deletes(ins[..d]));
    forall i, x | 0 <= i < MAX_LEVELS && x in v.levels[i]
      ensures x in w.levels[i] <==> x !in ins[..d]
    {
      HitsMember(v, job, maxLevel, d, i, x);
      assert x in u.levels[i];
    }
  }

  // ---- What is held at a cut ----

  lemma {:induction false} Greatest(s: set<Entry>) returns (g: Entry)
    requires s != {}
    ensures g in s && forall x :: x in s ==> x.seqno <= g.seqno
    decreases |s|
  {
    g :| g in s;
    if s != {g} {
      var h := Greatest(s - {g});
      if h.seqno > g.seqno { g := h; }
    }
  }

  lemma NewestExists(v: Version, fs: Files, e: Entry) returns (n: Entry)
    requires v.WellFormed() && Held(v, fs, e)
    ensures NewestHeld(v, fs, e.key, n)
  {
    var s := set i, m, x | 0 <= i < MAX_LEVELS && m in v.levels[i] && m.id in fs && x in fs[m.id] && x.key == e.key :: x;
    assert forall x :: x in s <==> Held(v, fs, x) && x.key == e.key;
    n := Greatest(s);
  }

  lemma OnlyNewest(v: Version, fs: Files, k: Bytes, a: Entry, b: Entry)
    requires v.WellFormed() && HeldCoherent(v, fs) && NewestHeld(v, fs, k, a) && NewestHeld(v, fs, k, b)
    ensures a == b
  {
  }

  /** A live newest version is never lost. */
  lemma ValueStays(v: Version, w: Version, fs: Files, job: Job, maxLevel: nat, k: Bytes, e: Entry)
    requires VersionOk(v, fs, maxLevel) && JobOk(v, fs, job, maxLevel) && HeldCoherent(v, fs)
    requires w.WellFormed() && Picks(v, job, maxLevel) && Between(v, w, job, maxLevel)
    requires NewestHeld(v, fs, k, e) && e.kind.Value?
    ensures NewestHeld(w, fs, k, e)
  {
    hide Held, Between, VersionOk, JobOk;
    var n := HeldOrSuperseded(v, w, fs, job, maxLevel, e);
    forall x | Held(w, fs, x)
      ensures Held(v, fs, x)
    {
      BetweenHolds(v, w, fs, job, maxLevel, x);
    }
  }

  /** No output holds the key of a newest tombstone that an input has. */
  lemma NotWritten(v: Version, fs: Files, job: Job, maxLevel: nat, y: Meta, t: Entry, f: Meta, z: Entry)
    requires VersionOk(v, fs, maxLevel) && JobOk(v, fs, job, maxLevel) && HeldCoherent(v, fs) && Bottom(job, maxLevel)
    requires NewestHeld(v, fs, t.key, t) && t.kind.Deletion?
    requires y in Inputs(v, job.level, job.n) && y.id in fs && t in fs[y.id]
    requires f in job.outs && f.id in fs && z in fs[f.id]
    ensures z.key != t.key
  {
    hide Inputs, Merging, Compacted, Held, VersionOk, HeldCoherent;
    forall x, e | x in Inputs(v, job.level, job.n) && e in fs[x.id] && e.key == t.key
      ensures e.seqno <= t.seqno
    {
      InputHeld(v, fs, job, maxLevel, x, e);
    }
    DroppedNotWritten(v, fs, job, maxLevel, y, t, f, z);
  }

  /** A bystander with the tombstone's key holds the tombstone itself. */
  lemma BystanderHolds(v: Version, fs: Files, job: Job, maxLevel: nat, y: Meta, t: Entry, i: nat, f: Meta, z: Entry)
    requires VersionOk(v, fs, maxLevel) && Picks(v, job, maxLevel) && FileLayered(v, fs) && HeldCoherent(v, fs)
    requires Bottom(job, maxLevel) && NewestHeld(v, fs, t.key, t)
    requires y in Inputs(v, job.level, job.n) && y.id in fs && t in fs[y.id]
    requires i < MAX_LEVELS && f in v.levels[i] && f !in Inputs(v, job.level, job.n)
    requires f.id in fs && z in fs[f.id] && z.key == t.key
    ensures t in fs[f.id]
  {
    hide Inputs, FileLayered, Find, VersionOk, Held;
    InputIsFile(v, job, maxLevel, y);
    var j := if y in v.levels[job.level] then job.level else job.level + 1;
    FileIsTable(v, fs, maxLevel, i, f);
    FileIsTable(v, fs, maxLevel, j, y);
    FindIn(fs[f.id], t.key, z);
    FindIn(fs[y.id], t.key, t);
    BystanderNewer(v, fs, job, maxLevel, i, f, y, t.key);
    HeldBy(v, fs, i, f, Find(fs[f.id], t.key).value);
  }

  lemma FileIsTable(v: Version, fs: Files, maxLevel: nat, i: nat, f: Meta)
    requires VersionOk(v, fs, maxLevel) && i < MAX_LEVELS && f in v.levels[i]
    ensures TableOk(f, fs) && Sorted(fs[f.id]) && i < maxLevel
  {
    hide Tidy, LevelOk, AscendingIds;
  }

  lemma InputHolder(v: Version, fs: Files, job: Job, maxLevel: nat, d: nat, t: Entry) returns (y: Meta)
    requires Picks(v, job, maxLevel) && d <= |Merging(v, job, maxLevel)|
    requires Held(v, fs, t) && HeldOnlyBy(v, fs, t, Merging(v, job, maxLevel)[..d])
    ensures y in Inputs(v, job.level, job.n) && y.id in fs && t in fs[y.id]
  {
    hide Merging, Inputs;
    var i, m :| 0 <= i < MAX_LEVELS && m in v.levels[i] && m.id in fs && t in fs[m.id];
    y := m;
    assert y in Merging(v, job, maxLevel);
    MergingMember(v, job, maxLevel, y);
  }

  /** Once its files are gone nothing of the tombstone's key is held but by the inputs still listed. */
  lemma HeldIsLeft(v: Version, w: Version, fs: Files, job: Job, maxLevel: nat, d: nat, t: Entry, z: Entry)
    requires VersionOk(v, fs, maxLevel) && JobOk(v, fs, job, maxLevel) && FileLayered(v, fs) && HeldCoherent(v, fs)
    requires Picks(v, job, maxLevel) && Bottom(job, maxLevel)
    requires d <= |Merging(v, job, maxLevel)| && CutAt(v, w, job, maxLevel, d)
    requires NewestHeld(v, fs, t.key, t) && t.kind.Deletion? && HeldOnlyBy(v, fs, t, Merging(v, job, maxLevel)[..d])
    requires Held(w, fs, z) && z.key == t.key
    ensures InSome(Merging(v, job, maxLevel)[d..], fs, z)
  {
    hide Inputs, Merging, VersionOk, JobOk, FileLayered, HeldCoherent, NewestHeld;
    var ins := Merging(v, job, maxLevel);
    assert Held(v, fs, t) by { NewestIsHeld(v, fs, t.key, t); }
    var y := InputHolder(v, fs, job, maxLevel, d, t);
    var i, f :| 0 <= i < MAX_LEVELS && f in w.levels[i] && f.id in fs && z in fs[f.id];
    if f in job.outs {
      NotWritten(v, fs, job, maxLevel, y, t, f, z);
    } else {
      assert f in v.levels[i] && f !in ins[..d];
      MergingMember(v, job, maxLevel, f);
      if f !in Inputs(v, job.level, job.n) {
        BystanderHolds(v, fs, job, maxLevel, y, t, i, f, z);
      } else {
        assert ins == ins[..d] + ins[d..];
      }
    }
  }

  lemma NewestIsHeld(v: Version, fs: Files, k: Bytes, e: Entry)
    requires v.WellFormed() && NewestHeld(v, fs, k, e)
    ensures Held(v, fs, e) && e.key == k
  {
  }

  lemma LeftIsHeld(v: Version, w: Version, fs: Files, job: Job, maxLevel: nat, d: nat, z: Entry)
    requires VersionOk(v, fs, maxLevel) && Picks(v, job, maxLevel)
    requires d <= |Merging(v, job, maxLevel)| && CutAt(v, w, job, maxLevel, d)
    requires InSome(Merging(v, job, maxLevel)[d..], fs, z)
    ensures Held(w, fs, z)
  {
    hide Merging, VersionOk, Held, CutAt;
    var m :| m in Merging(v, job, maxLevel)[d..] && m.id in fs && z in fs[m.id];
    LeftIsListed(v, w, fs, job, maxLevel, d, m);
    HeldBy(w, fs, m.level, m, z);
  }

  lemma LeftIsListed(v: Version, w: Version, fs: Files, job: Job, maxLevel: nat, d: nat, m: Meta)
    requires VersionOk(v, fs, maxLevel) && Picks(v, job, maxLevel)
    requires d <= |Merging(v, job, maxLevel)| && CutAt(v, w, job, maxLevel, d) && m in Merging(v, job, maxLevel)[d..]
    ensures w.WellFormed() && 0 <= m.level < MAX_LEVELS && m in w.levels[m.level]
  {
    hide Inputs, Merging, Between, VersionOk;
    var ins := Merging(v, job, maxLevel);
    CutIsWellFormed(v, w, job, maxLevel, d);
    MergingFacts(v, job, maxLevel) by { VersionIsTidy(v, fs, maxLevel); }
    MergingDistinct(v, fs, job, maxLevel);
    assert m in ins && m in v.levels[m.level];
    assert m !in ins[..d];
  }

  lemma VersionIsTidy(v: Version, fs: Files, maxLevel: nat)
    requires VersionOk(v, fs, maxLevel)
    ensures Tidy(v)
  {
  }

  lemma MergingDistinct(v: Version, fs: Files, job: Job, maxLevel: nat)
    requires VersionOk(v, fs, maxLevel) && Picks(v, job, maxLevel)
    ensures DistinctIds(Merging(v, job, maxLevel))
  {
    hide Inputs, VersionOk, Ranked;
    InputsDistinct(v, fs, maxLevel, job.level, job.n);
    DistinctIdsPermuted(Inputs(v, job.level, job.n), Merging(v, job, maxLevel));
  }

  // ---- The exact condition ----

  /** With the newest version of k a tombstone whose files are gone. */
  lemma TombstoneGone(v: Version, w: Version, fs: Files, job: Job, maxLevel: nat, d: nat, t: Entry)
    requires VersionOk(v, fs, maxLevel) && JobOk(v, fs, job, maxLevel) && FileLayered(v, fs) && HeldCoherent(v, fs)
    requires Picks(v, job, maxLevel) && Bottom(job, maxLevel)
    requires d <= |Merging(v, job, maxLevel)| && CutAt(v, w, job, maxLevel, d)
    requires NewestHeld(v, fs, t.key, t) && t.kind.Deletion? && HeldOnlyBy(v, fs, t, Merging(v, job, maxLevel)[..d])
    ensures forall z :: NewestHeld(w, fs, t.key, z) <==> NewestIn(Merging(v, job, maxLevel)[d..], fs, t.key, z)
  {
    hide Merging, VersionOk, JobOk, FileLayered, HeldCoherent, Held, InSome, CutAt, HeldOnlyBy;
    var left := Merging(v, job, maxLevel)[d..];
    assert w.WellFormed() by { CutIsWellFormed(v, w, job, maxLevel, d); }
    forall z: Entry | z.key == t.key
      ensures Held(w, fs, z) <==> InSome(left, fs, z)
    {
      if Held(w, fs, z) { HeldIsLeft(v, w, fs, job, maxLevel, d, t, z); }
      if InSome(left, fs, z) { LeftIsHeld(v, w, fs, job, maxLevel, d, z); }
    }
  }

  lemma CutIsWellFormed(v: Version, w: Version, job: Job, maxLevel: nat, d: nat)
    requires Picks(v, job, maxLevel) && d <= |Merging(v, job, maxLevel)| && CutAt(v, w, job, maxLevel, d)
    ensures w.WellFormed() && Between(v, w, job, maxLevel)
  {
  }

  /** A newest tombstone is either still held, or held by deleted inputs only. */
  lemma TombstoneHeld(v: Version, w: Version, fs: Files, job: Job, maxLevel: nat, d: nat, t: Entry)
    requires VersionOk(v, fs, maxLevel) && JobOk(v, fs, job, maxLevel) && HeldCoherent(v, fs)
    requires Picks(v, job, maxLevel) && Bottom(job, maxLevel)
    requires d <= |Merging(v, job, maxLevel)| && CutAt(v, w, job, maxLevel, d)
    requires NewestHeld(v, fs, t.key, t) && t.kind.Deletion?
    ensures Held(w, fs, t) <==> !HeldOnlyBy(v, fs, t, Merging(v, job, maxLevel)[..d])
  {
    hide Merging, VersionOk, JobOk, HeldCoherent, NewestHeld, Inputs;
    NewestIsHeld(v, fs, t.key, t);
    if Held(w, fs, t) && HeldOnlyBy(v, fs, t, Merging(v, job, maxLevel)[..d]) {
      var y := InputHolder(v, fs, job, maxLevel, d, t);
      var i, f :| 0 <= i < MAX_LEVELS && f in w.levels[i] && f.id in fs && t in fs[f.id];
      if f in job.outs {
        NotWritten(v, fs, job, maxLevel, y, t, f, t);
      }
    }
  }

  lemma CutExact(v: Version, w: Version, fs: Files, job: Job, maxLevel: nat, d: nat, k: Bytes)
    requires VersionOk(v, fs, maxLevel) && JobOk(v, fs, job, maxLevel) && FileLayered(v, fs) && HeldCoherent(v, fs)
    requires Picks(v, job, maxLevel) && Bottom(job, maxLevel)
    requires d <= |Merging(v, job, maxLevel)| && CutAt(v, w, job, maxLevel, d)
    ensures w.WellFormed()
    ensures SameLive(v, w, fs, k) <==> !Exposed(v, fs, Merging(v, job, maxLevel), d, k)
  {
    hide Merging, VersionOk, JobOk, FileLayered, Held, NewestIn, CutAt, HeldOnlyBy, Between, HeldCoherent;
    CutIsWellFormed(v, w, job, maxLevel, d);
    forall x | Held(w, fs, x)
      ensures Held(v, fs, x)
    {
      BetweenHolds(v, w, fs, job, maxLevel, x);
    }
    if e :| NewestHeld(v, fs, k, e) {
      forall x | NewestHeld(v, fs, k, x)
        ensures x == e
      {
        OnlyNewest(v, fs, k, x, e);
      }
      if e.kind.Value? {
        ValueStays(v, w, fs, job, maxLevel, k, e);
        LiveUnique(v, w, fs, k, e);
      } else {
        TombstoneHeld(v, w, fs, job, maxLevel, d, e);
        if Held(w, fs, e) {
          LiveUnique(v, w, fs, k, e);
        } else {
          TombstoneGone(v, w, fs, job, maxLevel, d, e);
        }
      }
    } else {
      forall x | NewestHeld(w, fs, k, x)
        ensures false
      {
        var n := NewestExists(v, fs, x);
      }
    }
  }

  lemma LiveUnique(v: Version, w: Version, fs: Files, k: Bytes, e: Entry)
    requires v.WellFormed() && w.WellFormed() && HeldCoherent(v, fs)
    requires forall x :: Held(w, fs, x) ==> Held(v, fs, x)
    requires NewestHeld(v, fs, k, e) && Held(w, fs, e)
    ensures forall x :: NewestHeld(w, fs, k, x) <==> x == e
    ensures forall x :: NewestHeld(v, fs, k, x) <==> x == e
  {
    hide Held;
  }

  /**
   * At every prefix of the edits of a compaction into the bottom level, a key reads as before if
   * and only if it is not exposed: the tombstone that hides its value is in inputs already
   * deleted, and the value in one that is not.
   */
  lemma BottomPrefixExact(v: Version, fs: Files, job: Job, maxLevel: nat, j: nat, k: Bytes)
    requires VersionOk(v, fs, maxLevel) && JobOk(v, fs, job, maxLevel) && FileLayered(v, fs) && HeldCoherent(v, fs)
    requires Bottom(job, maxLevel) && j <= |CommitEdits(v, job, maxLevel)|
    ensures forall x :: x in CommitEdits(v, job, maxLevel)[..j] ==> InRange(x)
    ensures var d := if j <= |job.outs| then 0 else j - |job.outs|;
            SameLive(v, UpdateAll(v, CommitEdits(v, job, maxLevel)[..j]), fs, k)
            <==> !Exposed(v, fs, Merging(v, job, maxLevel), d, k)
  {
    hide NewestHeld, VersionOk, Merging, UpdateAll, HeldCoherent, Compacted, Inputs, SameLive, Exposed, CutAt;
    var es, n := CommitEdits(v, job, maxLevel), |job.outs|;
    if j <= n {
      assert es[..j] == Adds(job.outs[..j]);
      AddsCut(v, fs, job, maxLevel, j);
    } else {
      assert es[..j] == Adds(job.outs) + Deletes(Merging(v, job, maxLevel)[..j - n]);
      DeletesCut(v, fs, job, maxLevel, j - n);
    }
    CutExact(v, UpdateAll(v, es[..j]), fs, job, maxLevel, if j <= n then 0 else j - n, k);
  }

  // ---- A key that is exposed ----

  const KEY: Bytes := [1]
  const OLD := Entry(KEY, 1, Value, [7])
  const GONE := Entry(KEY, 2, Deletion, [])
  const LOW := Meta(1, 1, KEY, KEY, 0)
  const HIGH := Meta(2, 0, KEY, KEY, 0)
  const BEFORE := Version([[HIGH], [LOW], [], [], [], [], []], 0, 0, 2)
  const FILES: Files := map[1 := [OLD], 2 := [GONE]]
  const JOB := Job(0, 1, [])

  lemma ExampleHeld(e: Entry)
    ensures Held(BEFORE, FILES, e) <==> e == OLD || e == GONE
  {
    assert HIGH in BEFORE.levels[0] && LOW in BEFORE.levels[1];
    assert forall i :: 2 <= i < MAX_LEVELS ==> BEFORE.levels[i] == [];
    if e == OLD { HeldBy(BEFORE, FILES, 1, LOW, e); }
    if e == GONE { HeldBy(BEFORE, FILES, 0, HIGH, e); }
  }

  lemma ExampleMerging()
    ensures Picks(BEFORE, JOB, 2) && Inputs(BEFORE, 0, 1) == [HIGH, LOW] && Merging(BEFORE, JOB, 2) == [HIGH, LOW]
  {
    assert BEFORE.levels[0][..1] == [HIGH];
    assert Lo([HIGH]) == KEY && Hi([HIGH]) == KEY;
    assert OverlapsRange(LOW, KEY, KEY);
    assert [LOW][1..] == [];
    assert Overlapping([LOW], KEY, KEY) == [LOW];
    assert [HIGH, LOW][1..] == [LOW];
    assert SortMetas(MergePriority, [LOW]) == [LOW];
  }

  lemma ExampleNone(e: Entry)
    ensures e !in Compacted([[GONE], [OLD]], true)
  {
    var cs := [[GONE], [OLD]];
    CompactedExact(cs, true);
    assert GONE in cs[0];
    assert forall i, x :: 0 <= i < |cs| && x in cs[i] ==> x == GONE || x == OLD;
  }

  lemma ExampleLevel(i: nat)
    requires i < MAX_LEVELS
    ensures BEFORE.levels[i] == (if i == 0 then [HIGH] else if i == 1 then [LOW] else [])
    ensures LevelOk(BEFORE.levels[i], FILES) && TablesOk(BEFORE.levels[i], FILES)
  {
    assert TableOk(HIGH, FILES) && TableOk(LOW, FILES);
    assert Ascending(FILES[1]) && Ascending(FILES[2]);
  }

  lemma ExampleVersion()
    ensures VersionOk(BEFORE, FILES, 2)
  {
    hide LevelOk, TablesOk;
    forall i | 0 <= i < MAX_LEVELS
      ensures BEFORE.levels[i] == (if i == 0 then [HIGH] else if i == 1 then [LOW] else [])
      ensures LevelOk(BEFORE.levels[i], FILES) && TablesOk(BEFORE.levels[i], FILES)
    {
      ExampleLevel(i);
    }
  }

  lemma ExampleCoherent()
    ensures HeldCoherent(BEFORE, FILES)
  {
    hide Held;
    forall a, b | Held(BEFORE, FILES, a) && Held(BEFORE, FILES, b) && a.seqno == b.seqno
      ensures a == b
    {
      ExampleHeld(a);
      ExampleHeld(b);
    }
  }

  lemma ExampleLayers()
    ensures FileLayered(BEFORE, FILES)
  {
    forall i, a, j, b, k | 0 <= i < MAX_LEVELS && 0 <= j < MAX_LEVELS && a in BEFORE.levels[i] && b in BEFORE.levels[j]
                           && a.id in FILES && b.id in FILES && ReadBefore(i, a, j, b)
                           && Find(FILES[a.id], k).Some? && Find(FILES[b.id], k).Some?
      ensures Find(FILES[a.id], k).value.seqno >= Find(FILES[b.id], k).value.seqno
    {
      ExamplePair(i, a, j, b);
    }
  }

  lemma ExamplePair(i: nat, a: Meta, j: nat, b: Meta)
    requires i < MAX_LEVELS && j < MAX_LEVELS && a in BEFORE.levels[i] && b in BEFORE.levels[j] && ReadBefore(i, a, j, b)
    ensures a == HIGH && b == LOW
  {
    assert forall h :: 2 <= h < MAX_LEVELS ==> BEFORE.levels[h] == [];
  }

  lemma ExampleJob()
    ensures JobOk(BEFORE, FILES, JOB, 2) && Bottom(JOB, 2)
  {
    hide Merging, Inputs, Compacted;
    ExampleMerging();
    assert Contents([HIGH, LOW], FILES) == [[GONE], [OLD]];
    var r := Compacted([[GONE], [OLD]], true);
    assert r != [] ==> r[0] in r;
    forall e
      ensures e !in r
    {
      ExampleNone(e);
    }
  }

  lemma ExampleExposed()
    ensures Exposed(BEFORE, FILES, [HIGH, LOW], 1, KEY)
  {
    hide Held;
    forall e
      ensures Held(BEFORE, FILES, e) <==> e == OLD || e == GONE
    {
      ExampleHeld(e);
    }
    assert forall i :: 2 <= i < MAX_LEVELS ==> BEFORE.levels[i] == [];
    assert [HIGH, LOW][..1] == [HIGH] && [HIGH, LOW][1..] == [LOW];
    assert NewestHeld(BEFORE, FILES, KEY, GONE) && HeldOnlyBy(BEFORE, FILES, GONE, [HIGH]);
    assert LOW in [LOW];
    assert InSome([LOW], FILES, OLD);
    assert NewestIn([LOW], FILES, KEY, OLD);
  }

  /** Deleting the tombstone's file first brings a deleted value back until the next edit. */
  lemma BottomPrefixExample()
    ensures Picks(BEFORE, JOB, 2) && CommitEdits(BEFORE, JOB, 2) == [DeleteEdit(HIGH), DeleteEdit(LOW)]
    ensures !SameLive(BEFORE, UpdateAll(BEFORE, [DeleteEdit(HIGH)]), FILES, KEY)
    ensures VersionOk(BEFORE, FILES, 2) && FileLayered(BEFORE, FILES) && HeldCoherent(BEFORE, FILES)
    ensures JobOk(BEFORE, FILES, JOB, 2) && Bottom(JOB, 2)
  {
    hide VersionOk, FileLayered, HeldCoherent, JobOk, Merging, Exposed, SameLive, UpdateAll;
    ExampleVersion();
    ExampleCoherent();
    ExampleLayers();
    ExampleJob();
    ExampleMerging();
    assert CommitEdits(BEFORE, JOB, 2)[..1] == [DeleteEdit(HIGH)];
    ExampleExposed();
    BottomPrefixExact(BEFORE, FILES, JOB, 2, 1, KEY);
  }
}
