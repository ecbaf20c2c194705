// Committing a compaction: the inputs it picks, the manifest edits it applies, the version left.
module Commit {
  import opened Keys
  import opened Manifest
  import opened Levels
  import opened Compaction

  // ---- Picking inputs (compactLevel, LeveledPickInputs) ----

  predicate OverlapsRange(m: Meta, lo: Bytes, hi: Bytes) {
    !Less(hi, m.first) && !Less(m.last, lo)
  }

  function Lo(l: seq<Meta>): Bytes
    requires l != []
  {
    var n := |l| - 1;
    if n == 0 then l[0].first
    else
      var lo := Lo(l[..n]);
      if Less(l[n].first, lo) then l[n].first else lo
  }

  function Hi(l: seq<Meta>): Bytes
    requires l != []
  {
    var n := |l| - 1;
    if n == 0 then l[0].last
    else
      var hi := Hi(l[..n]);
      if Less(hi, l[n].last) then l[n].last else hi
  }

  lemma {:induction false} HullCovers(l: seq<Meta>, m: Meta)
    requires m in l
    ensures !Less(m.first, Lo(l)) && !Less(Hi(l), m.last)
  {
    hide Less;
    LessIsTotalOrder();
    var n := |l| - 1;
    if m in l[..n] {
      HullCovers(l[..n], m);
    } else {
      assert m == l[n];
    }
  }

  function Overlapping(l: seq<Meta>, lo: Bytes, hi: Bytes): seq<Meta> {
    if l == [] then []
    else (if OverlapsRange(l[0], lo, hi) then [l[0]] else []) + Overlapping(l[1..], lo, hi)
  }

  lemma {:induction false} OverlappingMember(l: seq<Meta>, lo: Bytes, hi: Bytes, m: Meta)
    ensures m in Overlapping(l, lo, hi) <==> m in l && OverlapsRange(m, lo, hi)
  {
    if l != [] { OverlappingMember(l[1..], lo, hi, m); }
  }

  /** The files a compaction of level reads: the first n of it, and the next level's files they reach. */
  function Inputs(v: Version, level: nat, n: nat): seq<Meta>
    requires v.WellFormed() && level + 1 < MAX_LEVELS && 0 < n <= |v.levels[level]|
  {
    var base := v.levels[level][..n];
    base + Overlapping(v.levels[level + 1], Lo(base), Hi(base))
  }

  lemma InputMember(v: Version, level: nat, n: nat, m: Meta)
    requires v.WellFormed() && level + 1 < MAX_LEVELS && 0 < n <= |v.levels[level]|
    ensures m in Inputs(v, level, n) <==>
              m in v.levels[level][..n]
              || (m in v.levels[level + 1]
                  && OverlapsRange(m, Lo(v.levels[level][..n]), Hi(v.levels[level][..n])))
  {
    var base := v.levels[level][..n];
    OverlappingMember(v.levels[level + 1], Lo(base), Hi(base), m);
  }

  function Dedupe(l: seq<Meta>, seen: set<nat>): seq<Meta> {
    if l == [] then []
    else if l[0].id in seen then Dedupe(l[1..], seen)
    else [l[0]] + Dedupe(l[1..], seen + {l[0].id})
  }

  lemma {:induction false} DedupeDistinct(l: seq<Meta>, seen: set<nat>)
    requires DistinctIds(l) && forall m :: m in l ==> m.id !in seen
    ensures Dedupe(l, seen) == l
  {
    if l != [] { DedupeDistinct(l[1..], seen + {l[0].id}); }
  }

  /** DedupeByFileID: keeps the first occurrence of every file id. */
  method DedupeByFileID(l: seq<Meta>) returns (unique: seq<Meta>)
    ensures unique == Dedupe(l, {})
  {
    unique := [];
    var seen := {};
    for i := 0 to |l|
      invariant unique + Dedupe(l[i..], seen) == Dedupe(l, {})
    {
      assert l[i..][1..] == l[i + 1..];
      if l[i].id !in seen {
        seen := seen + {l[i].id};
        unique := unique + [l[i]];
      }
    }
    assert l[|l|..] == [] && unique + [] == unique;
  }

  /** The key range of the files picked so far. */
  method Hull(base: seq<Meta>) returns (lo: Bytes, hi: Bytes)
    requires base != []
    ensures lo == Lo(base) && hi == Hi(base)
  {
    hide Less;
    lo, hi := base[0].first, base[0].last;
    for i := 1 to |base|
      invariant lo == Lo(base[..i]) && hi == Hi(base[..i])
    {
      assert base[..i + 1][..i] == base[..i];
      if Less(base[i].first, lo) { lo := base[i].first; }
      if Less(hi, base[i].last) { hi := base[i].last; }
    }
    assert base[..|base|] == base;
  }

  method AddOverlapping(base: seq<Meta>, next: seq<Meta>, lo: Bytes, hi: Bytes) returns (picked: seq<Meta>)
    ensures picked == base + Overlapping(next, lo, hi)
  {
    hide OverlapsRange;
    picked := base;
    for i := 0 to |next|
      invariant picked + Overlapping(next[i..], lo, hi) == base + Overlapping(next, lo, hi)
    {
      assert next[i..][1..] == next[i + 1..];
      if OverlapsRange(next[i], lo, hi) {
        picked := picked + [next[i]];
      }
    }
    assert next[|next|..] == [] && picked + [] == picked;
  }

  /**
   * compactLevel: all of L0, or the first file of a deeper level, with the overlapping files of
   * the next level, in merge order. Nothing is picked at the bottom or on an empty level.
   */
  method PickInputs(v: Version, level: nat, maxLevel: nat) returns (inputs: seq<Meta>)
    requires v.WellFormed() && maxLevel <= MAX_LEVELS
    ensures level + 1 >= maxLevel || v.levels[level] == [] ==> inputs == []
    ensures level + 1 < maxLevel && v.levels[level] != [] ==>
              var n := if level == 0 then |v.levels[0]| else 1;
              inputs == SortMetas(MergePriority, Dedupe(Inputs(v, level, n), {}))
  {
    hide Overlapping, Lo, Hi, SortMetas, Dedupe;
    if level + 1 >= maxLevel || |v.levels[level]| == 0 {
      return [];
    }
    var base := if level == 0 then v.levels[0] else [v.levels[level][0]];
    assert base == v.levels[level][..if level == 0 then |v.levels[0]| else 1];
    var lo, hi := Hull(base);
    var picked := AddOverlapping(base, v.levels[level + 1], lo, hi);
    var unique := DedupeByFileID(picked);
    inputs := SortMetas(MergePriority, unique);
  }

  // ---- Manifest edits ----

  function AddEdit(m: Meta): Edit {
    Edit(ADD_SSTABLE, m.level, m.id, m.size, m.first, m.last, 0, 0, 0, true)
  }

  function DeleteEdit(m: Meta): Edit {
    Edit(DELETE_SSTABLE, m.level, m.id, 0, [], [], 0, 0, 0, false)
  }

  function Adds(outs: seq<Meta>): seq<Edit> {
    seq(|outs|, i requires 0 <= i < |outs| => AddEdit(outs[i]))
  }

  function Deletes(ins: seq<Meta>): seq<Edit> {
    seq(|ins|, i requires 0 <= i < |ins| => DeleteEdit(ins[i]))
  }

  ghost predicate LevelsInRange(l: seq<Meta>) {
    forall m :: m in l ==> 0 <= m.level < MAX_LEVELS
  }

  lemma EditsInRange(l: seq<Meta>)
    requires LevelsInRange(l)
    ensures forall e :: e in Adds(l) || e in Deletes(l) ==> InRange(e)
  {
  }

  lemma {:induction false} TwoIndices(l: seq<Meta>, m: Meta) returns (i: nat, j: nat)
    requires multiset(l)[m] >= 2
    ensures i < j < |l| && l[i] == l[j] == m
  {
    assert l != [];
    assert l == [l[0]] + l[1..];
    if l[0] == m {
      assert multiset(l[1..])[m] >= 1;
      assert m in l[1..];
      i := 0;
      j :| 0 < j < |l| && l[j] == m;
    } else {
      var a, b := TwoIndices(l[1..], m);
      i, j := a + 1, b + 1;
    }
  }

  lemma DistinctIdsPermuted(a: seq<Meta>, b: seq<Meta>)
    requires multiset(a) == multiset(b) && DistinctIds(a)
    ensures DistinctIds(b)
  {
    forall i, j | 0 <= i < j < |b|
      ensures b[i].id != b[j].id
    {
      assert b[i] in multiset(a) && b[j] in multiset(a);
      if b[i] == b[j] {
        assert b == b[..j] + [b[j]] + b[j + 1..];
        assert b[i] in b[..j];
        assert multiset(b)[b[i]] >= 2;
        var x, y := TwoIndices(a, b[i]);
      }
    }
  }

  lemma SortLevelKeeps(l: seq<Meta>, level: int)
    ensures DistinctIds(l) ==> DistinctIds(SortLevel(l, level))
    ensures level >= 1 ==> RankOrdered(FirstKey, SortLevel(l, level))
    ensures forall m :: m in SortLevel(l, level) <==> m in l
  {
    SortMetasOrdered(FirstKey, l);
    if DistinctIds(l) {
      DistinctIdsPermuted(l, SortLevel(l, level));
    }
    forall m
      ensures m in SortLevel(l, level) <==> m in l
    {
      assert m in multiset(SortLevel(l, level)) <==> m in multiset(l);
    }
  }

  lemma {:induction false} WithoutDistinct(l: seq<Meta>, id: nat)
    requires DistinctIds(l)
    ensures DistinctIds(Without(l, id))
  {
    if l != [] {
      WithoutDistinct(l[1..], id);
      forall m | m in Without(l[1..], id)
        ensures m.id != l[0].id
      {
        WithoutMember(l[1..], id, m);
      }
    }
  }

  /** What holds of every level while files are added to and deleted from it by edits. */
  ghost predicate Tidy(v: Version) {
    && v.WellFormed()
    && (forall i :: 0 <= i < MAX_LEVELS ==> DistinctIds(v.levels[i]))
    && (forall i :: 1 <= i < MAX_LEVELS ==> RankOrdered(FirstKey, v.levels[i]))
    && (forall i, m :: 0 <= i < MAX_LEVELS && m in v.levels[i] ==> m.level == i)
  }

  lemma AddOne(v: Version, m: Meta)
    requires Tidy(v) && 1 <= m.level < MAX_LEVELS && forall x :: x in v.levels[m.level] ==> x.id != m.id
    ensures var w := Update(v, AddEdit(m));
            && Tidy(w) && w.levels[0] == v.levels[0]
            && (forall i, x {:trigger x in w.levels[i]} {:trigger x in v.levels[i]} :: 0 <= i < MAX_LEVELS ==> (x in w.levels[i] <==> x in v.levels[i] || (i == m.level && x == m)))
            && (forall i :: 0 <= i < MAX_LEVELS && i != m.level ==> w.levels[i] == v.levels[i])
  {
    hide SortLevel, Ranked;
    var l := v.levels[m.level] + [m];
    SortLevelKeeps(l, m.level);
    var w := Update(v, AddEdit(m));
    assert w.levels[m.level] == SortLevel(l, m.level);
    assert forall i :: 0 <= i < MAX_LEVELS && i != m.level ==> w.levels[i] == v.levels[i];
  }

  lemma DeleteOne(v: Version, d: Meta)
    requires Tidy(v) && 0 <= d.level < MAX_LEVELS
    ensures var w := Update(v, DeleteEdit(d));
            && Tidy(w) && w.levels[0] == (if d.level == 0 then Without(v.levels[0], d.id) else v.levels[0])
            && (forall i, x {:trigger x in w.levels[i]} {:trigger x in v.levels[i]} :: 0 <= i < MAX_LEVELS ==>
                  (x in w.levels[i] <==> x in v.levels[i] && !(i == d.level && x.id == d.id)))
            && (forall i :: 0 <= i < MAX_LEVELS && i != d.level ==> w.levels[i] == v.levels[i])
  {
    hide SortLevel, Ranked;
    var l := Without(v.levels[d.level], d.id);
    WithoutDistinct(v.levels[d.level], d.id);
    SortLevelKeeps(l, d.level);
    var w := Update(v, DeleteEdit(d));
    assert w.levels[d.level] == SortLevel(l, d.level);
    assert forall i :: 0 <= i < MAX_LEVELS && i != d.level ==> w.levels[i] == v.levels[i];
    forall x
      ensures x in l <==> x in v.levels[d.level] && x.id != d.id
    {
      WithoutMember(v.levels[d.level], d.id, x);
    }
    if d.level == 0 {
      assert SortLevel(l, 0) == l by { SortLevelZero(l); }
    }
  }

  lemma SortLevelZero(l: seq<Meta>)
    ensures SortLevel(l, 0) == l
  {
  }

  lemma PrefixDistinct(l: seq<Meta>, outs: seq<Meta>, n: nat)
    requires DistinctIds(l + outs) && n <= |outs|
    ensures DistinctIds(l + outs[..n])
  {
    forall i, j | 0 <= i < j < |l + outs[..n]|
      ensures (l + outs[..n])[i].id != (l + outs[..n])[j].id
    {
      assert (l + outs)[i].id != (l + outs)[j].id;
    }
  }

  lemma LastIdIsNew(l: seq<Meta>, outs: seq<Meta>)
    requires DistinctIds(l + outs) && outs != []
    ensures var n := |outs| - 1; forall x :: x in l || x in outs[..n] ==> x.id != outs[n].id
  {
    var n := |outs| - 1;
    assert (l + outs)[|l| + n] == outs[n];
    forall x | x in l || x in outs[..n]
      ensures x.id != outs[n].id
    {
      assert x in l + outs[..n] && l + outs[..n] == (l + outs)[..|l| + n];
      var i :| 0 <= i < |l| + n && (l + outs)[i] == x;
    }
  }

  lemma {:induction false} AddAll(v: Version, outs: seq<Meta>, out: nat)
    requires Tidy(v) && 1 <= out < MAX_LEVELS && DistinctIds(v.levels[out] + outs)
    requires forall m :: m in outs ==> m.level == out
    ensures forall e :: e in Adds(outs) ==> InRange(e)
    ensures var w := UpdateAll(v, Adds(outs));
            && Tidy(w) && w.levels[0] == v.levels[0]
            && (forall i, x {:trigger x in w.levels[i]} {:trigger x in v.levels[i]} :: 0 <= i < MAX_LEVELS ==> (x in w.levels[i] <==> x in v.levels[i] || (i == out && x in outs)))
            && (forall i :: 0 <= i < MAX_LEVELS && i != out ==> w.levels[i] == v.levels[i])
  {
    hide Update, AddEdit, Ranked, DistinctIds, RankOrdered;
    EditsInRange(outs);
    if outs != [] {
      var n := |outs| - 1;
      var front := outs[..n];
      PrefixDistinct(v.levels[out], outs, n);
      AddAll(v, front, out);
      assert Adds(outs)[..n] == Adds(front) && Adds(outs)[n] == AddEdit(outs[n]);
      var w := UpdateAll(v, Adds(front));
      LastIdIsNew(v.levels[out], outs);
      AddOne(w, outs[n]);
      assert outs == front + [outs[n]];
    }
  }

  ghost predicate Hits(ds: seq<Meta>, level: nat, id: nat) {
    exists d :: d in ds && d.level == level && d.id == id
  }

  lemma HitsNone()
    ensures forall i: nat, id: nat :: !Hits([], i, id)
  {
  }

  lemma HitsAppend(ds: seq<Meta>, d: Meta)
    ensures forall i: nat, id: nat :: Hits(ds + [d], i, id) <==> Hits(ds, i, id) || (d.level == i && d.id == id)
  {
    forall i: nat, id: nat
      ensures Hits(ds + [d], i, id) <==> Hits(ds, i, id) || (d.level == i && d.id == id)
    {
      assert d in ds + [d];
      if Hits(ds, i, id) {
        var x :| x in ds && x.level == i && x.id == id;
        assert x in ds + [d];
      }
    }
  }

  /** A list of L0 files without those the deletions name. */
  ghost function Minus(l: seq<Meta>, ds: seq<Meta>): seq<Meta> {
    if ds == [] then l
    else
      var n := |ds| - 1;
      if ds[n].level == 0 then Without(Minus(l, ds[..n]), ds[n].id) else Minus(l, ds[..n])
  }

  /** w is v without the files the deletions name. */
  ghost predicate Trimmed(v: Version, w: Version, ins: seq<Meta>)
    requires v.WellFormed()
  {
    && Tidy(w) && w.levels[0] == Minus(v.levels[0], ins)
    && (forall i, x {:trigger x in w.levels[i]} {:trigger x in v.levels[i]} ::
          0 <= i < MAX_LEVELS ==> (x in w.levels[i] <==> x in v.levels[i] && !Hits(ins, i, x.id)))
    && (forall i :: 0 <= i < MAX_LEVELS && (forall d :: d in ins ==> d.level != i) ==> w.levels[i] == v.levels[i])
  }

  lemma TrimmedStep(v: Version, w: Version, ins: seq<Meta>, d: Meta)
    requires v.WellFormed() && Trimmed(v, w, ins) && 0 <= d.level < MAX_LEVELS
    ensures Trimmed(v, Update(w, DeleteEdit(d)), ins + [d])
  {
    hide Update, Ranked, Without, Hits;
    HitsAppend(ins, d);
    DeleteOne(w, d);
    assert (ins + [d])[..|ins|] == ins;
    assert d in ins + [d] && forall x :: x in ins ==> x in ins + [d];
    var u := Update(w, DeleteEdit(d));
    forall i, x | 0 <= i < MAX_LEVELS
      ensures x in u.levels[i] <==> x in v.levels[i] && !Hits(ins + [d], i, x.id)
    {
      assert x in w.levels[i] <==> x in v.levels[i] && !Hits(ins, i, x.id);
      assert x in u.levels[i] <==> x in w.levels[i] && !(i == d.level && x.id == d.id);
      assert Hits(ins + [d], i, x.id) <==> Hits(ins, i, x.id) || (d.level == i && d.id == x.id);
    }
  }

  lemma {:induction false} DeleteAll(v: Version, ins: seq<Meta>)
    requires Tidy(v) && LevelsInRange(ins)
    ensures forall e :: e in Deletes(ins) ==> InRange(e)
    ensures Trimmed(v, UpdateAll(v, Deletes(ins)), ins)
  {
    hide Update, DeleteEdit, Ranked, Without, Hits;
    EditsInRange(ins);
    if ins == [] {
      assert Deletes(ins) == [];
      HitsNone();
    } else {
      var n := |ins| - 1;
      var front, d := ins[..n], ins[n];
      DeleteAll(v, front);
      assert Deletes(ins)[..n] == Deletes(front) && Deletes(ins)[n] == DeleteEdit(d);
      assert ins == front + [d];
      assert d in ins;
      TrimmedStep(v, UpdateAll(v, Deletes(front)), front, d);
    }
  }

  lemma {:induction false} UpdateAllConcat(v: Version, a: seq<Edit>, b: seq<Edit>)
    requires v.WellFormed() && forall e :: e in a || e in b ==> InRange(e)
    ensures forall e :: e in a + b ==> InRange(e)
    ensures UpdateAll(v, a + b) == UpdateAll(UpdateAll(v, a), b)
  {
    hide Update, InRange;
    if b == [] {
      assert a + b == a;
    } else {
      var n := |b| - 1;
      assert (a + b)[..|a| + n] == a + b[..n];
      UpdateAllConcat(v, a, b[..n]);
    }
  }

  // ---- A version and a compaction of it ----

  ghost predicate AscendingIds(l: seq<Meta>) {
    forall i, j :: 0 <= i < j < |l| ==> l[i].id < l[j].id
  }

  /** The invariants of a version: maxLevel is the number of levels in use. */
  ghost predicate VersionOk(v: Version, fs: Files, maxLevel: nat) {
    && Tidy(v) && maxLevel <= MAX_LEVELS
    && AscendingIds(v.levels[0])
    && (forall i :: 0 <= i < MAX_LEVELS ==> TablesOk(v.levels[i], fs))
    && (forall i :: 1 <= i < MAX_LEVELS ==> LevelOk(v.levels[i], fs))
    && (forall i :: maxLevel <= i < MAX_LEVELS ==> v.levels[i] == [])
    && (forall i, j, a, b :: 0 <= i < j < MAX_LEVELS && a in v.levels[i] && b in v.levels[j] ==> a.id != b.id)
  }

  /** A compaction that has picked its inputs, the first n files of level, and written its outputs. */
  datatype Job = Job(level: nat, n: nat, outs: seq<Meta>)

  ghost predicate Picks(v: Version, job: Job, maxLevel: nat) {
    && v.WellFormed() && job.level + 1 < maxLevel <= MAX_LEVELS
    && 0 < job.n <= |v.levels[job.level]| && (job.level > 0 ==> job.n == 1)
  }

  lemma {:induction false} OverlappingDistinct(l: seq<Meta>, lo: Bytes, hi: Bytes)
    requires DistinctIds(l)
    ensures DistinctIds(Overlapping(l, lo, hi))
  {
    hide OverlapsRange;
    if l != [] {
      OverlappingDistinct(l[1..], lo, hi);
      var rest := Overlapping(l[1..], lo, hi);
      forall i | 0 <= i < |rest|
        ensures rest[i].id != l[0].id
      {
        OverlappingMember(l[1..], lo, hi, rest[i]);
        assert rest[i] in rest;
      }
    }
  }

  lemma InputsDistinct(v: Version, fs: Files, maxLevel: nat, level: nat, n: nat)
    requires VersionOk(v, fs, maxLevel) && Picks(v, Job(level, n, []), maxLevel)
    ensures DistinctIds(Inputs(v, level, n))
  {
    hide LevelOk, TablesOk, Overlapping, Lo, Hi, Ranked;
    var base := v.levels[level][..n];
    var more := Overlapping(v.levels[level + 1], Lo(base), Hi(base));
    OverlappingDistinct(v.levels[level + 1], Lo(base), Hi(base));
    forall i, j | 0 <= i < |base| && 0 <= j < |more|
      ensures base[i].id != more[j].id
    {
      assert more[j] in more;
      OverlappingMember(v.levels[level + 1], Lo(base), Hi(base), more[j]);
      assert base[i] in v.levels[level] && more[j] in v.levels[level + 1];
    }
  }

  /** The inputs in merge order. */
  ghost function Merging(v: Version, job: Job, maxLevel: nat): seq<Meta>
    requires Picks(v, job, maxLevel)
  {
    SortMetas(MergePriority, Inputs(v, job.level, job.n))
  }

  predicate Bottom(job: Job, maxLevel: nat) {
    job.level + 1 == maxLevel - 1
  }

  lemma MergingMember(v: Version, job: Job, maxLevel: nat, m: Meta)
    requires Picks(v, job, maxLevel)
    ensures m in Merging(v, job, maxLevel) <==> m in Inputs(v, job.level, job.n)
  {
    assert m in multiset(Merging(v, job, maxLevel)) <==> m in multiset(Inputs(v, job.level, job.n));
  }

  ghost predicate JobOk(v: Version, fs: Files, job: Job, maxLevel: nat) {
    && Picks(v, job, maxLevel)
    && OnDisk(Inputs(v, job.level, job.n), fs)
    && OnDisk(Merging(v, job, maxLevel), fs)
    && TablesOk(job.outs, fs)
    && Flatten(Contents(job.outs, fs))
       == Compacted(Contents(Merging(v, job, maxLevel), fs), Bottom(job, maxLevel))
    && (forall m :: m in job.outs ==> m.level == job.level + 1)
    && DistinctIds(job.outs)
    && (forall i, a, b :: 0 <= i < MAX_LEVELS && a in v.levels[i] && b in job.outs ==> a.id != b.id)
  }

  lemma AscendingConcat(a: seq<Entry>, b: seq<Entry>)
    requires Ascending(a + b)
    ensures Ascending(a) && Ascending(b)
    ensures forall x, y :: x in a && y in b ==> Less(x.key, y.key)
  {
    hide Less;
    var all := a + b;
    assert forall i :: 0 <= i < |a| ==> a[i] == all[i];
    assert forall i :: 0 <= i < |b| ==> b[i] == all[|a| + i];
  }

  lemma {:induction false} FlattenParts(cs: seq<seq<Entry>>)
    requires Ascending(Flatten(cs))
    ensures forall i :: 0 <= i < |cs| ==> Ascending(cs[i])
    ensures forall i, j, a, b :: 0 <= i < j < |cs| && a in cs[i] && b in cs[j] ==> Less(a.key, b.key)
  {
    hide Less, Ascending;
    if cs != [] {
      var rest := cs[1..];
      AscendingConcat(cs[0], Flatten(rest));
      FlattenParts(rest);
      assert forall i :: 0 < i < |cs| ==> cs[i] == rest[i - 1];
      forall i, j, a, b | 0 <= i < j < |cs| && a in cs[i] && b in cs[j]
        ensures Less(a.key, b.key)
      {
        assert b in rest[j - 1];
        if i == 0 {
          FlattenMember(rest, b);
        }
      }
    }
  }

  // ---- The version after a commit ----

  /** The manifest edits in the order they are applied: outputs first, then the inputs go. */
  ghost function CommitEdits(v: Version, job: Job, maxLevel: nat): seq<Edit>
    requires Picks(v, job, maxLevel)
  {
    Adds(job.outs) + Deletes(Merging(v, job, maxLevel))
  }

  ghost predicate Applicable(v: Version, job: Job, maxLevel: nat) {
    Picks(v, job, maxLevel) && forall e :: e in CommitEdits(v, job, maxLevel) ==> InRange(e)
  }

  ghost function Committed(v: Version, job: Job, maxLevel: nat): (w: Version)
    requires Applicable(v, job, maxLevel)
    ensures w.WellFormed()
  {
    UpdateAll(v, CommitEdits(v, job, maxLevel))
  }

  lemma SameId(l: seq<Meta>, a: Meta, b: Meta)
    requires DistinctIds(l) && a in l && b in l && a.id == b.id
    ensures a == b
  {
    var i :| 0 <= i < |l| && l[i] == a;
    var j :| 0 <= j < |l| && l[j] == b;
    assert i == j;
  }

  /** A file of the version is named by the deletions exactly when it is an input. */
  lemma HitsInputs(v: Version, job: Job, maxLevel: nat, i: nat, x: Meta)
    requires Tidy(v) && Picks(v, job, maxLevel) && i < MAX_LEVELS && x in v.levels[i]
    ensures Hits(Merging(v, job, maxLevel), i, x.id) <==> x in Inputs(v, job.level, job.n)
  {
    hide Merging, Inputs, Ranked, Less, Lo, Hi;
    var ins := Merging(v, job, maxLevel);
    MergingMember(v, job, maxLevel, x);
    if Hits(ins, i, x.id) {
      var d :| d in ins && d.level == i && d.id == x.id;
      MergingMember(v, job, maxLevel, d);
      InputMember(v, job.level, job.n, d);
      SameId(v.levels[i], d, x);
    }
  }

  lemma MergingFacts(v: Version, job: Job, maxLevel: nat)
    requires Tidy(v) && Picks(v, job, maxLevel)
    ensures LevelsInRange(Merging(v, job, maxLevel))
    ensures forall d :: d in Merging(v, job, maxLevel) ==>
              (d.level == job.level && d in v.levels[job.level][..job.n])
              || (d.level == job.level + 1 && d in v.levels[job.level + 1])
  {
    hide Merging, Inputs, Ranked, Less, Lo, Hi;
    forall d | d in Merging(v, job, maxLevel)
      ensures (d.level == job.level && d in v.levels[job.level][..job.n])
              || (d.level == job.level + 1 && d in v.levels[job.level + 1])
    {
      MergingMember(v, job, maxLevel, d);
      InputMember(v, job.level, job.n, d);
    }
  }

  lemma {:induction false} MinusMember(l: seq<Meta>, ds: seq<Meta>, x: Meta)
    ensures x in Minus(l, ds) <==> x in l && !Hits(ds, 0, x.id)
  {
    if ds == [] {
      HitsNone();
    } else {
      var k := |ds| - 1;
      MinusMember(l, ds[..k], x);
      HitsAppend(ds[..k], ds[k]);
      assert ds == ds[..k] + [ds[k]];
      WithoutMember(Minus(l, ds[..k]), ds[k].id, x);
    }
  }

  /** Deleting is dropping elements: an ascending list stays ascending. */
  lemma {:induction false} WithoutAscending(l: seq<Meta>, id: nat)
    requires AscendingIds(l)
    ensures AscendingIds(Without(l, id))
  {
    if l != [] {
      WithoutAscending(l[1..], id);
      forall m | m in Without(l[1..], id)
        ensures l[0].id < m.id
      {
        WithoutMember(l[1..], id, m);
      }
    }
  }

  lemma {:induction false} MinusAscending(l: seq<Meta>, ds: seq<Meta>)
    requires AscendingIds(l)
    ensures AscendingIds(Minus(l, ds))
  {
    if ds != [] {
      MinusAscending(l, ds[..|ds| - 1]);
      WithoutAscending(Minus(l, ds[..|ds| - 1]), ds[|ds| - 1].id);
    }
  }

  lemma {:induction false} AscendingUnique(a: seq<Meta>, b: seq<Meta>)
    requires AscendingIds(a) && AscendingIds(b) && forall x :: x in a <==> x in b
    ensures a == b
  {
    if a == [] {
      assert forall i :: 0 <= i < |b| ==> b[i] in b;
    } else {
      assert a[0] in b && b != [];
      assert b[0] in a;
      assert a[0] == b[0];
      forall x
        ensures x in a[1..] <==> x in b[1..]
      {
        assert x in a <==> x in b;
        if x in a[1..] { assert x.id > a[0].id; }
        if x in b[1..] { assert x.id > b[0].id; }
      }
      AscendingUnique(a[1..], b[1..]);
    }
  }

  /** What an exact description of the committed version has to say, level by level. */
  ghost predicate Replaced(v: Version, w: Version, job: Job, maxLevel: nat)
    requires Picks(v, job, maxLevel)
  {
    && Tidy(w)
    && (forall i, x {:trigger x in w.levels[i]} :: 0 <= i < MAX_LEVELS ==>
          (x in w.levels[i] <==> Kept(v, job, maxLevel, i, x)))
    && (forall i :: 0 <= i < MAX_LEVELS && i != job.level && i != job.level + 1 ==> w.levels[i] == v.levels[i])
    && (job.level == 0 ==> w.levels[0] == v.levels[0][job.n..])
  }

  ghost predicate Kept(v: Version, job: Job, maxLevel: nat, i: nat, x: Meta)
    requires Picks(v, job, maxLevel) && i < MAX_LEVELS
  {
    if i == job.level then x in v.levels[i] && x !in v.levels[i][..job.n]
    else if i == job.level + 1 then x in job.outs || (x in v.levels[i] && x !in Inputs(v, job.level, job.n))
    else x in v.levels[i]
  }

  lemma BaseOnly(v: Version, job: Job, maxLevel: nat, x: Meta)
    requires Tidy(v) && Picks(v, job, maxLevel) && x in v.levels[job.level]
    ensures x in Inputs(v, job.level, job.n) <==> x in v.levels[job.level][..job.n]
  {
    hide Inputs, Ranked, Less, Lo, Hi;
    InputMember(v, job.level, job.n, x);
  }

  lemma OutputsFresh(v: Version, fs: Files, job: Job, maxLevel: nat)
    requires Tidy(v) && JobOk(v, fs, job, maxLevel)
    ensures DistinctIds(v.levels[job.level + 1] + job.outs)
    ensures forall x :: x in job.outs ==> !Hits(Merging(v, job, maxLevel), job.level + 1, x.id)
  {
    hide Merging, Inputs, Ranked, Less, Compacted;
    var l := v.levels[job.level + 1];
    forall i, j | 0 <= i < j < |l + job.outs|
      ensures (l + job.outs)[i].id != (l + job.outs)[j].id
    {
      if i < |l| <= j {
        assert l[i] in l && job.outs[j - |l|] in job.outs;
      }
    }
    MergingFacts(v, job, maxLevel);
  }

  lemma CommitReplaces(v: Version, fs: Files, job: Job, maxLevel: nat)
    requires Tidy(v) && AscendingIds(v.levels[0]) && JobOk(v, fs, job, maxLevel)
    ensures Applicable(v, job, maxLevel)
    ensures Replaced(v, Committed(v, job, maxLevel), job, maxLevel)
  {
    hide Merging, Inputs, Ranked, Less, Compacted, Hits, UpdateAll, Minus;
    var out, ins := job.level + 1, Merging(v, job, maxLevel);
    OutputsFresh(v, fs, job, maxLevel);
    MergingFacts(v, job, maxLevel);
    AddAll(v, job.outs, out);
    var u := UpdateAll(v, Adds(job.outs));
    DeleteAll(u, ins);
    UpdateAllConcat(v, Adds(job.outs), Deletes(ins));
    var w := Committed(v, job, maxLevel);
    assert w == UpdateAll(u, Deletes(ins));
    forall i: nat, x | i < MAX_LEVELS && x in v.levels[i]
      ensures Hits(ins, i, x.id) <==> x in Inputs(v, job.level, job.n)
    {
      HitsInputs(v, job, maxLevel, i, x);
    }
    forall x | x in v.levels[job.level]
      ensures x in Inputs(v, job.level, job.n) <==> x in v.levels[job.level][..job.n]
    {
      BaseOnly(v, job, maxLevel, x);
    }
    if job.level == 0 {
      ZeroSuffix(v.levels[0], ins, job.n);
    }
  }

  lemma ZeroSuffix(l: seq<Meta>, ins: seq<Meta>, n: nat)
    requires AscendingIds(l) && n <= |l|
    requires forall x :: x in l ==> (Hits(ins, 0, x.id) <==> x in l[..n])
    ensures Minus(l, ins) == l[n..]
  {
    hide Hits, Minus;
    MinusAscending(l, ins);
    forall x
      ensures x in Minus(l, ins) <==> x in l[n..]
    {
      MinusMember(l, ins, x);
      assert l == l[..n] + l[n..];
    }
    AscendingUnique(Minus(l, ins), l[n..]);
  }
}