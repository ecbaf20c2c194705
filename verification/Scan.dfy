// Range scans: a merge of every source by user key, against the plain map.
module Scan {
  import opened Keys
  import opened Merge
  import opened Manifest
  import opened Levels
  import opened Commit
  import opened Meaning
  import opened Engine
  import opened EngineInv
  import opened EngineSteps
  import opened EngineRead
  import opened EngineRun

  // ---- One source ----

  /** start <= k < end; an empty end is no bound. */
  predicate Within(k: Bytes, start: Bytes, end: Bytes) {
    !Less(k, start) && (end == [] || Less(k, end))
  }

  function From(es: seq<Entry>, start: Bytes): seq<Entry> {
    if es == [] || !Less(es[0].key, start) then es else From(es[1..], start)
  }

  function Until(es: seq<Entry>, end: Bytes): seq<Entry> {
    if es == [] || (end != [] && !Less(es[0].key, end)) then [] else [es[0]] + Until(es[1..], end)
  }

  /** What a source yields: its entries from start on, until one reaches end. */
  function Clip(es: seq<Entry>, start: Bytes, end: Bytes): seq<Entry> {
    Until(From(es, start), end)
  }

  lemma {:induction false} FromFind(es: seq<Entry>, start: Bytes, k: Bytes)
    requires Sorted(es)
    ensures Sorted(From(es, start)) && forall e :: e in From(es, start) ==> e in es
    ensures Find(From(es, start), k) == if Less(k, start) then None else Find(es, k)
  {
    hide Less;
    LessIsTotalOrder();
    if es != [] {
      if Less(es[0].key, start) {
        SortedTail(es);
        FromFind(es[1..], start, k);
      } else if Less(k, start) {
        FindIndex(es, k);
        forall e | e in es
          ensures e.key != k
        {
          var i :| 0 <= i < |es| && es[i] == e;
          assert i == 0 || Before(es[0], es[i]);
        }
      }
    }
  }

  lemma SortedTail(es: seq<Entry>)
    requires Sorted(es) && es != []
    ensures Sorted(es[1..]) && forall e :: e in es[1..] ==> Before(es[0], e)
  {
    hide Less;
  }

  lemma {:induction false} UntilFind(es: seq<Entry>, end: Bytes, k: Bytes)
    requires Sorted(es)
    ensures Sorted(Until(es, end)) && forall e :: e in Until(es, end) ==> e in es
    ensures Find(Until(es, end), k) == if end == [] || Less(k, end) then Find(es, k) else None
  {
    hide Less;
    LessIsTotalOrder();
    if es != [] {
      SortedTail(es);
      if end != [] && !Less(es[0].key, end) {
        FindIndex(es, k);
        assert forall e :: e in es ==> e == es[0] || e in es[1..];
      } else {
        UntilFind(es[1..], end, k);
        assert Until(es, end)[1..] == Until(es[1..], end);
      }
    }
  }

  lemma ClipFind(es: seq<Entry>, start: Bytes, end: Bytes, k: Bytes)
    requires Sorted(es)
    ensures Sorted(Clip(es, start, end)) && forall e :: e in Clip(es, start, end) ==> e in es
    ensures Find(Clip(es, start, end), k) == if Within(k, start, end) then Find(es, k) else None
  {
    hide Less, Find, From, Until, Sorted;
    FromFind(es, start, k);
    UntilFind(From(es, start), end, k);
  }

  predicate TableOverlapsRange(first: Bytes, last: Bytes, start: Bytes, end: Bytes) {
    !(end != [] && first != [] && !Less(first, end)) && !(start != [] && last != [] && Less(last, start))
  }

  /** A file the range test skips has nothing in the range. */
  lemma SkippedIsEmpty(m: Meta, fs: Files, start: Bytes, end: Bytes)
    requires TableOk(m, fs) && !TableOverlapsRange(m.first, m.last, start, end)
    ensures Clip(fs[m.id], start, end) == []
  {
    hide Less, Clip;
    LessIsTotalOrder();
    var c := Clip(fs[m.id], start, end);
    if c != [] {
      ClipFind(fs[m.id], start, end, c[0].key);
      assert Find(c, c[0].key) == Some(c[0]);
      assert c[0] in c;
      KeysCovered(m, fs, c[0]);
      assert false;
    }
  }

  // ---- The sources, in order of priority ----

  function DeepFiles(v: Version, i: nat): seq<Meta>
    requires v.WellFormed()
    decreases MAX_LEVELS - i
  {
    if i >= MAX_LEVELS then [] else v.levels[i] + DeepFiles(v, i + 1)
  }

  function FileOrder(v: Version): seq<Meta>
    requires v.WellFormed()
  {
    SortMetas(NewestFirst, v.levels[0]) + DeepFiles(v, 1)
  }

  /** A file the range test skips, or one the cache does not have, is no source. */
  function FileSource(m: Meta, fs: Files, start: Bytes, end: Bytes): seq<Entry> {
    if TableOverlapsRange(m.first, m.last, start, end) && m.id in fs then Clip(fs[m.id], start, end) else []
  }

  function FileSources(l: seq<Meta>, fs: Files, start: Bytes, end: Bytes): seq<seq<Entry>> {
    seq(|l|, i requires 0 <= i < |l| => FileSource(l[i], fs, start, end))
  }

  function Clips(ts: seq<seq<Entry>>, start: Bytes, end: Bytes): seq<seq<Entry>> {
    seq(|ts|, i requires 0 <= i < |ts| => Clip(ts[i], start, end))
  }

  function Sources(mem: Memory, v: Version, fs: Files, start: Bytes, end: Bytes): seq<seq<Entry>>
    requires v.WellFormed()
  {
    Clips(MemOrder(mem), start, end) + FileSources(FileOrder(v), fs, start, end)
  }

  /** Every live entry of the range, as the merge shows it. */
  function LiveRange(mem: Memory, v: Version, fs: Files, start: Bytes, end: Bytes): seq<Entry>
    requires v.WellFormed()
  {
    Survivors(Merged(ByKey, Sources(mem, v, fs, start, end)), None, true)
  }

  /** The first limit entries; a limit of zero or less is none. */
  function Limited(es: seq<Entry>, limit: int): seq<Entry> {
    if limit <= 0 || |es| <= limit then es else es[..limit]
  }

  /** One source per file, in order. */
  method AddSources(l: seq<Meta>, fs: Files, start: Bytes, end: Bytes) returns (cs: seq<seq<Entry>>)
    ensures cs == FileSources(l, fs, start, end)
  {
    cs := [];
    for i := 0 to |l|
      invariant cs == FileSources(l[..i], fs, start, end)
    {
      if !TableOverlapsRange(l[i].first, l[i].last, start, end) || l[i].id !in fs {
        cs := cs + [[]];
      } else {
        cs := cs + [Clip(fs[l[i].id], start, end)];
      }
    }
    assert l[..|l|] == l;
  }

  /** The merge loop: the first version of each key, tombstones left out, until limit are found. */
  method MergeLoop(sources: seq<seq<Entry>>, limit: int) returns (results: seq<Entry>)
    ensures results == Limited(Survivors(Merged(ByKey, sources), None, true), limit)
  {
    hide Merged, Survivors, Top;
    var heap, last := sources, None;
    results := [];
    ghost var all := Survivors(Merged(ByKey, sources), None, true);
    var i := Top(ByKey, heap);
    assert results + all == all;
    while i < |heap| && (limit <= 0 || |results| < limit)
      invariant i == Top(ByKey, heap)
      invariant results + Survivors(Merged(ByKey, heap), last, true) == all
      invariant limit <= 0 || |results| <= limit
      decreases Total(heap)
    {
      var top := heap[i][0];
      MergedPop(ByKey, heap);
      ghost var rest, was := Merged(ByKey, Advance(heap, i)), results;
      SurvivorsPop(top, rest, last, true);
      if last != Some(top.key) {
        last := Remember(last, top.key);
        if !top.kind.Deletion? {
          results := results + [top];
          assert was + ([top] + Survivors(rest, last, true)) == results + Survivors(rest, last, true);
        }
      }
      heap := Advance(heap, i);
      i := Top(ByKey, heap);
    }
    if i == |heap| {
      MergedExhausted(ByKey, heap, last, true);
      assert results + [] == results;
    }
  }

  method ScanWithError(mem: Memory, v: Version, fs: Files, start: Bytes, end: Bytes, limit: int)
      returns (results: seq<Entry>)
    requires v.WellFormed()
    ensures results == Limited(LiveRange(mem, v, fs, start, end), limit)
  {
    hide Merged, Survivors, SortMetas, Limited, Clip, FileSource;
    var heap := [Clip(mem.table, start, end)];
    var i := |mem.imms|;
    ghost var mems, n := Clips(MemOrder(mem), start, end), |mem.imms|;
    while i > 0
      invariant 0 <= i <= n && heap == mems[..n - i + 1]
    {
      i := i - 1;
      heap := heap + [Clip(mem.imms[i].table, start, end)];
    }
    assert heap == mems;
    var files := AddSources(SortMetas(NewestFirst, v.levels[0]), fs, start, end);
    heap := heap + files;
    i := 1;
    SourcesFrom(mem, v, fs, start, end);
    while i < MAX_LEVELS
      invariant 1 <= i <= MAX_LEVELS
      invariant heap + FileSources(DeepFiles(v, i), fs, start, end) == Sources(mem, v, fs, start, end)
    {
      files := AddSources(v.levels[i], fs, start, end);
      FileSourcesConcat(v.levels[i], DeepFiles(v, i + 1), fs, start, end);
      assert heap + (files + FileSources(DeepFiles(v, i + 1), fs, start, end))
          == (heap + files) + FileSources(DeepFiles(v, i + 1), fs, start, end);
      heap := heap + files;
      i := i + 1;
    }
    assert heap + FileSources([], fs, start, end) == heap;
    results := MergeLoop(heap, limit);
  }

  lemma FileSourcesConcat(a: seq<Meta>, b: seq<Meta>, fs: Files, start: Bytes, end: Bytes)
    ensures FileSources(a + b, fs, start, end) == FileSources(a, fs, start, end) + FileSources(b, fs, start, end)
  {
  }

  lemma SourcesFrom(mem: Memory, v: Version, fs: Files, start: Bytes, end: Bytes)
    requires v.WellFormed()
    ensures Sources(mem, v, fs, start, end)
         == Clips(MemOrder(mem), start, end) + FileSources(SortMetas(NewestFirst, v.levels[0]), fs, start, end)
            + FileSources(DeepFiles(v, 1), fs, start, end)
  {
    hide Clip, FileSource, SortMetas, MemOrder;
    FileSourcesConcat(SortMetas(NewestFirst, v.levels[0]), DeepFiles(v, 1), fs, start, end);
  }

  // ---- The scan order answers like Get ----

  lemma {:induction false} L0Hit(l: seq<Meta>, fs: Files, k: Bytes, readSeq: nat)
    requires OnDisk(l, fs) && forall m, e :: m in l && e in fs[m.id] ==> e.seqno <= readSeq
    ensures FirstHit(Contents(l, fs), k) == FirstHitAt(l, fs, k, readSeq)
  {
    hide Find, FindAt;
    if l != [] {
      assert l[0] in l && forall m :: m in l[1..] ==> m in l;
      FindAtIsFind(fs[l[0].id], k, readSeq);
      L0Hit(l[1..], fs, k, readSeq);
      assert Contents(l, fs)[1..] == Contents(l[1..], fs);
    }
  }

  lemma DeepOnDisk(v: Version, fs: Files, i: nat)
    requires v.WellFormed() && AllOnDisk(v, fs)
    ensures OnDisk(DeepFiles(v, i), fs)
    decreases MAX_LEVELS - i
  {
    if i < MAX_LEVELS { DeepOnDisk(v, fs, i + 1); }
  }

  lemma LevelHit(v: Version, fs: Files, maxLevel: nat, readSeq: nat, i: nat, k: Bytes)
    requires VersionOk(v, fs, maxLevel) && v.WellFormed() && Visible(v, fs, readSeq) && 1 <= i < MAX_LEVELS
    requires OnDisk(v.levels[i], fs)
    ensures FirstHit(Contents(v.levels[i], fs), k) == LevelLookup(v.levels[i], fs, k, readSeq)
  {
    hide Find, FindAt, Covers, Held, FirstHit;
    var l := v.levels[i];
    LevelIsOk(v, fs, maxLevel, i);
    CandidateSuffices(l, fs, k);
    CandidateMember(l, fs, k);
    if Candidate(l, k).Some? {
      VisibleFile(v, fs, readSeq, i, Candidate(l, k).value, k);
    }
  }

  lemma LevelIsOk(v: Version, fs: Files, maxLevel: nat, i: nat)
    requires VersionOk(v, fs, maxLevel) && 1 <= i < MAX_LEVELS
    ensures LevelOk(v.levels[i], fs)
  {
  }

  lemma {:induction false} DeepHit(v: Version, fs: Files, maxLevel: nat, readSeq: nat, i: nat, k: Bytes)
    requires VersionOk(v, fs, maxLevel) && v.WellFormed() && Visible(v, fs, readSeq) && 1 <= i <= MAX_LEVELS
    requires AllOnDisk(v, fs) && OnDisk(DeepFiles(v, i), fs)
    ensures FirstHit(Contents(DeepFiles(v, i), fs), k) == DeepLookup(v, fs, i, k, readSeq)
    decreases MAX_LEVELS - i
  {
    hide VersionOk, Held, FirstHit, LevelLookup, Visible;
    if i < MAX_LEVELS {
      DeepOnDisk(v, fs, i + 1);
      LevelHit(v, fs, maxLevel, readSeq, i, k);
      DeepHit(v, fs, maxLevel, readSeq, i + 1, k);
      var a, b := Contents(v.levels[i], fs), Contents(DeepFiles(v, i + 1), fs);
      assert Contents(DeepFiles(v, i), fs) == a + b;
      FirstHitConcat(a, b, k);
    } else {
      assert Contents(DeepFiles(v, i), fs) == [];
      NoSources(k);
    }
  }

  lemma NoSources(k: Bytes)
    ensures FirstHit([], k) == None
  {
  }

  lemma ShallowHit(v: Version, fs: Files, readSeq: nat, k: Bytes)
    requires v.WellFormed() && Visible(v, fs, readSeq) && AllOnDisk(v, fs)
    ensures var l := SortMetas(NewestFirst, v.levels[0]);
            OnDisk(l, fs) && FirstHit(Contents(l, fs), k) == FirstHitAt(l, fs, k, readSeq)
  {
    hide Held, FirstHit, FirstHitAt, SortMetas;
    var l := SortMetas(NewestFirst, v.levels[0]);
    SortedOnDisk(v.levels[0], fs, NewestFirst);
    forall m, e | m in l && e in fs[m.id]
      ensures e.seqno <= readSeq
    {
      HeldBy(v, fs, 0, m, e);
    }
    L0Hit(l, fs, k, readSeq);
  }

  /** Probing the files in scan order gives what Get finds in them. */
  lemma FileOrderHit(v: Version, fs: Files, maxLevel: nat, readSeq: nat, k: Bytes)
    requires VersionOk(v, fs, maxLevel) && v.WellFormed() && Visible(v, fs, readSeq) && AllOnDisk(v, fs)
    ensures OnDisk(FileOrder(v), fs)
    ensures FirstHit(Contents(FileOrder(v), fs), k) == FileLookup(v, fs, k, readSeq)
  {
    hide VersionOk, Held, Visible, FirstHit, FirstHitAt, DeepLookup, SortMetas, DeepFiles;
    var l, deep := SortMetas(NewestFirst, v.levels[0]), DeepFiles(v, 1);
    ShallowHit(v, fs, readSeq, k);
    DeepOnDisk(v, fs, 1);
    DeepHit(v, fs, maxLevel, readSeq, 1, k);
    assert Contents(FileOrder(v), fs) == Contents(l, fs) + Contents(deep, fs);
    FirstHitConcat(Contents(l, fs), Contents(deep, fs), k);
  }

  /** Every table in reading order, unclipped. */
  ghost function Tables(mem: Memory, v: Version, fs: Files): seq<seq<Entry>>
    requires v.WellFormed() && OnDisk(FileOrder(v), fs)
  {
    MemOrder(mem) + Contents(FileOrder(v), fs)
  }

  lemma OrderedFile(v: Version, m: Meta) returns (i: nat)
    requires v.WellFormed() && m in FileOrder(v)
    ensures i < MAX_LEVELS && m in v.levels[i]
  {
    hide SortMetas;
    if m in DeepFiles(v, 1) {
      i := DeepFile(v, 1, m);
    } else {
      i := 0;
      SortedMember(v.levels[0], m);
    }
  }

  lemma SortedMember(l: seq<Meta>, m: Meta)
    requires m in SortMetas(NewestFirst, l)
    ensures m in l
  {
    assert m in multiset(SortMetas(NewestFirst, l));
  }

  lemma DeepFile(v: Version, i: nat, m: Meta) returns (j: nat)
    requires v.WellFormed() && m in DeepFiles(v, i)
    ensures j < MAX_LEVELS && m in v.levels[j]
    decreases MAX_LEVELS - i
  {
    if m in v.levels[i] { j := i; } else { j := DeepFile(v, i + 1, m); }
  }

  /** Each source is its table cut to the range. */
  lemma SourceIsClip(s: System, maxLevel: nat, start: Bytes, end: Bytes, j: nat)
    requires s.proc.Up? && UpInv(s, maxLevel) && OnDisk(FileOrder(s.disk.version), s.disk.ssts)
    requires j < |Tables(s.proc.mem, s.disk.version, s.disk.ssts)|
    ensures var t, c := Tables(s.proc.mem, s.disk.version, s.disk.ssts),
                        Sources(s.proc.mem, s.disk.version, s.disk.ssts, start, end);
            |c| == |t| && Sorted(t[j]) && c[j] == Clip(t[j], start, end) && forall e :: e in t[j] ==> e.key != []
  {
    hide MemTablesOk, FlushedRep, CompactorOk, WriterOk, FlusherOk, VersionOk, FileLayered, Held, FileOrder, Clip;
    hide Less, TableOverlapsRange, Represented, LogsExact, Sorted;
    var mem, v, fs := s.proc.mem, s.disk.version, s.disk.ssts;
    MemOrderSize(mem);
    var n := |mem.imms| + 1;
    if j < n {
      MemOrderSorted(s);
      forall e | e in MemOrder(mem)[j]
        ensures e.key != []
      {
        TableAt(s, j, e);
        LogInHist(s, WalAt(mem, j), e);
      }
    } else {
      var m := FileOrder(v)[j - n];
      assert m in FileOrder(v);
      var i := OrderedFile(v, m);
      FileOk(v, fs, maxLevel, i, m);
      if !TableOverlapsRange(m.first, m.last, start, end) {
        SkippedIsEmpty(m, fs, start, end);
      }
    }
  }

  lemma SourcesHit(s: System, maxLevel: nat, start: Bytes, end: Bytes, k: Bytes)
    requires s.proc.Up? && UpInv(s, maxLevel) && OnDisk(FileOrder(s.disk.version), s.disk.ssts)
    ensures var t, c := Tables(s.proc.mem, s.disk.version, s.disk.ssts),
                        Sources(s.proc.mem, s.disk.version, s.disk.ssts, start, end);
            && AllSorted(c) && (forall j, e :: 0 <= j < |c| && e in c[j] ==> e.key != [])
            && FirstHit(c, k) == if Within(k, start, end) then FirstHit(t, k) else None
  {
    hide UpInv, FileOrder, Clip, Tables, Sources, Sorted, Find, FirstHit, Within;
    DiskOf(s, maxLevel);
    var t, c := Tables(s.proc.mem, s.disk.version, s.disk.ssts),
                Sources(s.proc.mem, s.disk.version, s.disk.ssts, start, end);
    assert |c| == |t| by { SourceCount(s.proc.mem, s.disk.version, s.disk.ssts, start, end); }
    forall j | 0 <= j < |t|
      ensures Sorted(c[j]) && Find(c[j], k) == (if Within(k, start, end) then Find(t[j], k) else None)
      ensures forall e: Entry :: e in c[j] ==> e.key != []
    {
      SourceIsClip(s, maxLevel, start, end, j);
      ClipFind(t[j], start, end, k);
    }
    if Within(k, start, end) {
      FirstHitPointwise(c, t, k);
    } else {
      FirstHitIndex(c, k);
    }
  }

  lemma SourceCount(mem: Memory, v: Version, fs: Files, start: Bytes, end: Bytes)
    requires v.WellFormed() && OnDisk(FileOrder(v), fs)
    ensures |Sources(mem, v, fs, start, end)| == |Tables(mem, v, fs)|
  {
  }

  /** Reading a key through every table finds its last write, or nothing when that was a deletion. */
  lemma TablesFindLast(s: System, maxLevel: nat, k: Bytes, last: Option<Entry>)
    requires s.proc.Up? && UpInv(s, maxLevel) && s.proc.writer.Idle?
    requires last.Some? ==> IsLast(s.hist, last.value) && last.value.key == k
    requires last.None? ==> forall x :: x in s.hist ==> x.key != k
    ensures OnDisk(FileOrder(s.disk.version), s.disk.ssts)
    ensures var r := FirstHit(Tables(s.proc.mem, s.disk.version, s.disk.ssts), k);
            r == last || (r.None? && last.Some? && last.value.kind.Deletion?)
  {
    hide MemTablesOk, FlushedRep, CompactorOk, WriterOk, FlusherOk, VersionOk, FileLayered, Held, FileOrder, FileLookup;
    hide FirstHit, MemOrder, Represented, LogsExact;
    var mem, v, fs := s.proc.mem, s.disk.version, s.disk.ssts;
    DiskShape(s, maxLevel);
    FileOrderHit(v, fs, maxLevel, mem.seqNo, k);
    FirstHitConcat(MemOrder(mem), Contents(FileOrder(v), fs), k);
    if last.Some? && last.value.seqno > s.base {
      MemFinds(s, maxLevel, last.value);
    } else {
      MemMisses(s, maxLevel, k);
      FilesFind(s, maxLevel, k, last);
    }
  }

  lemma KeyOrderIs(m: seq<Entry>)
    requires NonDecreasing(ByKey, m)
    ensures KeyOrdered(m)
  {
    hide Less;
    forall i, j | 0 <= i < j < |m|
      ensures !Less(m[j].key, m[i].key)
    {
      assert !Precedes(ByKey, m[j], m[i]);
    }
  }

  lemma MergedSurvivors(c: seq<seq<Entry>>)
    requires AllSorted(c) && forall j, e :: 0 <= j < |c| && e in c[j] ==> e.key != []
    ensures var r := Survivors(Merged(ByKey, c), None, true);
            Ascending(r) && forall e :: e in r <==> FirstHit(c, e.key) == Some(e) && !e.kind.Deletion?
  {
    hide Merged, FirstHit, Find, Less, AllSorted, Survivors;
    var m := Merged(ByKey, c);
    MergedIsOrdered(ByKey, c);
    KeyOrderIs(m);
    forall e | e in m
      ensures e.key != []
    {
      MergedMember(ByKey, c, e);
    }
    SurvivorsExact(m, None, true);
    forall e: Entry
      ensures Find(m, e.key) == FirstHit(c, e.key)
    {
      MergedByKeyFind(c, e.key);
    }
  }

  /** e is a live binding of the plain map within the range. */
  ghost predicate Live(hist: seq<Entry>, start: Bytes, end: Bytes, e: Entry) {
    Within(e.key, start, end) && IsLast(hist, e) && e.kind.Value?
  }

  lemma LiveRangeExact(s: System, maxLevel: nat, start: Bytes, end: Bytes)
    requires s.proc.Up? && UpInv(s, maxLevel) && s.proc.writer.Idle?
    ensures var r := LiveRange(s.proc.mem, s.disk.version, s.disk.ssts, start, end);
            Ascending(r) && forall e :: e in r <==> Live(s.hist, start, end, e)
  {
    hide UpInv, FileOrder, Tables, Sources, FirstHit, Within, Merged, AllSorted, Survivors, Ascending;
    DiskOf(s, maxLevel);
    TablesOnDisk(s, maxLevel);
    var c := Sources(s.proc.mem, s.disk.version, s.disk.ssts, start, end);
    SourcesHit(s, maxLevel, start, end, []);
    MergedSurvivors(c);
    forall e
      ensures e in LiveRange(s.proc.mem, s.disk.version, s.disk.ssts, start, end) <==> Live(s.hist, start, end, e)
    {
      SourcesHit(s, maxLevel, start, end, e.key);
      var last := PlainLast(s.hist, e.key);
      TablesFindLast(s, maxLevel, e.key, last);
      if IsLast(s.hist, e) {
        SeqnoIdentifies(s.hist, e, last.value);
      }
    }
  }

  lemma DiskOf(s: System, maxLevel: nat)
    requires s.proc.Up? && UpInv(s, maxLevel)
    ensures s.disk.version.WellFormed() && HistOk(s.hist)
  {
  }

  lemma TablesOnDisk(s: System, maxLevel: nat)
    requires s.proc.Up? && UpInv(s, maxLevel) && s.proc.writer.Idle?
    ensures s.disk.version.WellFormed() && OnDisk(FileOrder(s.disk.version), s.disk.ssts)
  {
    hide UpInv, FileOrder, Tables, FirstHit;
    DiskOf(s, maxLevel);
    var last := PlainLast(s.hist, []);
    TablesFindLast(s, maxLevel, [], last);
  }

  /**
   * The scan returns, keys ascending, exactly the bindings of the plain map in [start, end): all of
   * them, or with a limit the first that many.
   */
  lemma ScanIsPlain(s: System, maxLevel: nat, start: Bytes, end: Bytes, limit: int)
    requires s.proc.Up? && UpInv(s, maxLevel) && s.proc.writer.Idle?
    ensures var r, m := Limited(LiveRange(s.proc.mem, s.disk.version, s.disk.ssts, start, end), limit), Plain(s.hist);
            && Ascending(r)
            && (forall e :: e in r ==> Within(e.key, start, end) && e.key in m && m[e.key] == e.value)
            && (limit > 0 ==> |r| <= limit)
            && (forall k :: k in m && Within(k, start, end) ==>
                  || (exists e :: e in r && e.key == k)
                  || (limit > 0 && |r| == limit && forall e :: e in r ==> Less(e.key, k)))
  {
    hide UpInv, Within, LiveRange, Less, Plain, IsLast;
    DiskOf(s, maxLevel);
    var all, m := LiveRange(s.proc.mem, s.disk.version, s.disk.ssts, start, end), Plain(s.hist);
    var r := Limited(all, limit);
    LiveRangeExact(s, maxLevel, start, end);
    forall e | e in r
      ensures Within(e.key, start, end) && e.key in m && m[e.key] == e.value
    {
      assert e in all;
      var last := PlainLast(s.hist, e.key);
      SameLast(s.hist, e, last);
    }
    forall k | k in m && Within(k, start, end)
      ensures (exists e :: e in r && e.key == k) || (limit > 0 && |r| == limit && forall e :: e in r ==> Less(e.key, k))
    {
      var last := PlainLast(s.hist, k);
      assert last.value in all;
      var i :| 0 <= i < |all| && all[i] == last.value;
      if i < |r| {
        assert r[i] in r;
      }
    }
  }

  lemma SameLast(hist: seq<Entry>, e: Entry, last: Option<Entry>)
    requires HistOk(hist) && IsLast(hist, e)
    requires last.Some? ==> IsLast(hist, last.value) && last.value.key == e.key
    requires last.None? ==> forall x :: x in hist ==> x.key != e.key
    ensures last == Some(e)
  {
    SeqnoIdentifies(hist, e, last.value);
  }

  /** A scan and Get agree on every key the scan returns, save an empty value Get reads from a file. */
  lemma ScanAgreesWithGet(s: System, maxLevel: nat, start: Bytes, end: Bytes, limit: int, e: Entry)
    requires s.proc.Up? && UpInv(s, maxLevel) && s.proc.writer.Idle?
    requires s.disk.version.WellFormed() && e in Limited(LiveRange(s.proc.mem, s.disk.version, s.disk.ssts, start, end), limit)
    ensures AllOnDisk(s.disk.version, s.disk.ssts)
    ensures Get(s.proc.mem, s.disk.version, s.disk.ssts, e.key) == Found(e.value) <==> !EmptyOnDisk(s, e.key)
  {
    hide UpInv, LiveRange, Limited, Get, EmptyOnDisk, Plain;
    ScanIsPlain(s, maxLevel, start, end, limit);
    GetIsPlain(s, maxLevel, e.key);
  }
}
