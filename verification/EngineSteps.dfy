// Every step of the engine keeps the invariant.
module EngineSteps {
  import opened Keys
  import opened Merge
  import opened Manifest
  import opened Levels
  import opened Compaction
  import opened Commit
  import opened Meaning
  import opened Table
  import opened Engine
  import opened EngineInv

  // ---- History ----

  lemma SeqnoIdentifies(hist: seq<Entry>, a: Entry, b: Entry)
    requires HistOk(hist) && a in hist && b in hist && a.seqno == b.seqno
    ensures a == b
  {
    var i :| 0 <= i < |hist| && hist[i] == a;
    var j :| 0 <= j < |hist| && hist[j] == b;
    assert !(i < j) && !(j < i);
  }

  lemma SubsetIdentifies(hist: seq<Entry>, es: seq<Entry>)
    requires HistOk(hist) && forall e :: e in es ==> e in hist
    ensures SeqnosIdentify(es)
  {
    forall a, b | a in es && b in es && a.seqno == b.seqno
      ensures a == b
    {
      SeqnoIdentifies(hist, a, b);
    }
  }

  lemma StampFacts(ops: seq<Op>, seqNo: nat)
    ensures |Stamp(ops, seqNo)| == |ops|
    ensures forall i :: 0 <= i < |ops| ==> Stamp(ops, seqNo)[i].seqno == seqNo + 1 + i
    ensures forall i :: 0 <= i < |ops| ==> Stamp(ops, seqNo)[i].key == ops[i].key
    ensures forall e :: e in Stamp(ops, seqNo) ==> seqNo < e.seqno <= seqNo + |ops|
  {
  }

  lemma HistGrows(hist: seq<Entry>, base: nat, seqNo: nat, b: seq<Entry>)
    requires HistOk(hist) && NumberedOk(hist, base, seqNo, b)
    ensures HistOk(hist + b) && forall e :: e in hist ==> e !in b
    ensures forall e :: IsLast(hist + b, e) && e !in b ==> IsLast(hist, e)
  {
    forall i, j | 0 <= i < j < |hist + b|
      ensures (hist + b)[i].seqno < (hist + b)[j].seqno
    {
      if i < |hist| <= j {
        assert hist[i] in hist && b[j - |hist|] in b;
      }
    }
  }

  lemma OnLogOf(wals: map<nat, seq<Entry>>, w: nat, e: Entry)
    requires w in wals && e in wals[w]
    ensures OnLog(wals, e)
  {
  }

  // ---- Writes ----

  lemma NumberKeeps(s: System, op: Op, maxLevel: nat)
    requires Inv(s, maxLevel) && CanNumber(s, op)
    ensures Inv(DoNumber(s, op), maxLevel)
  {
    hide FilesOk, FilesRep, Held, CompactorOk, LogsExact, MemTablesOk, FlusherOk, NumberedOk;
    var s', p := DoNumber(s, op), s.proc;
    NumberedMem(s, s');
    NumberedFlusher(s, s');
    OneMoreNumber(s.hist, s.base, p.mem.seqNo, if p.writer.Idle? then [] else p.writer.batch, StampOp(op, p.mem.seqNo + 1));
    assert LogsExact(s') by { SameLogs(s, s'); }
  }

  lemma SameLogs(s: System, s': System)
    requires LogsExact(s) && s'.disk.wals == s.disk.wals && s'.disk.version == s.disk.version && s'.hist == s.hist && s'.cut == s.cut
    ensures LogsExact(s')
  {
  }

  lemma OneMoreNumber(hist: seq<Entry>, base: nat, seqNo: nat, b: seq<Entry>, e: Entry)
    requires b == [] || NumberedOk(hist, base, seqNo, b)
    requires base <= seqNo && e.seqno == seqNo + 1 && e.key != [] && forall x :: x in hist ==> x.seqno <= seqNo
    ensures NumberedOk(hist, base, seqNo + 1, b + [e])
  {
    assert forall i :: 0 <= i < |b| ==> b[i] in b;
  }

  lemma RefuseKeeps(s: System, maxLevel: nat)
    requires Inv(s, maxLevel) && CanRefuse(s)
    ensures Inv(DoRefuse(s), maxLevel)
  {
    hide FilesOk, FilesRep, Held, CompactorOk, OnLog, MemTablesOk, FlusherOk;
    NumberedMem(s, DoRefuse(s));
    NumberedFlusher(s, DoRefuse(s));
  }

  /** Taking and abandoning numbers does not concern the memtables. */
  lemma NumberedMem(s: System, s': System)
    requires s.proc.Up? && s'.proc.Up? && MemTablesOk(s)
    requires s'.disk == s.disk && s'.base == s.base && s'.proc.flusher == s.proc.flusher
    requires s'.proc.mem == s.proc.mem.(seqNo := s'.proc.mem.seqNo)
    requires s.proc.writer.Idle? || s.proc.writer.Numbered?
    requires s'.proc.writer.Idle? || s'.proc.writer.Numbered?
    ensures MemTablesOk(s')
  {
    hide Sorted, WalsOrdered;
    forall w | w in s'.disk.wals && s'.disk.wals[w] != []
      ensures WalOwned(s'.proc, w)
    {
      assert WalOwned(s.proc, w);
    }
    assert forall i :: 0 <= i < |s.proc.mem.imms| ==> ImmOk(s, s.proc.mem.imms[i]);
  }

  lemma NumberedFlusher(s: System, s': System)
    requires s.proc.Up? && s'.proc.Up? && s.disk.version.WellFormed() && FlusherOk(s)
    requires s'.disk == s.disk && s'.base == s.base && s'.proc.flusher == s.proc.flusher
    requires s'.proc.compactor == s.proc.compactor && s'.proc.mem == s.proc.mem.(seqNo := s'.proc.mem.seqNo)
    ensures FlusherOk(s')
  {
    hide Owned;
  }

  lemma AppendKeeps(s: System, maxLevel: nat)
    requires Inv(s, maxLevel) && CanAppend(s)
    ensures Inv(DoAppend(s), maxLevel)
  {
    hide FilesOk, FilesRep, Held, MemTablesOk, LogsExact, FlusherOk, CompactorOk, NumberedOk;
    var b := s.proc.writer.batch;
    HistGrows(s.hist, s.base, s.proc.mem.seqNo, b);
    BatchFacts(s.hist, s.base, s.proc.mem.seqNo, b);
    AppendLogs(s);
    AppendMem(s);
    AppendFlusher(s);
    FlushedInHist(s);
  }

  lemma BatchFacts(hist: seq<Entry>, base: nat, seqNo: nat, b: seq<Entry>)
    requires NumberedOk(hist, base, seqNo, b)
    ensures b != [] && (forall e :: e in b ==> base < e.seqno <= seqNo)
    ensures forall x, e :: x in hist && e in b ==> x.seqno < e.seqno
  {
  }

  /** The memtable being flushed holds only entries of the history. */
  lemma FlushedInHist(s: System)
    requires s.proc.Up? && LogsExact(s) && MemTablesOk(s)
    ensures s.proc.mem.imms != [] ==> forall e :: e in s.proc.mem.imms[0].table ==> e in s.hist
  {
    if s.proc.mem.imms != [] {
      var imm := s.proc.mem.imms[0];
      forall e | e in imm.table
        ensures e in s.hist
      {
        OnLogOf(s.disk.wals, imm.wal, e);
      }
    }
  }

  /** While no rotation is under way the active log is the newest on disk that holds anything. */
  lemma ActiveIsNewest(s: System)
    requires s.proc.Up? && s.disk.version.WellFormed() && MemTablesOk(s) && FlusherOk(s)
    requires !s.proc.writer.Created? && !s.proc.writer.Noted?
    ensures forall w :: w in s.disk.wals && s.disk.wals[w] != [] ==> w <= s.proc.mem.wal
  {
    hide ImmOk, WalsOrdered, Sorted;
    forall w | w in s.disk.wals && s.disk.wals[w] != []
      ensures w <= s.proc.mem.wal
    {
      assert WalOwned(s.proc, w);
    }
  }

  lemma LogInHist(s: System, w: nat, e: Entry)
    requires LogsExact(s) && w in s.disk.wals && e in s.disk.wals[w]
    ensures e in s.hist && e.seqno > s.cut
  {
    OnLogOf(s.disk.wals, w, e);
  }

  /** Immutables whose logs are untouched are as they were. */
  lemma SameImms(s: System, s': System)
    requires s.proc.Up? && MemTablesOk(s) && s'.base == s.base
    requires forall i :: 0 <= i < |s.proc.mem.imms| && s.proc.mem.imms[i].wal in s.disk.wals ==>
               var w := s.proc.mem.imms[i].wal; w in s'.disk.wals && s'.disk.wals[w] == s.disk.wals[w]
    ensures forall i :: 0 <= i < |s.proc.mem.imms| ==> ImmOk(s', s.proc.mem.imms[i])
    ensures forall i :: 0 <= i < |s.proc.mem.imms| ==> s.proc.mem.imms[i].wal < s.proc.mem.wal
    ensures forall i, j :: 0 <= i < j < |s.proc.mem.imms| ==> s.proc.mem.imms[i].wal < s.proc.mem.imms[j].wal
  {
    hide Sorted, WalsOrdered, WalOwned;
    assert forall i :: 0 <= i < |s.proc.mem.imms| ==> ImmOk(s, s.proc.mem.imms[i]);
  }

  /** Later entries at the end of the newest log keep the logs in order. */
  lemma AppendOrdered(wals: map<nat, seq<Entry>>, w: nat, batch: seq<Entry>)
    requires WalsOrdered(wals) && w in wals && (forall x :: x in wals && wals[x] != [] ==> x <= w)
    requires forall x, e, y :: x in wals && e in wals[x] && y in batch ==> e.seqno < y.seqno
    ensures WalsOrdered(wals[w := wals[w] + batch])
  {
    assert forall b, y :: b in wals && w < b ==> y !in wals[b];
  }

  lemma AppendMem(s: System)
    requires s.proc.Up? && s.disk.version.WellFormed() && CanAppend(s)
    requires LogsExact(s) && Bounded(s, s.proc.mem) && MemTablesOk(s) && WriterOk(s) && FlusherOk(s)
    ensures MemTablesOk(DoAppend(s)) && WriterOk(DoAppend(s))
  {
    hide Sorted, FlusherOk, LogsExact, WalsOrdered, ImmOk, NumberedOk;
    var s', p := DoAppend(s), s.proc;
    var b := p.writer.batch;
    BatchFacts(s.hist, s.base, p.mem.seqNo, b);
    ActiveIsNewest(s);
    forall w, e | w in s.disk.wals && e in s.disk.wals[w]
      ensures e in s.hist
    {
      LogInHist(s, w, e);
    }
    AppendOrdered(s.disk.wals, p.mem.wal, b);
    SameImms(s, s');
    forall w | w in s'.disk.wals && s'.disk.wals[w] != []
      ensures WalOwned(s'.proc, w)
    {
      assert w != p.mem.wal ==> WalOwned(p, w);
    }
  }

  lemma AppendFlusher(s: System)
    requires s.proc.Up? && s.disk.version.WellFormed() && CanAppend(s) && WriterOk(s)
    requires Bounded(s, s.proc.mem) && MemTablesOk(s) && FlusherOk(s)
    ensures FlusherOk(DoAppend(s))
  {
    hide Sorted, WalsOrdered, WalOwned, Owned;
    if s.proc.flusher.Sealed? {
      assert ImmOk(s, s.proc.mem.imms[0]);
    }
  }

  lemma AppendLogs(s: System)
    requires s.proc.Up? && CanAppend(s) && LogsExact(s) && Bounded(s, s.proc.mem) && WriterOk(s)
    ensures LogsExact(DoAppend(s))
  {
    var s', p := DoAppend(s), s.proc;
    var b := p.writer.batch;
    forall e
      ensures OnLog(s'.disk.wals, e) <==> e in s'.hist && e.seqno > s.cut
    {
      assert OnLog(s.disk.wals, e) <==> e in s.hist && e.seqno > s.cut;
      if OnLog(s.disk.wals, e) {
        var w :| w in s.disk.wals && e in s.disk.wals[w];
        OnLogOf(s'.disk.wals, w, e);
      }
      if e in b {
        OnLogOf(s'.disk.wals, p.mem.wal, e);
      }
    }
  }

  lemma ApplyKeeps(s: System, maxLevel: nat)
    requires Inv(s, maxLevel) && CanApply(s)
    ensures Inv(DoApply(s), maxLevel)
  {
    hide FilesOk, FilesRep, Held, CompactorOk, InsertAll, MemTablesOk, OnLog;
    ApplyMem(s);
  }

  lemma ApplyMem(s: System)
    requires s.proc.Up? && CanApply(s) && HistOk(s.hist) && LogsExact(s) && MemTablesOk(s) && WriterOk(s)
    ensures MemTablesOk(DoApply(s))
    ensures forall e :: e in s.proc.mem.table ==> e in DoApply(s).proc.mem.table
  {
    hide Sorted, InsertAll, WalsOrdered, HistOk, OnLog;
    var s', p := DoApply(s), s.proc;
    forall e | e in p.mem.table + p.writer.batch
      ensures e in s.hist
    {
      LogInHist(s, p.mem.wal, e);
    }
    SubsetIdentifies(s.hist, p.mem.table + p.writer.batch);
    InsertAllMember(p.mem.table, p.writer.batch);
    forall w | w in s'.disk.wals && s'.disk.wals[w] != []
      ensures WalOwned(s'.proc, w)
    {
      assert WalOwned(p, w);
    }
    assert forall i :: 0 <= i < |p.mem.imms| ==> ImmOk(s, p.mem.imms[i]);
  }

  // ---- Rotation ----

  lemma RotateCreateKeeps(s: System, maxLevel: nat)
    requires Inv(s, maxLevel) && CanRotateCreate(s)
    ensures Inv(DoRotateCreate(s), maxLevel)
  {
    hide FilesOk, FilesRep, Held, MemTablesOk, LogsExact, FlusherOk, CompactorOk;
    CreateLogs(s, maxLevel);
    CreateMem(s, maxLevel);
    CreateFlusher(s, maxLevel);
  }

  lemma CreateLogs(s: System, maxLevel: nat)
    requires s.proc.Up? && CanRotateCreate(s) && LogsExact(s) && Bounded(s, s.proc.mem)
    ensures LogsExact(DoRotateCreate(s))
  {
    var s' := DoRotateCreate(s);
    forall e
      ensures OnLog(s'.disk.wals, e) <==> OnLog(s.disk.wals, e)
    {
      if OnLog(s.disk.wals, e) {
        var w :| w in s.disk.wals && e in s.disk.wals[w];
        OnLogOf(s'.disk.wals, w, e);
      }
    }
  }

  lemma CreateOrdered(wals: map<nat, seq<Entry>>, w: nat)
    requires WalsOrdered(wals)
    ensures WalsOrdered(wals[w := []])
  {
  }

  lemma CreateMem(s: System, maxLevel: nat)
    requires s.proc.Up? && s.disk.version.WellFormed() && CanRotateCreate(s)
    requires Bounded(s, s.proc.mem) && MemTablesOk(s) && WriterOk(s)
    ensures MemTablesOk(DoRotateCreate(s)) && WriterOk(DoRotateCreate(s))
  {
    hide Sorted, WalsOrdered, ImmOk;
    CreateOrdered(s.disk.wals, s.proc.mem.nextID + 1);
    var s', p := DoRotateCreate(s), s.proc;
    SameImms(s, s');
    forall w | w in s'.disk.wals && s'.disk.wals[w] != []
      ensures WalOwned(s'.proc, w)
    {
      assert w in s.disk.wals ==> WalOwned(p, w);
    }
  }

  lemma CreateFlusher(s: System, maxLevel: nat)
    requires s.proc.Up? && s.disk.version.WellFormed() && CanRotateCreate(s)
    requires Bounded(s, s.proc.mem) && FlusherOk(s)
    ensures FlusherOk(DoRotateCreate(s))
  {
  }

  /** An edit that only raises a mark leaves everything about the files alone. */
  lemma MarkKeepsFiles(s: System, e: Edit, maxLevel: nat)
    requires DiskInv(s, maxLevel) && (e == LogEdit(e.logNumber) || e == SeqEdit(e.maxSeqNo))
    ensures var w := Update(s.disk.version, e);
            && w.levels == s.disk.version.levels && w.maxSeqNo >= s.disk.version.maxSeqNo
            && FilesOk(w, s.disk.ssts, maxLevel)
            && (forall x :: Held(w, s.disk.ssts, x) <==> Held(s.disk.version, s.disk.ssts, x))
            && (forall x :: FilesRep(w, s.disk.ssts, x) <==> FilesRep(s.disk.version, s.disk.ssts, x))
  {
    hide VersionOk, FileLayered, Held, FilesRep;
    var v := s.disk.version;
    var w := Update(v, e);
    FrameFiles(v, s.disk.ssts, w, s.disk.ssts, maxLevel);
    forall x
      ensures FilesRep(w, s.disk.ssts, x) <==> FilesRep(v, s.disk.ssts, x)
    {
      FrameRep(v, s.disk.ssts, w, s.disk.ssts, x);
    }
  }

  lemma MarkKeepsCompactor(c: Compactor, v: Version, w: Version, fs: Files, maxLevel: nat)
    requires v.WellFormed() && w.WellFormed() && w.levels == v.levels && CompactorOk(c, v, fs, maxLevel)
    ensures CompactorOk(c, w, fs, maxLevel)
  {
    hide Compacted, Flatten, Less, Lo, Hi, Overlapping, SortMetas;
    if c.Written? || c.Writing? {
      var job := if c.Written? then c.job else Job(c.level, c.n, c.outs);
      assert Inputs(w, job.level, job.n) == Inputs(v, job.level, job.n);
      assert Merging(w, job, maxLevel) == Merging(v, job, maxLevel);
    }
  }

  lemma NotedMemTables(s: System)
    requires s.proc.Up? && CanRotateNote(s) && MemTablesOk(s)
    ensures MemTablesOk(DoRotateNote(s))
  {
    hide Sorted, WalsOrdered, Update;
    var s' := DoRotateNote(s);
    forall w | w in s'.disk.wals && s'.disk.wals[w] != []
      ensures WalOwned(s'.proc, w)
    {
      assert WalOwned(s.proc, w);
    }
    assert forall i :: 0 <= i < |s.proc.mem.imms| ==> ImmOk(s, s.proc.mem.imms[i]);
  }

  lemma RotateNoteKeeps(s: System, maxLevel: nat)
    requires Inv(s, maxLevel) && CanRotateNote(s)
    ensures Inv(DoRotateNote(s), maxLevel)
  {
    hide FilesOk, FilesRep, Held, CompactorOk, Update, OnLog, MemTablesOk;
    var s' := DoRotateNote(s);
    NotedMemTables(s);
    MarkKeepsFiles(s, LogEdit(s.proc.writer.wal), maxLevel);
    MarkKeepsCompactor(s.proc.compactor, s.disk.version, s'.disk.version, s.disk.ssts, maxLevel);
    assert forall id :: Referenced(s'.disk.version, id) <==> Referenced(s.disk.version, id);
  }

  lemma RotateSwapKeeps(s: System, maxLevel: nat)
    requires Inv(s, maxLevel) && CanRotateSwap(s)
    ensures Inv(DoRotateSwap(s), maxLevel)
  {
    hide FilesOk, FilesRep, Held, MemTablesOk, CompactorOk, OnLog;
    SwapMem(s, maxLevel);
  }

  lemma SwapMem(s: System, maxLevel: nat)
    requires s.proc.Up? && s.disk.version.WellFormed() && CanRotateSwap(s)
    requires MemTablesOk(s) && WriterOk(s)
    ensures MemTablesOk(DoRotateSwap(s))
  {
    var s', p := DoRotateSwap(s), s.proc;
    var n, imms' := |p.mem.imms|, s'.proc.mem.imms;
    assert forall i :: 0 <= i < n ==> imms'[i] == p.mem.imms[i];
    assert imms'[n].wal == p.mem.wal;
    forall w | w in s'.disk.wals && s'.disk.wals[w] != []
      ensures WalOwned(s'.proc, w)
    {
      assert WalOwned(p, w);
      if i :| 0 <= i < n && p.mem.imms[i].wal == w {
        assert imms'[i].wal == w;
      }
    }
    assert ImmOk(s', imms'[n]);
    assert forall i :: 0 <= i < n ==> ImmOk(s, p.mem.imms[i]) ==> ImmOk(s', imms'[i]);
  }

  // ---- Flush ----

  /** Files the version does not name do not matter. */
  lemma OtherFilesKeep(s: System, fs: Files, maxLevel: nat)
    requires DiskInv(s, maxLevel)
    requires forall id :: Referenced(s.disk.version, id) && id in s.disk.ssts ==> id in fs && fs[id] == s.disk.ssts[id]
    ensures FilesOk(s.disk.version, fs, maxLevel)
    ensures forall x :: Held(s.disk.version, fs, x) <==> Held(s.disk.version, s.disk.ssts, x)
    ensures forall x :: FilesRep(s.disk.version, fs, x) <==> FilesRep(s.disk.version, s.disk.ssts, x)
  {
    hide VersionOk, FileLayered, Held, FilesRep;
    var v := s.disk.version;
    forall i, m {:trigger m in v.levels[i]} | 0 <= i < MAX_LEVELS && m in v.levels[i] && m.id in s.disk.ssts
      ensures m.id in fs && fs[m.id] == s.disk.ssts[m.id]
    {
      assert Referenced(v, m.id);
    }
    FrameFiles(v, s.disk.ssts, v, fs, maxLevel);
    forall x
      ensures FilesRep(v, fs, x) <==> FilesRep(v, s.disk.ssts, x)
    {
      FrameRep(v, s.disk.ssts, v, fs, x);
    }
  }

  /** A number above every file on disk is new to the version, and may be the next of L0. */
  lemma NewNumber(s: System, id: nat, maxLevel: nat)
    requires DiskInv(s, maxLevel) && forall x :: x in s.disk.ssts ==> x < id
    ensures !Referenced(s.disk.version, id) && forall m :: m in s.disk.version.levels[0] ==> m.id < id
  {
    hide FileLayered, FilesRep, LevelOk, Less, Ranked, Sorted, FilesDrawn, LogsExact, Represented;
    var v := s.disk.version;
    forall i, m {:trigger m in v.levels[i]} | 0 <= i < MAX_LEVELS && m in v.levels[i]
      ensures m.id < id
    {
      TableOnDisk(v.levels[i], s.disk.ssts, m);
    }
  }

  /** A job only looks at its inputs and outputs. */
  lemma FrameJob(v: Version, fs: Files, gs: Files, job: Job, maxLevel: nat)
    requires JobOk(v, fs, job, maxLevel) && v.WellFormed()
    requires forall m :: (m in job.outs || m in Inputs(v, job.level, job.n)) && m.id in fs ==> m.id in gs && gs[m.id] == fs[m.id]
    ensures JobOk(v, gs, job, maxLevel)
  {
    hide Inputs, Compacted, Flatten, Sorted, Less, Merging;
    SameSources(v, fs, gs, job, maxLevel);
  }

  lemma FramePart(v: Version, fs: Files, gs: Files, job: Job, maxLevel: nat)
    requires PartOk(v, fs, job, maxLevel) && v.WellFormed()
    requires forall m :: (m in job.outs || m in Inputs(v, job.level, job.n)) && m.id in fs ==> m.id in gs && gs[m.id] == fs[m.id]
    ensures PartOk(v, gs, job, maxLevel)
  {
    hide Inputs, Compacted, Flatten, Sorted, Less, Merging;
    SameSources(v, fs, gs, job, maxLevel);
  }

  lemma SameSources(v: Version, fs: Files, gs: Files, job: Job, maxLevel: nat)
    requires Fillable(v, fs, job, maxLevel)
    requires forall m :: (m in job.outs || m in Inputs(v, job.level, job.n)) && m.id in fs ==> m.id in gs && gs[m.id] == fs[m.id]
    ensures Fillable(v, gs, job, maxLevel) && Contents(job.outs, gs) == Contents(job.outs, fs)
    ensures Contents(Merging(v, job, maxLevel), gs) == Contents(Merging(v, job, maxLevel), fs)
  {
    hide Merging, Inputs;
    forall m | m in Merging(v, job, maxLevel)
      ensures m in Inputs(v, job.level, job.n)
    {
      MergingMember(v, job, maxLevel, m);
    }
    SameContents(job.outs, fs, gs);
    SameContents(Merging(v, job, maxLevel), fs, gs);
  }

  lemma InputReferenced(v: Version, job: Job, maxLevel: nat, m: Meta)
    requires Picks(v, job, maxLevel) && m in Inputs(v, job.level, job.n)
    ensures Referenced(v, m.id)
  {
    hide Inputs;
    InputIsFile(v, job, maxLevel, m);
  }

  /** The compaction worker only looks at files the version names, and at its own. */
  lemma FrameCompactor(c: Compactor, v: Version, fs: Files, gs: Files, maxLevel: nat)
    requires v.WellFormed() && CompactorOk(c, v, fs, maxLevel)
    requires forall id :: (Referenced(v, id) || id in Owned(c)) && id in fs ==> id in gs && gs[id] == fs[id]
    ensures CompactorOk(c, v, gs, maxLevel)
  {
    hide JobOk, PartOk, Referenced, Inputs;
    if c.Written? || c.Writing? {
      var job := if c.Written? then c.job else Job(c.level, c.n, c.outs);
      assert Picks(v, job, maxLevel) by { JobPicks(c, v, fs, maxLevel); }
      forall m | m in job.outs || m in Inputs(v, job.level, job.n)
        ensures m.id in Owned(c) || Referenced(v, m.id)
      {
        if m !in job.outs { InputReferenced(v, job, maxLevel, m); }
      }
      if c.Written? {
        FrameJob(v, fs, gs, job, maxLevel);
      } else {
        FramePart(v, fs, gs, job, maxLevel);
      }
    }
  }

  lemma JobPicks(c: Compactor, v: Version, fs: Files, maxLevel: nat)
    requires CompactorOk(c, v, fs, maxLevel) && (c.Written? || c.Writing?)
    ensures Picks(v, if c.Written? then c.job else Job(c.level, c.n, c.outs), maxLevel)
  {
    hide Inputs, Merging, Compacted;
  }

  lemma SameContents(l: seq<Meta>, fs: Files, gs: Files)
    requires OnDisk(l, fs) && forall m :: m in l ==> m.id in gs && gs[m.id] == fs[m.id]
    ensures Contents(l, gs) == Contents(l, fs)
  {
    assert forall i :: 0 <= i < |l| ==> l[i] in l;
  }

  lemma FlushCreateKeeps(s: System, maxLevel: nat)
    requires Inv(s, maxLevel) && CanFlushCreate(s)
    ensures Inv(DoFlushCreate(s), maxLevel)
  {
    hide FilesOk, FilesRep, Held, MemTablesOk, WriterOk, OnLog, CompactorOk, Referenced, Owned;
    var s', id := DoFlushCreate(s), s.proc.mem.nextID + 1;
    SameMemTables(s, s');
    SameWriter(s, s');
    NewNumber(s, id, maxLevel);
    OtherFilesKeep(s, s'.disk.ssts, maxLevel);
    FrameCompactor(s.proc.compactor, s.disk.version, s.disk.ssts, s'.disk.ssts, maxLevel);
  }

  lemma FlushWriteKeeps(s: System, maxLevel: nat)
    requires Inv(s, maxLevel) && CanFlushWrite(s)
    ensures Inv(DoFlushWrite(s), maxLevel)
  {
    hide FilesOk, FilesRep, Held, MemTablesOk, WriterOk, OnLog, CompactorOk, Referenced, Owned;
    var s' := DoFlushWrite(s);
    SameMemTables(s, s');
    SameWriter(s, s');
    OtherFilesKeep(s, s'.disk.ssts, maxLevel);
    FrameCompactor(s.proc.compactor, s.disk.version, s.disk.ssts, s'.disk.ssts, maxLevel);
  }

  lemma FlushEmptyKeeps(s: System, maxLevel: nat)
    requires Inv(s, maxLevel) && CanFlushEmpty(s)
    ensures Inv(DoFlushEmpty(s), maxLevel)
  {
    hide FilesOk, FilesRep, Held, MemTablesOk, WriterOk, OnLog, CompactorOk, Referenced, Owned;
    var s' := DoFlushEmpty(s);
    EmptyMem(s);
    SameWriter(s, s');
    OtherFilesKeep(s, s'.disk.ssts, maxLevel);
    FrameCompactor(s.proc.compactor, s.disk.version, s.disk.ssts, s'.disk.ssts, maxLevel);
  }

  /** A memtable without entries leaves, and its log has none either. */
  lemma EmptyMem(s: System)
    requires s.proc.Up? && MemTablesOk(s) && CanFlushEmpty(s)
    ensures MemTablesOk(DoFlushEmpty(s))
  {
    hide Sorted, WalsOrdered;
    var s', p := DoFlushEmpty(s), s.proc;
    var imms' := s'.proc.mem.imms;
    assert ImmOk(s, p.mem.imms[0]);
    assert forall i :: 0 <= i < |imms'| ==> imms'[i] == p.mem.imms[i + 1];
    forall i | 0 <= i < |imms'|
      ensures ImmOk(s', imms'[i]) && imms'[i].wal < p.mem.wal
    {
      assert ImmOk(s, p.mem.imms[i + 1]);
    }
    forall w | w in s'.disk.wals && s'.disk.wals[w] != []
      ensures WalOwned(s'.proc, w)
    {
      assert WalOwned(p, w);
      if i :| 0 <= i < |p.mem.imms| && p.mem.imms[i].wal == w {
        assert i > 0 && imms'[i - 1].wal == w;
      }
    }
  }

  /** es may become the newest L0 file: no file holds a newer version of any of its keys. */
  ghost predicate Newer(v: Version, fs: Files, es: seq<Entry>)
    requires v.WellFormed()
  {
    forall x, y :: Held(v, fs, x) && y in es && x.key == y.key ==>
      Find(es, y.key).Some? && x.seqno <= Find(es, y.key).value.seqno
  }

  lemma AddedLevels(v: Version, m: Meta)
    requires v.WellFormed() && m.level == 0
    ensures Update(v, AddL0(m)).levels == v.levels[0 := v.levels[0] + [m]]
    ensures Update(v, AddL0(m)).maxSeqNo == v.maxSeqNo
  {
    SortLevelZero(v.levels[0] + [m]);
  }

  lemma AddFileHolds(v: Version, fs: Files, id: nat)
    requires v.WellFormed() && id in fs && fs[id] != []
    ensures var w := Update(v, AddL0(MetaOf(id, 0, fs[id])));
            forall e :: Held(w, fs, e) <==> Held(v, fs, e) || e in fs[id]
  {
    var m := MetaOf(id, 0, fs[id]);
    var w := Update(v, AddL0(m));
    AddedLevels(v, m);
    forall e
      ensures Held(w, fs, e) <==> Held(v, fs, e) || e in fs[id]
    {
      if Held(v, fs, e) {
        var i, x :| 0 <= i < MAX_LEVELS && x in v.levels[i] && x.id in fs && e in fs[x.id];
        assert x in w.levels[i];
        HeldBy(w, fs, i, x, e);
      }
      if e in fs[id] {
        assert w.levels[0][|v.levels[0]|] == m;
        HeldBy(w, fs, 0, m, e);
      }
      if Held(w, fs, e) {
        var i, x :| 0 <= i < MAX_LEVELS && x in w.levels[i] && x.id in fs && e in fs[x.id];
        if x in v.levels[i] {
          HeldBy(v, fs, i, x, e);
        }
      }
    }
  }

  lemma MetaTable(id: nat, fs: Files)
    requires id in fs && fs[id] != [] && Sorted(fs[id]) && forall e :: e in fs[id] ==> e.key != []
    ensures TableOk(MetaOf(id, 0, fs[id]), fs)
    ensures MetaOf(id, 0, fs[id]).id == id && MetaOf(id, 0, fs[id]).level == 0
  {
    hide Less;
  }

  lemma AddFileVersionOk(v: Version, fs: Files, id: nat, maxLevel: nat)
    requires VersionOk(v, fs, maxLevel) && 1 <= maxLevel
    requires id in fs && fs[id] != [] && Sorted(fs[id]) && forall e :: e in fs[id] ==> e.key != []
    requires !Referenced(v, id) && forall m :: m in v.levels[0] ==> m.id < id
    ensures VersionOk(Update(v, AddL0(MetaOf(id, 0, fs[id]))), fs, maxLevel)
  {
    assert v.WellFormed();
    hide LevelOk, TableOk, Less, Tidy, AscendingIds, Update, MetaOf;
    var m := MetaOf(id, 0, fs[id]);
    var w := Update(v, AddL0(m));
    MetaTable(id, fs);
    AddedLevels(v, m);
    AddedIds(v, w, m);
    AddedTidy(v, w, m);
    forall i | 0 <= i < MAX_LEVELS
      ensures TablesOk(w.levels[i], fs) && (i >= 1 ==> LevelOk(w.levels[i], fs)) && (maxLevel <= i ==> w.levels[i] == [])
    {
      assert i >= 1 ==> w.levels[i] == v.levels[i];
    }
  }

  lemma AddedTidy(v: Version, w: Version, m: Meta)
    requires Tidy(v) && AscendingIds(v.levels[0]) && m.level == 0 && forall x :: x in v.levels[0] ==> x.id < m.id
    requires w.WellFormed() && w.levels == v.levels[0 := v.levels[0] + [m]]
    ensures Tidy(w) && AscendingIds(w.levels[0])
  {
    hide Ranked, RankOrdered;
    assert forall i :: 1 <= i < MAX_LEVELS ==> w.levels[i] == v.levels[i];
  }

  lemma AddedIds(v: Version, w: Version, m: Meta)
    requires v.WellFormed() && w.WellFormed() && w.levels == v.levels[0 := v.levels[0] + [m]] && !Referenced(v, m.id)
    requires forall i, j, a, b :: 0 <= i < j < MAX_LEVELS && a in v.levels[i] && b in v.levels[j] ==> a.id != b.id
    ensures forall i, j, a, b :: 0 <= i < j < MAX_LEVELS && a in w.levels[i] && b in w.levels[j] ==> a.id != b.id
  {
    forall i, j, a, b {:trigger a in w.levels[i], b in w.levels[j]} |
      0 <= i < j < MAX_LEVELS && a in w.levels[i] && b in w.levels[j]
      ensures a.id != b.id
    {
      assert b in v.levels[j];
      if a !in v.levels[i] {
        assert a == m;
      }
    }
  }

  lemma AddedPair(v: Version, fs: Files, id: nat, i: nat, a: Meta, j: nat, b: Meta, k: Bytes)
    requires v.WellFormed() && FileLayered(v, fs) && id in fs && fs[id] != [] && Newer(v, fs, fs[id])
    requires forall m :: m in v.levels[0] ==> m.id < id
    requires i < MAX_LEVELS && j < MAX_LEVELS
    requires var w := Update(v, AddL0(MetaOf(id, 0, fs[id]))); a in w.levels[i] && b in w.levels[j]
    requires a.id in fs && b.id in fs && ReadBefore(i, a, j, b)
    requires Find(fs[a.id], k).Some? && Find(fs[b.id], k).Some?
    ensures Find(fs[a.id], k).value.seqno >= Find(fs[b.id], k).value.seqno
  {
    hide Less, Update, Find, FileLayered, Held;
    var m := MetaOf(id, 0, fs[id]);
    AddedLevels(v, m);
    if a in v.levels[i] && b in v.levels[j] {
      LayeredPair(v, fs, i, a, j, b, k);
    } else if b in v.levels[j] {
      assert a == m;
      FindIndex(fs[a.id], k);
      FindIndex(fs[b.id], k);
      HeldBy(v, fs, j, b, Find(fs[b.id], k).value);
      assert Find(fs[a.id], k).value in fs[id];
    }
  }

  lemma AddFileLayered(v: Version, fs: Files, id: nat)
    requires v.WellFormed() && FileLayered(v, fs) && id in fs && fs[id] != [] && Newer(v, fs, fs[id])
    requires forall m :: m in v.levels[0] ==> m.id < id
    ensures FileLayered(Update(v, AddL0(MetaOf(id, 0, fs[id]))), fs)
  {
    hide Update, Find, Newer;
    var w := Update(v, AddL0(MetaOf(id, 0, fs[id])));
    forall i, a, j, b, k | 0 <= i < MAX_LEVELS && 0 <= j < MAX_LEVELS && a in w.levels[i] && b in w.levels[j]
                           && a.id in fs && b.id in fs && ReadBefore(i, a, j, b)
                           && Find(fs[a.id], k).Some? && Find(fs[b.id], k).Some?
      ensures Find(fs[a.id], k).value.seqno >= Find(fs[b.id], k).value.seqno
    {
      AddedPair(v, fs, id, i, a, j, b, k);
    }
  }

  lemma RepByHolding(v: Version, fs: Files, hist: seq<Entry>, e: Entry)
    requires v.WellFormed() && FilesDrawn(v, fs, hist) && IsLast(hist, e) && Held(v, fs, e)
    ensures FilesRep(v, fs, e)
  {
    hide Held;
  }

  /** The files keep answering for what they answered for when a file of later entries arrives. */
  lemma RepAfterAdd(v: Version, w: Version, fs: Files, es: seq<Entry>, hist: seq<Entry>, base: nat, e: Entry)
    requires v.WellFormed() && w.WellFormed() && FilesDrawn(w, fs, hist)
    requires forall x :: Held(w, fs, x) <==> Held(v, fs, x) || x in es
    requires (forall x :: x in es ==> x in hist && x.seqno > base)
    requires IsLast(hist, e) && e.seqno <= base && FilesRep(v, fs, e)
    ensures FilesRep(w, fs, e)
  {
    hide Held;
  }

  lemma AddedReferenced(v: Version, m: Meta, id: nat)
    requires v.WellFormed() && m.level == 0
    ensures Referenced(Update(v, AddL0(m)), id) <==> Referenced(v, id) || id == m.id
  {
    hide Update;
    var w := Update(v, AddL0(m));
    AddedLevels(v, m);
    if Referenced(v, id) {
      var i, x :| 0 <= i < MAX_LEVELS && x in v.levels[i] && x.id == id;
      assert x in w.levels[i];
    }
    assert w.levels[0][|v.levels[0]|] == m;
    if Referenced(w, id) && id != m.id {
      var i, x :| 0 <= i < MAX_LEVELS && x in w.levels[i] && x.id == id;
      assert x in v.levels[i];
    }
  }

  lemma AddL0KeepsCompactor(c: Compactor, v: Version, fs: Files, m: Meta, maxLevel: nat)
    requires v.WellFormed() && m.level == 0 && CompactorOk(c, v, fs, maxLevel) && m.id !in Owned(c)
    ensures CompactorOk(c, Update(v, AddL0(m)), fs, maxLevel)
  {
    hide Compacted, Flatten, Less, Lo, Hi, Overlapping, SortMetas, Update, Sorted, Referenced;
    var w := Update(v, AddL0(m));
    AddedLevels(v, m);
    forall id
      ensures Referenced(w, id) <==> Referenced(v, id) || id == m.id
    {
      AddedReferenced(v, m, id);
    }
    if c.Written? || c.Writing? {
      var job := if c.Written? then c.job else Job(c.level, c.n, c.outs);
      assert w.levels[job.level][..job.n] == v.levels[job.level][..job.n];
      assert Inputs(w, job.level, job.n) == Inputs(v, job.level, job.n);
      assert Merging(w, job, maxLevel) == Merging(v, job, maxLevel);
    }
  }

  /** What flush and the recovery flush share: es becomes the newest L0 file. */
  lemma ListFile(s: System, id: nat, maxLevel: nat)
    requires DiskInv(s, maxLevel) && 1 <= maxLevel && Represented(s, s.base)
    requires id in s.disk.ssts && s.disk.ssts[id] != [] && Sorted(s.disk.ssts[id])
    requires !Referenced(s.disk.version, id) && forall m :: m in s.disk.version.levels[0] ==> m.id < id
    requires forall e :: e in s.disk.ssts[id] ==> e in s.hist && e.seqno > s.base
    requires forall e :: Held(s.disk.version, s.disk.ssts, e) && e.seqno > s.base ==> e in s.disk.ssts[id]
    ensures var fs := s.disk.ssts;
            var w := Update(s.disk.version, AddL0(MetaOf(id, 0, fs[id])));
            && FilesOk(w, fs, maxLevel) && FilesDrawn(w, fs, s.hist) && w.maxSeqNo == s.disk.version.maxSeqNo
            && (forall e :: Held(w, fs, e) <==> Held(s.disk.version, fs, e) || e in fs[id])
            && (forall e :: IsLast(s.hist, e) && (e.seqno <= s.base || e in fs[id]) ==> FilesRep(w, fs, e))
  {
    hide VersionOk, FileLayered, Held, FilesRep, Update, Sorted, Find;
    var v, fs := s.disk.version, s.disk.ssts;
    var es := fs[id];
    var w := Update(v, AddL0(MetaOf(id, 0, es)));
    forall x, y | Held(v, fs, x) && y in es && x.key == y.key
      ensures Find(es, y.key).Some? && x.seqno <= Find(es, y.key).value.seqno
    {
      FindIn(es, y.key, y);
      if x.seqno > s.base {
        FindIn(es, y.key, x);
      }
    }
    AddedLevels(v, MetaOf(id, 0, es));
    AddFileHolds(v, fs, id);
    AddFileVersionOk(v, fs, id, maxLevel);
    AddFileLayered(v, fs, id);
    forall e | IsLast(s.hist, e) && (e.seqno <= s.base || e in es)
      ensures FilesRep(w, fs, e)
    {
      if e in es {
        RepByHolding(w, fs, s.hist, e);
      } else {
        RepAfterAdd(v, w, fs, es, s.hist, s.base, e);
      }
    }
  }

  /** The worker's own progress does not concern the memtables. */
  lemma SameMemTables(s: System, s': System)
    requires s.proc.Up? && s'.proc.Up? && MemTablesOk(s)
    requires s'.disk.wals == s.disk.wals && s'.base == s.base && s'.proc.writer == s.proc.writer
    requires s'.proc.mem.table == s.proc.mem.table && s'.proc.mem.imms == s.proc.mem.imms
    requires s'.proc.mem.wal == s.proc.mem.wal && !s.proc.flusher.Dropped?
    ensures MemTablesOk(s')
  {
    hide Sorted, WalsOrdered;
    forall w | w in s'.disk.wals && s'.disk.wals[w] != []
      ensures WalOwned(s'.proc, w)
    {
      assert WalOwned(s.proc, w);
    }
    assert forall i :: 0 <= i < |s.proc.mem.imms| ==> ImmOk(s, s.proc.mem.imms[i]);
  }

  lemma SameWriter(s: System, s': System)
    requires s.proc.Up? && s'.proc.Up? && WriterOk(s)
    requires s'.disk.wals == s.disk.wals && s'.base == s.base && s'.hist == s.hist && s'.acked == s.acked
    requires s'.proc.writer == s.proc.writer
    requires s'.proc.mem.table == s.proc.mem.table && s'.proc.mem.wal == s.proc.mem.wal
    requires s'.proc.mem.seqNo == s.proc.mem.seqNo
    ensures WriterOk(s')
  {
  }

  lemma FlushListKeeps(s: System, maxLevel: nat)
    requires Inv(s, maxLevel) && CanFlushList(s) && 1 <= maxLevel
    ensures Inv(DoFlushList(s), maxLevel)
  {
    hide FilesOk, FilesRep, Held, Sorted, CompactorOk, Update, MemTablesOk, OnLog;
    var s', p := DoFlushList(s), s.proc;
    var imm := p.mem.imms[0];
    FirstImmOk(s);
    FlushedInHist(s);
    ListFile(s, p.flusher.id, maxLevel);
    AddL0KeepsCompactor(p.compactor, s.disk.version, s.disk.ssts, MetaOf(p.flusher.id, 0, imm.table), maxLevel);
    SameMemTables(s, s');
  }

  lemma FirstImmOk(s: System)
    requires s.proc.Up? && MemTablesOk(s) && s.proc.mem.imms != []
    ensures ImmOk(s, s.proc.mem.imms[0])
  {
  }

  lemma FlushSealKeeps(s: System, maxLevel: nat)
    requires Inv(s, maxLevel) && CanFlushSeal(s)
    ensures Inv(DoFlushSeal(s), maxLevel)
  {
    hide FilesOk, FilesRep, Held, CompactorOk, Update, OnLog, MemTablesOk, WriterOk;
    var s', p := DoFlushSeal(s), s.proc;
    FirstImmOk(s);
    SameMemTables(s, s');
    SameWriter(s, s');
    MarkKeepsFiles(s, SeqEdit(p.mem.seqNo), maxLevel);
    MarkKeepsCompactor(p.compactor, s.disk.version, s'.disk.version, s.disk.ssts, maxLevel);
    forall e | e in s.disk.wals[p.mem.imms[0].wal]
      ensures e.seqno <= p.mem.seqNo
    {
      LogInHist(s, p.mem.imms[0].wal, e);
    }
    assert s'.disk.version.maxSeqNo >= p.mem.seqNo by { SealRaises(s.disk.version, p.mem.seqNo); }
  }

  lemma SealRaises(v: Version, seqNo: nat)
    requires v.WellFormed()
    ensures Update(v, SeqEdit(seqNo)).maxSeqNo >= seqNo
  {
  }

  lemma {:induction false} MaxSeqBounds(es: seq<Entry>)
    ensures forall e :: e in es ==> e.seqno <= MaxSeq(es)
    ensures es == [] || exists e :: e in es && e.seqno == MaxSeq(es)
  {
    if es != [] {
      var n := |es| - 1;
      MaxSeqBounds(es[..n]);
      assert es == es[..n] + [es[n]];
      if n > 0 {
        var x :| x in es[..n] && x.seqno == MaxSeq(es[..n]);
        assert x in es && es[n] in es;
      } else {
        assert es[n] in es;
      }
    }
  }

  /** The new base is the highest number in the log of the memtable that leaves. */
  lemma DropBase(s: System, maxLevel: nat)
    requires s.proc.Up? && s.disk.version.WellFormed() && CanFlushDrop(s) && MemTablesOk(s)
    requires WriterOk(s) && FlusherOk(s)
    ensures var w, base' := s.proc.mem.imms[0].wal, DoFlushDrop(s).base;
            && base' > s.base && (exists x :: x in s.disk.wals[w] && x.seqno == base')
            && (forall e :: e in s.disk.wals[w] ==> e.seqno <= base')
            && (forall x, e :: x in s.disk.wals && x != w && e in s.disk.wals[x] ==> e.seqno > base')
  {
    hide Sorted, MaxSeq;
    var p := s.proc;
    var w := p.mem.imms[0].wal;
    FirstImmOk(s);
    MaxSeqBounds(s.disk.wals[w]);
    assert p.mem.imms[0].table[0] in p.mem.imms[0].table;
    var top :| top in s.disk.wals[w] && top.seqno == MaxSeq(s.disk.wals[w]);
    forall x, e | x in s.disk.wals && x != w && e in s.disk.wals[x]
      ensures e.seqno > top.seqno
    {
      assert WalOwned(p, x);
    }
  }

  lemma DropMem(s: System, maxLevel: nat)
    requires s.proc.Up? && s.disk.version.WellFormed() && CanFlushDrop(s)
    requires LogsExact(s) && MemTablesOk(s) && WriterOk(s) && FlusherOk(s)
    ensures MemTablesOk(DoFlushDrop(s)) && WriterOk(DoFlushDrop(s))
    ensures FlusherOk(DoFlushDrop(s))
  {
    hide Sorted, MaxSeq, WalsOrdered, LogsExact;
    var s', p := DoFlushDrop(s), s.proc;
    DropEffect(s, maxLevel);
    DropBase(s, maxLevel);
    var top :| top in s.disk.wals[p.mem.imms[0].wal] && top.seqno == s'.base;
    LogInHist(s, p.mem.imms[0].wal, top);
    var imms' := s'.proc.mem.imms;
    assert forall i :: 0 <= i < |imms'| ==> imms'[i] == p.mem.imms[i + 1];
    forall i | 0 <= i < |imms'|
      ensures ImmOk(s', imms'[i]) && imms'[i].wal < p.mem.wal
    {
      assert ImmOk(s, p.mem.imms[i + 1]);
    }
    forall x | x in s'.disk.wals && s'.disk.wals[x] != []
      ensures WalOwned(s'.proc, x)
    {
      assert WalOwned(p, x);
      if i :| 0 <= i < |p.mem.imms| && p.mem.imms[i].wal == x {
        assert i == 0 || imms'[i - 1].wal == x;
      }
    }
    FirstImmOk(s);
  }

  lemma DropEffect(s: System, maxLevel: nat)
    requires CanFlushDrop(s)
    ensures var s', mem := DoFlushDrop(s), s.proc.mem;
            && s'.disk == s.disk && s'.hist == s.hist && s'.acked == s.acked && s'.cut == s.cut
            && s'.proc == s.proc.(mem := mem.(imms := mem.imms[1..]), flusher := Dropped(mem.imms[0].wal))
  {
  }

  lemma DropRep(s: System, maxLevel: nat)
    requires s.proc.Up? && UpInv(s, maxLevel) && CanFlushDrop(s)
    ensures Represented(s, DoFlushDrop(s).base)
  {
    hide Sorted, MaxSeq, WalsOrdered, FilesRep, Held, FilesOk, CompactorOk;
    var base', w := DoFlushDrop(s).base, s.proc.mem.imms[0].wal;
    DropBase(s, maxLevel);
    FirstImmOk(s);
    forall e | IsLast(s.hist, e) && e.seqno <= base'
      ensures FilesRep(s.disk.version, s.disk.ssts, e)
    {
      if e.seqno > s.base {
        assert OnLog(s.disk.wals, e);
        var x :| x in s.disk.wals && e in s.disk.wals[x];
        assert x == w;
        assert e in s.proc.mem.imms[0].table;
      }
    }
  }

  lemma FlushDropKeeps(s: System, maxLevel: nat)
    requires Inv(s, maxLevel) && CanFlushDrop(s)
    ensures Inv(DoFlushDrop(s), maxLevel)
  {
    hide FilesOk, FilesRep, Held, CompactorOk, MemTablesOk, OnLog, WriterOk, FlusherOk, MaxSeq, Represented;
    var s', w := DoFlushDrop(s), s.proc.mem.imms[0].wal;
    DropEffect(s, maxLevel);
    DropBase(s, maxLevel);
    DropMem(s, maxLevel);
    DropRep(s, maxLevel);
    FirstImmOk(s);
    var top :| top in s.disk.wals[w] && top.seqno == s'.base;
    LogInHist(s, w, top);
    RepSame(s, s', s'.base);
    RepSame(s, s', s'.cut);
  }

  lemma RepSame(s: System, s': System, upTo: nat)
    requires s.disk.version.WellFormed() && s'.disk.version == s.disk.version && s'.disk.ssts == s.disk.ssts
    requires s'.hist == s.hist && Represented(s, upTo)
    ensures Represented(s', upTo)
  {
  }

  lemma UnlinkLogs(s: System, maxLevel: nat)
    requires s.proc.Up? && s.disk.version.WellFormed() && CanFlushUnlink(s)
    requires LogsExact(s) && FlusherOk(s) && Bounded(s, s.proc.mem)
    ensures LogsExact(DoFlushUnlink(s))
  {
    var s', w := DoFlushUnlink(s), s.proc.flusher.wal;
    forall e
      ensures OnLog(s'.disk.wals, e) <==> e in s.hist && e.seqno > s.base
    {
      if OnLog(s'.disk.wals, e) {
        var x :| x in s'.disk.wals && e in s'.disk.wals[x];
        OnLogOf(s.disk.wals, x, e);
      }
      if e in s.hist && e.seqno > s.base {
        assert OnLog(s.disk.wals, e);
        var x :| x in s.disk.wals && e in s.disk.wals[x];
        OnLogOf(s'.disk.wals, x, e);
      }
    }
  }

  lemma UnlinkOrdered(wals: map<nat, seq<Entry>>, w: nat)
    requires WalsOrdered(wals)
    ensures WalsOrdered(wals - {w})
  {
  }

  lemma UnlinkMem(s: System, maxLevel: nat)
    requires s.proc.Up? && s.disk.version.WellFormed() && CanFlushUnlink(s)
    requires MemTablesOk(s) && WriterOk(s) && FlusherOk(s)
    ensures MemTablesOk(DoFlushUnlink(s)) && WriterOk(DoFlushUnlink(s))
  {
    hide Sorted, WalsOrdered, ImmOk;
    var s', p := DoFlushUnlink(s), s.proc;
    var w := p.flusher.wal;
    UnlinkOrdered(s.disk.wals, w);
    SameImms(s, s');
    forall x | x in s'.disk.wals && s'.disk.wals[x] != []
      ensures WalOwned(s'.proc, x)
    {
      assert WalOwned(p, x);
    }
  }

  lemma FlushUnlinkKeeps(s: System, maxLevel: nat)
    requires Inv(s, maxLevel) && CanFlushUnlink(s)
    ensures Inv(DoFlushUnlink(s), maxLevel)
  {
    hide FilesOk, FilesRep, Held, CompactorOk, MemTablesOk, LogsExact, WriterOk;
    UnlinkLogs(s, maxLevel);
    UnlinkMem(s, maxLevel);
  }

  // ---- Compaction ----

  lemma CompactPickKeeps(s: System, level: nat, maxLevel: nat)
    requires Inv(s, maxLevel) && CanCompactPick(s, level, maxLevel)
    ensures Inv(DoCompactPick(s, level, maxLevel), maxLevel)
  {
    hide FilesOk, FilesRep, Held, MemTablesOk, OnLog, WriterOk, Referenced;
    CompactorApart(s, DoCompactPick(s, level, maxLevel));
  }

  /** The memtables and the writer do not concern the compaction worker. */
  lemma CompactorApart(s: System, s': System)
    requires s.proc.Up? && s'.proc.Up? && MemTablesOk(s) && WriterOk(s)
    requires s'.disk.wals == s.disk.wals && s'.base == s.base && s'.hist == s.hist && s'.acked == s.acked
    requires s'.proc.writer == s.proc.writer && s'.proc.flusher == s.proc.flusher
    requires s'.proc.mem.table == s.proc.mem.table && s'.proc.mem.imms == s.proc.mem.imms
    requires s'.proc.mem.wal == s.proc.mem.wal && s'.proc.mem.seqNo == s.proc.mem.seqNo
    ensures MemTablesOk(s') && WriterOk(s')
  {
    hide Sorted, WalsOrdered;
    forall w | w in s'.disk.wals && s'.disk.wals[w] != []
      ensures WalOwned(s'.proc, w)
    {
      assert WalOwned(s.proc, w);
    }
    assert forall i :: 0 <= i < |s.proc.mem.imms| ==> ImmOk(s, s.proc.mem.imms[i]);
  }

  lemma {:induction false} AscendingIsSorted(es: seq<Entry>)
    requires Ascending(es)
    ensures Sorted(es)
  {
  }

  /** Any stretch of the merge result is a well-formed table. */
  lemma StretchIsTable(before: seq<Entry>, part: seq<Entry>, cs: seq<seq<Entry>>, bottom: bool, m: Meta, level: nat, fs: Files)
    requires AllSorted(cs) && NamedKeys(cs) && before + part <= Compacted(cs, bottom) && part != []
    requires m == MetaOf(m.id, level, part) && m.id in fs && fs[m.id] == part
    ensures TableOk(m, fs)
  {
    hide Less, Compacted, AllSorted, Ascending, Sorted;
    CompactedExact(cs, bottom);
    var all, n := Compacted(cs, bottom), |before|;
    assert all == before + (part + all[n + |part|..]);
    AscendingConcat(before, part + all[n + |part|..]);
    AscendingConcat(part, all[n + |part|..]);
    AscendingIsSorted(part);
    forall e | e in part
      ensures e.key != []
    {
      assert e in all;
      assert IsNewest(cs, e.key, e);
    }
  }

  /** Before its first output a job has written nothing, and its inputs are on disk. */
  lemma NothingWritten(v: Version, fs: Files, level: nat, n: nat, maxLevel: nat)
    requires VersionOk(v, fs, maxLevel) && Picks(v, Job(level, n, []), maxLevel)
    ensures PartOk(v, fs, Job(level, n, []), maxLevel)
  {
    hide Merging, Inputs, Compacted, VersionOk;
    var job := Job(level, n, []);
    InputsSound(v, fs, job, maxLevel);
    FlattenEmpty();
    assert Contents([], fs) == [];
  }

  lemma CompactCreateKeeps(s: System, maxLevel: nat)
    requires Inv(s, maxLevel) && CanCompactCreate(s)
    ensures Inv(DoCompactCreate(s), maxLevel)
  {
    hide FilesRep, Held, MemTablesOk, WriterOk, OnLog, PartOk, Referenced, VersionOk, FileLayered;
    var s', id, c := DoCompactCreate(s), s.proc.mem.nextID + 1, s.proc.compactor;
    var v, fs, outs := s.disk.version, s.disk.ssts, if c.Picked? then [] else c.outs;
    CompactorApart(s, s');
    NewNumber(s, id, maxLevel);
    OtherFilesKeep(s, s'.disk.ssts, maxLevel);
    if c.Picked? {
      NothingWritten(v, fs, c.level, c.n, maxLevel);
    }
    OutputIds(v, fs, Job(c.level, c.n, outs), maxLevel);
    assert CompactorOk(Writing(c.level, c.n, outs, None), v, fs, maxLevel);
    FrameCompactor(Writing(c.level, c.n, outs, None), v, fs, s'.disk.ssts, maxLevel);
  }

  lemma OutputIds(v: Version, fs: Files, job: Job, maxLevel: nat)
    requires PartOk(v, fs, job, maxLevel)
    ensures forall id :: id in IdsOf(job.outs) ==> id in fs
  {
    hide Inputs, Merging, Compacted;
  }

  /** The next output file of a job. */
  lemma OneMoreOutput(v: Version, fs: Files, job: Job, cur: nat, part: seq<Entry>, maxLevel: nat)
    requires VersionOk(v, fs, maxLevel) && PartOk(v, fs, job, maxLevel) && CursorOk(v, fs, job.outs, Some(cur)) && part != []
    requires Filled(v, fs, job, maxLevel) + part <= Wanted(v, fs, job, maxLevel)
    ensures var gs, more := fs[cur := part], job.(outs := job.outs + [MetaOf(cur, job.level + 1, part)]);
            && PartOk(v, gs, more, maxLevel) && Filled(v, gs, more, maxLevel) == Filled(v, fs, job, maxLevel) + part
            && Wanted(v, gs, more, maxLevel) == Wanted(v, fs, job, maxLevel)
  {
    hide Merging, Inputs, Compacted, Flatten, VersionOk, Less, Sorted, Referenced;
    var gs, m := fs[cur := part], MetaOf(cur, job.level + 1, part);
    var more := job.(outs := job.outs + [m]);
    InputsSound(v, fs, job, maxLevel);
    StretchIsTable(Filled(v, fs, job, maxLevel), part, Contents(Merging(v, job, maxLevel), fs), Bottom(job, maxLevel), m, job.level + 1, gs);
    assert Picks(v, more, maxLevel) && Merging(v, more, maxLevel) == Merging(v, job, maxLevel) by { SameMerge(v, job, more, maxLevel); }
    forall x | x in Inputs(v, job.level, job.n)
      ensures x.id != cur
    {
      InputReferenced(v, job, maxLevel, x);
    }
    SameSources(v, fs, gs, job, maxLevel);
    FlattenAppend(Contents(job.outs, gs), part);
    assert Contents(more.outs, gs) == Contents(job.outs, gs) + [part];
    forall i, a | 0 <= i < MAX_LEVELS && a in v.levels[i]
      ensures a.id != cur
    {
      FileReferenced(v, i, a);
    }
  }

  lemma FileReferenced(v: Version, i: nat, a: Meta)
    requires v.WellFormed() && i < MAX_LEVELS && a in v.levels[i]
    ensures Referenced(v, a.id)
  {
  }

  lemma SameMerge(v: Version, job: Job, more: Job, maxLevel: nat)
    requires Picks(v, job, maxLevel) && more.level == job.level && more.n == job.n
    ensures Picks(v, more, maxLevel) && Merging(v, more, maxLevel) == Merging(v, job, maxLevel)
  {
    hide Inputs, SortMetas;
  }

  lemma CompactWriteKeeps(s: System, part: seq<Entry>, maxLevel: nat)
    requires Inv(s, maxLevel) && CanCompactWrite(s, part, maxLevel)
    ensures Inv(DoCompactWrite(s, part, maxLevel), maxLevel)
  {
    hide FilesOk, FilesRep, Held, MemTablesOk, WriterOk, LogsExact, FlusherOk, PartOk, Referenced, Filled, Wanted;
    var s' := DoCompactWrite(s, part, maxLevel);
    CompactorApart(s, s');
    OtherFilesKeep(s, s'.disk.ssts, maxLevel);
    OutputWritten(s, part, maxLevel);
    assert LogsExact(s') by { SameLogs(s, s'); }
  }

  lemma OutputWritten(s: System, part: seq<Entry>, maxLevel: nat)
    requires s.proc.Up? && UpInv(s, maxLevel) && CanCompactWrite(s, part, maxLevel)
    ensures var s' := DoCompactWrite(s, part, maxLevel);
            && CompactorOk(s'.proc.compactor, s'.disk.version, s'.disk.ssts, maxLevel)
            && Owned(s'.proc.compactor) == Owned(s.proc.compactor) && FlusherOk(s')
  {
    hide FilesRep, Held, MemTablesOk, WriterOk, LogsExact, PartOk, Referenced, VersionOk, FileLayered, Filled, Wanted;
    var c := s.proc.compactor;
    OneMoreOutput(s.disk.version, s.disk.ssts, Job(c.level, c.n, c.outs), c.cur.value, part, maxLevel);
    OwnedGrows(c.outs, MetaOf(c.cur.value, c.level + 1, part));
  }

  lemma OwnedGrows(outs: seq<Meta>, m: Meta)
    ensures IdsOf(outs + [m]) == IdsOf(outs) + {m.id}
  {
  }

  lemma CompactCloseKeeps(s: System, maxLevel: nat)
    requires Inv(s, maxLevel) && CanCompactClose(s, maxLevel)
    ensures Inv(DoCompactClose(s, maxLevel), maxLevel)
  {
    hide FilesOk, FilesRep, Held, MemTablesOk, WriterOk, OnLog, Referenced, Compacted, Inputs, Merging;
    CompactorApart(s, DoCompactClose(s, maxLevel));
  }

  lemma DrawnCoherent(v: Version, fs: Files, hist: seq<Entry>)
    requires v.WellFormed() && HistOk(hist) && FilesDrawn(v, fs, hist)
    ensures HeldCoherent(v, fs)
  {
    hide Held;
    forall a, b | Held(v, fs, a) && Held(v, fs, b) && a.seqno == b.seqno
      ensures a == b
    {
      SeqnoIdentifies(hist, a, b);
    }
  }

  /** No file of the committed version is among those the compaction deletes. */
  lemma NotRemoved(v: Version, w: Version, fs: Files, job: Job, maxLevel: nat, i: nat, m: Meta)
    requires VersionOk(v, fs, maxLevel) && JobOk(v, fs, job, maxLevel) && Replaced(v, w, job, maxLevel)
    requires i < MAX_LEVELS && m in w.levels[i]
    ensures m.id !in IdsOf(Merging(v, job, maxLevel))
  {
    hide Merging, Inputs, Less, Compacted, Flatten, Ranked, LevelOk, TablesOk;
    if d :| d in Merging(v, job, maxLevel) && d.id == m.id {
      MergingFacts(v, job, maxLevel);
      MergingMember(v, job, maxLevel, d);
      var j := d.level;
      assert d in v.levels[j];
      ReplacedOrigin(v, w, job, maxLevel, i, m);
      if m in v.levels[i] && i == j {
        SameId(v.levels[i], m, d);
        if i == job.level {
          BaseOnly(v, job, maxLevel, m);
        }
      }
    }
  }

  lemma CommitFiles(v: Version, fs: Files, job: Job, hist: seq<Entry>, maxLevel: nat)
    requires FilesOk(v, fs, maxLevel) && JobOk(v, fs, job, maxLevel)
    requires v.WellFormed() && HistOk(hist) && FilesDrawn(v, fs, hist)
    ensures Applicable(v, job, maxLevel)
    ensures var w := Committed(v, job, maxLevel);
            && FilesOk(w, fs, maxLevel)
            && (forall e :: Held(w, fs, e) ==> Held(v, fs, e))
            && (forall e :: FilesRep(v, fs, e) ==> FilesRep(w, fs, e))
            && (forall i, m :: 0 <= i < MAX_LEVELS && m in w.levels[i] ==> m in v.levels[i] || m in job.outs)
            && (forall m :: m in Merging(v, job, maxLevel) ==> !Referenced(w, m.id))
  {
    hide Merging, Inputs, Compacted, Committed, VersionOk, FileLayered, Held, JobOk, HistOk;
    DrawnCoherent(v, fs, hist);
    CommitKeepsVersionOk(v, fs, job, maxLevel);
    var w := Committed(v, job, maxLevel);
    CommitOutline(v, fs, job, maxLevel);
    CommitKeepsLayered(v, w, fs, job, maxLevel);
    forall i, m {:trigger m in w.levels[i]} | 0 <= i < MAX_LEVELS && m in w.levels[i]
      ensures m.id !in IdsOf(Merging(v, job, maxLevel))
      ensures m in v.levels[i] || m in job.outs
    {
      NotRemoved(v, w, fs, job, maxLevel, i, m);
      ReplacedOrigin(v, w, job, maxLevel, i, m);
    }
    forall e
      ensures Held(w, fs, e) ==> Held(v, fs, e)
      ensures FilesRep(v, fs, e) ==> FilesRep(w, fs, e)
    {
      CommitEntry(v, fs, job, maxLevel, e);
    }
  }

  lemma CommitOutline(v: Version, fs: Files, job: Job, maxLevel: nat)
    requires VersionOk(v, fs, maxLevel) && JobOk(v, fs, job, maxLevel)
    ensures Applicable(v, job, maxLevel) && Picks(v, job, maxLevel)
    ensures Replaced(v, Committed(v, job, maxLevel), job, maxLevel)
    ensures Between(v, Committed(v, job, maxLevel), job, maxLevel)
  {
    hide Merging, Inputs, Compacted, Committed;
    CommitReplaces(v, fs, job, maxLevel);
    ReplacedIsBetween(v, Committed(v, job, maxLevel), fs, job, maxLevel);
  }

  lemma CommitEntry(v: Version, fs: Files, job: Job, maxLevel: nat, e: Entry)
    requires VersionOk(v, fs, maxLevel) && JobOk(v, fs, job, maxLevel) && FileLayered(v, fs)
    requires v.WellFormed() && HeldCoherent(v, fs)
    ensures Applicable(v, job, maxLevel)
    ensures var w := Committed(v, job, maxLevel);
            (Held(w, fs, e) ==> Held(v, fs, e)) && (FilesRep(v, fs, e) ==> FilesRep(w, fs, e))
  {
    hide Merging, Inputs, Compacted, Committed, VersionOk, FileLayered, Held, JobOk, Between, Replaced;
    CommitOutline(v, fs, job, maxLevel);
    var w := Committed(v, job, maxLevel);
    forall x | Held(w, fs, x)
      ensures Held(v, fs, x)
    {
      BetweenHolds(v, w, fs, job, maxLevel, x);
    }
    CommitKeepsNewest(v, fs, job, maxLevel, e.key, e);
  }

  lemma CompactCommitKeeps(s: System, maxLevel: nat)
    requires Inv(s, maxLevel) && CanCompactCommit(s, maxLevel)
    ensures Inv(DoCompactCommit(s, maxLevel), maxLevel)
  {
    hide FilesOk, FilesRep, Held, MemTablesOk, OnLog, WriterOk, Merging, Committed, HistOk, JobOk, Referenced;
    var s', job := DoCompactCommit(s, maxLevel), s.proc.compactor.job;
    CommitFiles(s.disk.version, s.disk.ssts, job, s.hist, maxLevel);
    CompactorApart(s, s');
    CommitMarks(s.disk.version, job, maxLevel);
    JobOnDisk(s.disk.version, s.disk.ssts, job, maxLevel);
    if s.proc.flusher.Wrote? || s.proc.flusher.Building? {
      CommitSparesFlush(s, s.proc.flusher.id, maxLevel);
    }
  }

  lemma JobOnDisk(v: Version, fs: Files, job: Job, maxLevel: nat)
    requires JobOk(v, fs, job, maxLevel)
    ensures Picks(v, job, maxLevel) && forall id :: id in IdsOf(Merging(v, job, maxLevel)) ==> id in fs
  {
    hide Inputs, Merging, Compacted;
  }

  lemma CompactSweepKeeps(s: System, maxLevel: nat)
    requires Inv(s, maxLevel) && CanCompactSweep(s)
    ensures Inv(DoCompactSweep(s), maxLevel)
  {
    hide FilesOk, FilesRep, Held, MemTablesOk, OnLog, WriterOk, Referenced;
    var s', todo := DoCompactSweep(s), s.proc.compactor.todo;
    CompactorApart(s, s');
    OtherFilesKeep(s, s'.disk.ssts, maxLevel);
    assert todo[0].id in Owned(s.proc.compactor) && Owned(s'.proc.compactor) <= Owned(s.proc.compactor);
  }

  /** A commit only moves files: the recorded sequence number stays. */
  lemma CommitMarks(v: Version, job: Job, maxLevel: nat)
    requires Applicable(v, job, maxLevel)
    ensures Committed(v, job, maxLevel).maxSeqNo == v.maxSeqNo
  {
    hide Merging;
    FileEditsKeepSeqNo(v, CommitEdits(v, job, maxLevel));
  }

  lemma {:induction false} FileEditsKeepSeqNo(v: Version, es: seq<Edit>)
    requires v.WellFormed() && forall e :: e in es ==> InRange(e) && (e.kind == ADD_SSTABLE || e.kind == DELETE_SSTABLE)
    ensures UpdateAll(v, es).maxSeqNo == v.maxSeqNo
  {
    hide NewLevels;
    if es != [] {
      FileEditsKeepSeqNo(v, es[..|es| - 1]);
    }
  }

  lemma CommitSparesFlush(s: System, id: nat, maxLevel: nat)
    requires s.proc.Up? && UpInv(s, maxLevel) && CanCompactCommit(s, maxLevel) && s.disk.version.WellFormed() && ForL0(s, id)
    ensures ForL0(DoCompactCommit(s, maxLevel), id)
  {
    hide FilesOk, FilesRep, Held, MemTablesOk, OnLog, WriterOk, Merging, Committed, HistOk, JobOk;
    var s', v := DoCompactCommit(s, maxLevel), s.disk.version;
    var job := s.proc.compactor.job;
    CommitFiles(v, s.disk.ssts, job, s.hist, maxLevel);
    FilesTidy(v, s.disk.ssts, maxLevel);
    MergingFacts(v, job, maxLevel);
    forall d | d in Merging(v, job, maxLevel)
      ensures d.id != id
    {
      var j := d.level;
      assert d in v.levels[j];
    }
    forall i, m {:trigger m in s'.disk.version.levels[i]} | 0 <= i < MAX_LEVELS && m in s'.disk.version.levels[i]
      ensures m.id != id
    {
      if m in v.levels[i] {
        assert Referenced(v, m.id);
      }
    }
    L0Shrinks(v, s.disk.ssts, job, maxLevel);
  }

  lemma FilesTidy(v: Version, fs: Files, maxLevel: nat)
    requires FilesOk(v, fs, maxLevel)
    ensures Tidy(v)
  {
  }

  lemma L0Shrinks(v: Version, fs: Files, job: Job, maxLevel: nat)
    requires FilesOk(v, fs, maxLevel) && JobOk(v, fs, job, maxLevel) && Applicable(v, job, maxLevel)
    ensures forall m :: m in Committed(v, job, maxLevel).levels[0] ==> m in v.levels[0]
  {
    hide Merging, Inputs, Compacted, Committed, VersionOk, FileLayered, JobOk;
    CommitOutline(v, fs, job, maxLevel);
    forall m | m in Committed(v, job, maxLevel).levels[0]
      ensures m in v.levels[0]
    {
      ReplacedOrigin(v, Committed(v, job, maxLevel), job, maxLevel, 0, m);
    }
  }

  // ---- Crash ----

  /** Nothing a crash takes away is needed: the disk alone satisfies its invariant. */
  lemma CrashKeeps(s: System, maxLevel: nat)
    requires Inv(s, maxLevel) && CanCrash(s)
    ensures Inv(DoCrash(s), maxLevel)
  {
    hide FilesOk, FilesRep, Held, OnLog;
  }
}
