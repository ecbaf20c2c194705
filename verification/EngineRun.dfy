// Whole runs of the engine, with crashes and recoveries, against a plain map.
module EngineRun {
  import opened Keys
  import opened Merge
  import opened Manifest
  import opened Levels
  import opened Commit
  import opened Meaning
  import opened Table
  import opened Engine
  import opened EngineInv
  import opened EngineSteps
  import opened EngineRecovery
  import opened EngineRead

  // ---- Runs ----

  lemma StepKeeps(s: System, t: Step, maxLevel: nat)
    requires Inv(s, maxLevel) && Enabled(s, t, maxLevel) && 1 <= maxLevel
    ensures Inv(Do(s, t, maxLevel), maxLevel)
  {
    hide Inv;
    match t
    case Number(op) => NumberKeeps(s, op, maxLevel);
    case Refuse => RefuseKeeps(s, maxLevel);
    case Append => AppendKeeps(s, maxLevel);
    case Apply => ApplyKeeps(s, maxLevel);
    case RotateCreate => RotateCreateKeeps(s, maxLevel);
    case RotateNote => RotateNoteKeeps(s, maxLevel);
    case RotateSwap => RotateSwapKeeps(s, maxLevel);
    case FlushCreate => FlushCreateKeeps(s, maxLevel);
    case FlushEmpty => FlushEmptyKeeps(s, maxLevel);
    case FlushWrite => FlushWriteKeeps(s, maxLevel);
    case FlushList => FlushListKeeps(s, maxLevel);
    case FlushSeal => FlushSealKeeps(s, maxLevel);
    case FlushDrop => FlushDropKeeps(s, maxLevel);
    case FlushUnlink => FlushUnlinkKeeps(s, maxLevel);
    case CompactPick(level) => CompactPickKeeps(s, level, maxLevel);
    case CompactCreate => CompactCreateKeeps(s, maxLevel);
    case CompactWrite(part) => CompactWriteKeeps(s, part, maxLevel);
    case CompactClose => CompactCloseKeeps(s, maxLevel);
    case CompactCommit => CompactCommitKeeps(s, maxLevel);
    case CompactSweep => CompactSweepKeeps(s, maxLevel);
    case Crash => CrashKeeps(s, maxLevel);
    case OpenLoad(logs) => OpenLoadKeeps(s, logs, maxLevel);
    case OpenClean(id) => OpenCleanKeeps(s, id, maxLevel);
    case OpenCreate => OpenCreateKeeps(s, maxLevel);
    case OpenRewrite => OpenRewriteKeeps(s, maxLevel);
    case OpenSync => OpenSyncKeeps(s, maxLevel);
    case OpenUnlink => OpenUnlinkKeeps(s, maxLevel);
    case OpenReady => OpenReadyKeeps(s, maxLevel);
    case OpenFlushCreate => OpenFlushCreateKeeps(s, maxLevel);
    case OpenFlushWrite => OpenFlushWriteKeeps(s, maxLevel);
    case OpenFlushList => OpenFlushListKeeps(s, maxLevel);
    case OpenNote => OpenNoteKeeps(s, maxLevel);
    case OpenDone => OpenDoneKeeps(s, maxLevel);
  }

  /** The states an engine passes through, crashes included. */
  ghost predicate IsRun(run: seq<System>, steps: seq<Step>, maxLevel: nat) {
    && |run| == |steps| + 1 && run[0] == FRESH
    && forall i :: 0 <= i < |steps| ==> Enabled(run[i], steps[i], maxLevel) && run[i + 1] == Do(run[i], steps[i], maxLevel)
  }

  lemma {:induction false} RunKeepsInv(run: seq<System>, steps: seq<Step>, maxLevel: nat, i: nat)
    requires IsRun(run, steps, maxLevel) && 1 <= maxLevel <= MAX_LEVELS && i < |run|
    ensures Inv(run[i], maxLevel)
  {
    hide Inv, Enabled, Do;
    if i == 0 {
      FreshInv(maxLevel);
    } else {
      RunKeepsInv(run, steps, maxLevel, i - 1);
      StepKeeps(run[i - 1], steps[i - 1], maxLevel);
    }
  }

  // ---- The plain map ----

  /** The map a client expects after these writes. */
  function Plain(hist: seq<Entry>): map<Bytes, Bytes> {
    if hist == [] then map[]
    else
      var m, e := Plain(hist[..|hist| - 1]), hist[|hist| - 1];
      if e.kind.Value? then m[e.key := e.value] else m - {e.key}
  }

  lemma {:induction false} PlainLast(hist: seq<Entry>, k: Bytes) returns (e: Option<Entry>)
    requires HistOk(hist)
    ensures e.Some? ==> IsLast(hist, e.value) && e.value.key == k
    ensures e.None? ==> forall x :: x in hist ==> x.key != k
    ensures k in Plain(hist) <==> e.Some? && e.value.kind.Value?
    ensures k in Plain(hist) ==> Plain(hist)[k] == e.value.value
  {
    hide HistOk, IsLast;
    if hist == [] {
      e := None;
    } else {
      var n := |hist| - 1;
      LastSplits(hist, k);
      if hist[n].key == k {
        e := Some(hist[n]);
      } else {
        e := PlainLast(hist[..n], k);
      }
    }
  }

  lemma LastSplits(hist: seq<Entry>, k: Bytes)
    requires HistOk(hist) && hist != []
    ensures var n := |hist| - 1;
            && HistOk(hist[..n]) && IsLast(hist, hist[n])
            && (forall e :: e in hist <==> e == hist[n] || e in hist[..n])
            && (hist[n].key != k ==> forall e: Entry :: e.key == k && IsLast(hist[..n], e) ==> IsLast(hist, e))
  {
    var n := |hist| - 1;
    assert hist == hist[..n] + [hist[n]];
    forall y | y in hist
      ensures y.seqno <= hist[n].seqno
    {
      var j :| 0 <= j < |hist| && hist[j] == y;
    }
  }

  // ---- Get ----

  /** The memtable tables in reading order: the mutable one, then the immutables newest first. */
  function MemOrder(mem: Memory): seq<seq<Entry>> {
    var n := |mem.imms|;
    seq(n + 1, i requires 0 <= i <= n => if i == 0 then mem.table else mem.imms[n - i].table)
  }

  function WalAt(mem: Memory, i: nat): nat
    requires i <= |mem.imms|
  {
    if i == 0 then mem.wal else mem.imms[|mem.imms| - i].wal
  }

  datatype Answer = Found(value: Bytes) | Missing

  function FromMem(e: Entry): Answer {
    if e.kind.Deletion? then Missing else Found(e.value)
  }

  /** A value read from a block comes back nil when it is empty, and nil reads as a tombstone. */
  function FromFile(e: Entry): Answer {
    if e.kind.Deletion? || e.value == [] then Missing else Found(e.value)
  }

  /** LSMEngine.Get. */
  ghost function Get(mem: Memory, v: Version, fs: Files, k: Bytes): Answer
    requires v.WellFormed() && AllOnDisk(v, fs)
  {
    match FirstHit(MemOrder(mem), k)
    case Some(e) => FromMem(e)
    case None =>
      match FileLookup(v, fs, k, mem.seqNo)
      case Some(e) => FromFile(e)
      case None => Missing
  }

  lemma TableAt(s: System, i: nat, e: Entry)
    requires s.proc.Up? && MemTablesOk(s) && i <= |s.proc.mem.imms| && e in MemOrder(s.proc.mem)[i]
    ensures WalAt(s.proc.mem, i) in s.disk.wals && e in s.disk.wals[WalAt(s.proc.mem, i)] && e.seqno > s.base
  {
    hide Sorted, WalsOrdered, WalOwned;
    var n := |s.proc.mem.imms|;
    if i > 0 {
      assert ImmOk(s, s.proc.mem.imms[n - i]);
    }
  }

  lemma MemOrderSorted(s: System)
    requires s.proc.Up? && MemTablesOk(s)
    ensures AllSorted(MemOrder(s.proc.mem))
  {
    hide Sorted, WalsOrdered, WalOwned;
    var n := |s.proc.mem.imms|;
    forall i | 0 <= i <= n
      ensures Sorted(MemOrder(s.proc.mem)[i])
    {
      if i > 0 { assert ImmOk(s, s.proc.mem.imms[n - i]); }
    }
  }

  /** With no write in flight, everything above base is in some memtable. */
  lemma InSomeTable(s: System, maxLevel: nat, e: Entry) returns (i: nat)
    requires s.proc.Up? && UpInv(s, maxLevel) && s.proc.writer.Idle?
    requires e in s.hist && e.seqno > s.base
    ensures i <= |s.proc.mem.imms| && e in MemOrder(s.proc.mem)[i]
  {
    hide Sorted, WalsOrdered, FilesOk, Represented, FlushedRep, Held, HistOk, CompactorOk, FilesDrawn;
    var p, n := s.proc, |s.proc.mem.imms|;
    assert OnLog(s.disk.wals, e);
    var w :| w in s.disk.wals && e in s.disk.wals[w];
    assert WalOwned(p, w);
    if w == p.mem.wal {
      i := 0;
    } else {
      var j :| 0 <= j < n && p.mem.imms[j].wal == w;
      assert ImmOk(s, p.mem.imms[j]);
      i := n - j;
    }
  }

  lemma NewerWal(s: System, i: nat, j: nat, x: Entry, y: Entry)
    requires s.proc.Up? && MemTablesOk(s) && i < j <= |s.proc.mem.imms|
    requires x in MemOrder(s.proc.mem)[i] && y in MemOrder(s.proc.mem)[j]
    ensures x.seqno > y.seqno
  {
    hide Sorted, WalOwned;
    TableAt(s, i, x);
    TableAt(s, j, y);
    assert WalAt(s.proc.mem, i) > WalAt(s.proc.mem, j);
  }

  /** The last write of a key, if a memtable holds it, is what probing the memtables finds. */
  lemma MemFinds(s: System, maxLevel: nat, e: Entry)
    requires s.proc.Up? && UpInv(s, maxLevel) && s.proc.writer.Idle? && IsLast(s.hist, e) && e.seqno > s.base
    ensures FirstHit(MemOrder(s.proc.mem), e.key) == Some(e)
  {
    hide Sorted, FilesOk, Represented, FlushedRep, Held, MemOrder, Find, FirstHit, MemTablesOk;
    var t := MemOrder(s.proc.mem);
    var j := InSomeTable(s, maxLevel, e);
    MemOrderSize(s.proc.mem);
    MemOrderSorted(s);
    FirstHitNone(t, e.key);
    FirstHitIndex(t, e.key);
    var y := FirstHit(t, e.key).value;
    var i :| 0 <= i < |t| && Find(t[i], e.key) == Some(y) && forall h :: 0 <= h < i ==> Find(t[h], e.key).None?;
    FindIndex(t[i], e.key);
    FindIn(t[j], e.key, e);
    if i < j {
      NewerWal(s, i, j, y, e);
    }
    TableAt(s, i, y);
    LogInHist(s, WalAt(s.proc.mem, i), y);
    SeqnoIdentifies(s.hist, y, e);
  }

  lemma MemOrderSize(mem: Memory)
    ensures |MemOrder(mem)| == |mem.imms| + 1
  {
  }

  /** A key whose last write is settled in the files is in no memtable. */
  lemma MemMisses(s: System, maxLevel: nat, k: Bytes)
    requires s.proc.Up? && UpInv(s, maxLevel)
    requires forall e :: e in s.hist && e.key == k ==> e.seqno <= s.base
    ensures FirstHit(MemOrder(s.proc.mem), k).None?
  {
    hide Sorted, FilesOk, Represented, FlushedRep, Held, MemOrder, MemTablesOk;
    var t := MemOrder(s.proc.mem);
    MemOrderSize(s.proc.mem);
    FirstHitNone(t, k);
    forall j, y: Entry | 0 <= j < |t| && y in t[j]
      ensures y.key != k
    {
      TableAt(s, j, y);
      LogInHist(s, WalAt(s.proc.mem, j), y);
    }
  }

  lemma BestIsLast(s: System, maxLevel: nat, k: Bytes, r: Option<Entry>)
    requires DiskInv(s, maxLevel) && BestFrom(s.disk.version, s.disk.ssts, 0, k, r)
    ensures r.None? ==> forall x :: Held(s.disk.version, s.disk.ssts, x) ==> x.key != k
    ensures r.Some? ==> Held(s.disk.version, s.disk.ssts, r.value) && r.value.key == k
    ensures r.Some? ==> forall x :: Held(s.disk.version, s.disk.ssts, x) && x.key == k ==> x.seqno <= r.value.seqno
  {
    hide FilesOk, FilesRep, OnLog;
    var v, fs := s.disk.version, s.disk.ssts;
    forall x | Held(v, fs, x) && x.key == k
      ensures r.Some? && x.seqno <= r.value.seqno
    {
      var i, m :| 0 <= i < MAX_LEVELS && m in v.levels[i] && m.id in fs && x in fs[m.id];
    }
    if r.Some? {
      var i, m :| 0 <= i < MAX_LEVELS && m in v.levels[i] && m.id in fs && r.value in fs[m.id];
      HeldBy(v, fs, i, m, r.value);
    }
  }

  /** What the files answer for a key whose last write, if any, has left the memtables. */
  lemma FilesFind(s: System, maxLevel: nat, k: Bytes, last: Option<Entry>)
    requires s.proc.Up? && UpInv(s, maxLevel)
    requires last.Some? ==> IsLast(s.hist, last.value) && last.value.key == k && last.value.seqno <= s.base
    requires last.None? ==> forall x :: x in s.hist ==> x.key != k
    ensures AllOnDisk(s.disk.version, s.disk.ssts)
    ensures var r := FileLookup(s.disk.version, s.disk.ssts, k, s.proc.mem.seqNo);
            r == last || (r.None? && last.Some? && last.value.kind.Deletion?)
  {
    hide MemTablesOk, OnLog, FlushedRep, CompactorOk, WriterOk, FlusherOk, VersionOk, FileLayered, Held, FileLookup, BestFrom;
    var v, fs := s.disk.version, s.disk.ssts;
    FileOkShape(v, fs, maxLevel);
    FileLookupIsBest(v, fs, maxLevel, s.proc.mem.seqNo, k);
    var r := FileLookup(v, fs, k, s.proc.mem.seqNo);
    BestIsLast(s, maxLevel, k, r);
    if last.Some? && r.Some? {
      assert FilesRep(v, fs, last.value);
      SeqnoIdentifies(s.hist, r.value, last.value);
    }
  }

  function Expected(m: map<Bytes, Bytes>, k: Bytes): Answer {
    if k in m then Found(m[k]) else Missing
  }

  /** The last write of k put an empty value, and no memtable holds it any more. */
  ghost predicate EmptyOnDisk(s: System, k: Bytes)
    requires s.proc.Up?
  {
    k in Plain(s.hist) && Plain(s.hist)[k] == [] && FirstHit(MemOrder(s.proc.mem), k).None?
  }

  /** Get agrees with the plain map exactly when it is not asked for an empty value served from a file. */
  lemma GetIsPlain(s: System, maxLevel: nat, k: Bytes)
    requires s.proc.Up? && UpInv(s, maxLevel) && s.proc.writer.Idle?
    ensures AllOnDisk(s.disk.version, s.disk.ssts)
    ensures Get(s.proc.mem, s.disk.version, s.disk.ssts, k) == Expected(Plain(s.hist), k) <==> !EmptyOnDisk(s, k)
    ensures EmptyOnDisk(s, k) ==> Get(s.proc.mem, s.disk.version, s.disk.ssts, k) == Missing
  {
    hide MemTablesOk, OnLog, FlushedRep, CompactorOk, WriterOk, FlusherOk, FilesOk, Held, FileLookup, MemOrder, FirstHit, Plain, Represented;
    var e := PlainLast(s.hist, k);
    if e.Some? && e.value.seqno > s.base {
      MemFinds(s, maxLevel, e.value);
      DiskShape(s, maxLevel);
    } else {
      MemMisses(s, maxLevel, k);
      FilesFind(s, maxLevel, k, e);
    }
  }

  lemma DiskShape(s: System, maxLevel: nat)
    requires DiskInv(s, maxLevel)
    ensures s.disk.version.WellFormed() && AllOnDisk(s.disk.version, s.disk.ssts)
  {
    hide FilesRep, Held, OnLog, VersionOk;
    FileOkShape(s.disk.version, s.disk.ssts, maxLevel);
  }

  // ---- Theorems about every run ----

  /**
   * In every run, through any number of writes, rotations, flushes, compactions, crashes and
   * recoveries, whenever the engine is up with no write in flight a read answers as the plain map
   * of the durable writes does, save for empty values that have reached a file.
   */
  lemma RunReadsPlainMap(run: seq<System>, steps: seq<Step>, maxLevel: nat, i: nat, k: Bytes)
    requires IsRun(run, steps, maxLevel) && 1 <= maxLevel <= MAX_LEVELS && i < |run|
    requires run[i].proc.Up? && run[i].proc.writer.Idle?
    ensures run[i].disk.version.WellFormed() && AllOnDisk(run[i].disk.version, run[i].disk.ssts)
    ensures Get(run[i].proc.mem, run[i].disk.version, run[i].disk.ssts, k) == Expected(Plain(run[i].hist), k)
            <==> !EmptyOnDisk(run[i], k)
    ensures EmptyOnDisk(run[i], k) ==> Get(run[i].proc.mem, run[i].disk.version, run[i].disk.ssts, k) == Missing
  {
    hide UpInv, IsRun, Get, Plain, EmptyOnDisk;
    RunKeepsInv(run, steps, maxLevel, i);
    assert UpInv(run[i], maxLevel);
    UpHasDisk(run[i], maxLevel);
    GetIsPlain(run[i], maxLevel, k);
    DiskShape(run[i], maxLevel);
  }

  lemma UpHasDisk(s: System, maxLevel: nat)
    requires s.proc.Up? && UpInv(s, maxLevel)
    ensures DiskInv(s, maxLevel)
  {
  }

  lemma DoGrows(s: System, t: Step, maxLevel: nat)
    requires Inv(s, maxLevel) && Enabled(s, t, maxLevel)
    ensures s.hist <= Do(s, t, maxLevel).hist && s.acked <= Do(s, t, maxLevel).acked
    ensures !t.Append? ==> Do(s, t, maxLevel).hist == s.hist
  {
    hide Inv, Update, Filled, Wanted;
    InvAcked(s, maxLevel);
  }

  /** No step forgets a durable write, and none withdraws an acknowledgement. */
  lemma {:induction false} RunForgetsNothing(run: seq<System>, steps: seq<Step>, maxLevel: nat, i: nat, j: nat)
    requires IsRun(run, steps, maxLevel) && 1 <= maxLevel <= MAX_LEVELS && i <= j < |run|
    ensures run[i].hist <= run[j].hist && run[i].acked <= run[j].acked <= |run[j].hist|
    ensures (forall t :: i <= t < j ==> !steps[t].Append?) ==> run[j].hist == run[i].hist
  {
    hide Inv, Enabled, Do;
    RunKeepsInv(run, steps, maxLevel, j);
    InvAcked(run[j], maxLevel);
    if i < j {
      RunForgetsNothing(run, steps, maxLevel, i, j - 1);
      RunKeepsInv(run, steps, maxLevel, j - 1);
      DoGrows(run[j - 1], steps[j - 1], maxLevel);
    }
  }

  /**
   * A crash at any point, then any recoveries and any further crashes, until the engine is up again
   * with no write logged since: every read answers from the acknowledged writes and nothing else, or
   * from them and one whole batch that was being written when the crash came.
   */
  lemma CrashLosesNothing(run: seq<System>, steps: seq<Step>, maxLevel: nat, i: nat, j: nat, k: Bytes)
    requires IsRun(run, steps, maxLevel) && 1 <= maxLevel <= MAX_LEVELS && i < j < |run| && steps[i] == Crash
    requires (forall t :: i <= t < j ==> !steps[t].Append?) && run[j].proc.Up? && run[j].proc.writer.Idle?
    ensures run[i].acked <= |run[i].hist| && OneBatchAhead(run, steps, i)
    ensures run[j].disk.version.WellFormed() && AllOnDisk(run[j].disk.version, run[j].disk.ssts)
    ensures Get(run[j].proc.mem, run[j].disk.version, run[j].disk.ssts, k) == Expected(Plain(run[i].hist), k)
            <==> !EmptyOnDisk(run[j], k)
    ensures EmptyOnDisk(run[j], k) ==>
              Expected(Plain(run[i].hist), k) == Found([]) && Get(run[j].proc.mem, run[j].disk.version, run[j].disk.ssts, k) == Missing
  {
    hide IsRun, Get, Plain, OneBatchAhead;
    RunForgetsNothing(run, steps, maxLevel, i, j);
    RunIsOneBatchAhead(run, steps, maxLevel, i);
    RunReadsPlainMap(run, steps, maxLevel, j, k);
  }

  lemma InvAcked(s: System, maxLevel: nat)
    requires Inv(s, maxLevel)
    ensures s.acked <= |s.hist|
    ensures s.proc.Up? && (s.proc.writer.Idle? || s.proc.writer.Numbered?) ==> s.acked == |s.hist|
  {
    hide FilesOk, Represented, Held, FlushedRep, CompactorOk, MemTablesOk, FlusherOk, StageOk;
  }

  /** The durable writes beyond the acknowledged ones are nothing, or one whole batch of a write in flight. */
  ghost predicate OneBatchAhead(run: seq<System>, steps: seq<Step>, i: nat)
    requires i < |run| && i <= |steps| && run[i].acked <= |run[i].hist|
  {
    var ahead := run[i].hist[run[i].acked..];
    || ahead == []
    || exists j :: 0 <= j < i && steps[j].Append? && run[j].proc.Up? && run[j].proc.writer == Numbered(ahead)
  }

  lemma {:induction false} RunIsOneBatchAhead(run: seq<System>, steps: seq<Step>, maxLevel: nat, i: nat)
    requires IsRun(run, steps, maxLevel) && 1 <= maxLevel <= MAX_LEVELS && i < |run|
    ensures run[i].acked <= |run[i].hist| && OneBatchAhead(run, steps, i)
  {
    hide Inv;
    RunKeepsInv(run, steps, maxLevel, i);
    InvAcked(run[i], maxLevel);
    if i > 0 {
      var s, t := run[i - 1], steps[i - 1];
      RunIsOneBatchAhead(run, steps, maxLevel, i - 1);
      RunKeepsInv(run, steps, maxLevel, i - 1);
      InvAcked(s, maxLevel);
      AheadStep(s, t, maxLevel);
      if !t.Append? && run[i].hist[run[i].acked..] != [] {
        var j :| 0 <= j < i - 1 && steps[j].Append? && run[j].proc.Up?
                 && run[j].proc.writer == Numbered(s.hist[s.acked..]);
      }
    }
  }

  lemma AheadStep(s: System, t: Step, maxLevel: nat)
    requires Enabled(s, t, maxLevel) && s.acked <= |s.hist|
    requires s.proc.Up? && (s.proc.writer.Idle? || s.proc.writer.Numbered?) ==> s.acked == |s.hist|
    ensures var s' := Do(s, t, maxLevel);
            && s'.acked <= |s'.hist|
            && (t.Append? ==> s.proc.Up? && s.proc.writer == Numbered(s'.hist[s'.acked..]))
            && (!t.Append? ==> s'.hist[s'.acked..] == [] || s'.hist[s'.acked..] == s.hist[s.acked..])
  {
    hide Update, Committed, InsertAll, Filled, Wanted;
  }

  /** A recovered engine numbers new writes above everything it holds, and never misses a file. */
  lemma RunNumbersAbove(run: seq<System>, steps: seq<Step>, maxLevel: nat, i: nat)
    requires IsRun(run, steps, maxLevel) && 1 <= maxLevel <= MAX_LEVELS && i < |run|
    ensures run[i].disk.version.WellFormed()
    ensures forall id :: Referenced(run[i].disk.version, id) ==> id in run[i].disk.ssts
    ensures forall e :: Held(run[i].disk.version, run[i].disk.ssts, e) ==> e in run[i].hist
    ensures !run[i].proc.Down? ==> forall e :: e in run[i].hist ==> e.seqno <= run[i].proc.mem.seqNo
  {
    hide IsRun, FilesOk, Represented, Held, FlushedRep, CompactorOk, MemTablesOk, FlusherOk, StageOk;
    RunKeepsInv(run, steps, maxLevel, i);
    NothingMissing(run[i], maxLevel);
  }
}
