// The engine as an object: every method is a run of steps, so every theorem about runs holds of it.
module LSMEngine {
  import opened Keys
  import opened Merge
  import opened Manifest
  import opened Levels
  import opened Compaction
  import opened Commit
  import opened Meaning
  import opened Table
  import opened Engine
  import opened EngineInv
  import opened EngineSteps
  import opened EngineRecovery
  import opened EngineRead
  import opened EngineRun
  import opened Shards

  lemma RunGrows(run: seq<System>, steps: seq<Step>, t: Step, maxLevel: nat)
    requires IsRun(run, steps, maxLevel) && Enabled(run[|steps|], t, maxLevel)
    ensures IsRun(run + [Do(run[|steps|], t, maxLevel)], steps + [t], maxLevel)
  {
    hide Enabled, Do;
    var more, ts := run + [Do(run[|steps|], t, maxLevel)], steps + [t];
    forall i | 0 <= i < |ts|
      ensures Enabled(more[i], ts[i], maxLevel) && more[i + 1] == Do(more[i], ts[i], maxLevel)
    {
      assert more[i] == run[i];
      if i < |steps| {
        assert ts[i] == steps[i] && more[i + 1] == run[i + 1];
      }
    }
  }

  /** What the methods need of the invariant. */
  lemma UpFacts(s: System, maxLevel: nat)
    requires s.proc.Up? && UpInv(s, maxLevel)
    ensures s.disk.version.WellFormed() && AllOnDisk(s.disk.version, s.disk.ssts) && HistOk(s.hist)
    ensures s.proc.mem.wal in s.disk.wals
    ensures forall i :: 0 <= i < |s.proc.mem.imms| ==> s.proc.mem.imms[i].wal in s.disk.wals
    ensures forall i :: 1 <= i < MAX_LEVELS ==> RankOrdered(FirstKey, s.disk.version.levels[i])
  {
    hide LogsExact, Represented, FlushedRep, CompactorOk, FlusherOk, WriterOk, FilesDrawn, WalsOrdered, Sorted, FileLayered, LevelOk,
         RankOrdered;
    FileOkShape(s.disk.version, s.disk.ssts, maxLevel);
    assert forall i :: 0 <= i < |s.proc.mem.imms| ==> ImmOk(s, s.proc.mem.imms[i]);
  }

  // ---- The plain map and a batch ----

  lemma {:induction false} PlainOfStamp(hist: seq<Entry>, ops: seq<Op>, seqNo: nat)
    ensures Plain(hist + Stamp(ops, seqNo)) == ApplyBatch(Plain(hist), ops)
  {
    if ops == [] {
      assert hist + Stamp(ops, seqNo) == hist;
    } else {
      var n := |ops| - 1;
      PlainOfStamp(hist, ops[..n], seqNo);
      var all, front := hist + Stamp(ops, seqNo), hist + Stamp(ops[..n], seqNo);
      assert all[..|all| - 1] == front && all[|all| - 1] == StampOp(ops[n], seqNo + 1 + n);
    }
  }

  lemma StampNext(ops: seq<Op>, seqNo: nat, i: nat)
    requires i < |ops|
    ensures Stamp(ops[..i + 1], seqNo) == Stamp(ops[..i], seqNo) + [StampOp(ops[i], seqNo + 1 + i)]
    ensures Numbers(ops[..i + 1]) == Numbers(ops[..i]) + [Number(ops[i])]
  {
  }

  ghost function Numbers(ops: seq<Op>): seq<Step> {
    seq(|ops|, i requires 0 <= i < |ops| => Number(ops[i]))
  }

  ghost function Refused(steps: seq<Step>, count: nat): seq<Step> {
    if count == 0 then steps else steps + [Refuse]
  }

  function EntrySize(e: Entry): nat {
    |e.key| + |e.value| + 16
  }

  class LSMEngine {
    const maxLevel: nat
    const maxValueSize: nat
    const memTableSize: nat
    var disk: Disk
    var mem: Memory
    var size: nat
    /** The run of the state machine that this object has performed. */
    ghost var run: seq<System>
    ghost var steps: seq<Step>

    ghost predicate Running()
      reads `run, `steps
    {
      1 <= maxLevel <= MAX_LEVELS && IsRun(run, steps, maxLevel)
    }

    ghost function Now(): System
      reads `run, `steps
      requires Running()
    {
      run[|steps|]
    }

    ghost function Hist(): seq<Entry>
      reads `run, `steps
      requires Running()
    {
      Now().hist
    }

    ghost predicate Valid()
      reads this
    {
      Running() && Now().disk == disk && Now().proc == Up(mem, Idle, Resting, NoJob)
    }

    /** The object before recover; run is how the files it finds came about. */
    constructor (d: Disk, maxLevel: nat, maxValueSize: nat, memTableSize: nat, ghost run: seq<System>, ghost steps: seq<Step>)
      requires 1 <= maxLevel <= MAX_LEVELS && IsRun(run, steps, maxLevel) && run[|steps|].disk == d && run[|steps|].proc.Down?
      ensures Running() && this.run == run && this.steps == steps && disk == d && size == 0
      ensures this.maxLevel == maxLevel && this.maxValueSize == maxValueSize && this.memTableSize == memTableSize
    {
      this.maxLevel, this.maxValueSize, this.memTableSize := maxLevel, maxValueSize, memTableSize;
      disk, mem, size := d, Memory([], [], 0, 0, 0), 0;
      this.run, this.steps := run, steps;
    }

    /** recover: whatever crash left the files, the engine comes up with every durable write. */
    method Recover()
      requires Running() && Now().disk == disk && Now().proc.Down? && size == 0
      modifies this
      ensures Valid() && old(run) <= run && Hist() == old(Hist())
      ensures mem.imms == [] && (size <= memTableSize || mem.table == [])
    {
      hide IsRun, Enabled, Do;
      var logs := Load();
      CleanOrphans(logs);
      if |logs| > 0 {
        FoldLogs(logs);
      }
      OnOpenReady(Now(), maxLevel);
      Take(OpenReady);
      if size > memTableSize && |mem.table| > 0 {
        FlushOversized();
      }
      Settle();
    }

    /** Replays the manifest's version and every log into memory. */
    method Load() returns (logs: seq<nat>)
      requires Running() && Now().disk == disk && Now().proc.Down? && size == 0
      modifies `mem, `size, `run, `steps
      ensures Running() && old(run) <= run && Hist() == old(Hist()) && disk.version.WellFormed()
      ensures Now().disk == disk && Now().proc == Opening(mem, logs, Cleaning) && mem.imms == []
    {
      hide IsRun, Inv, UpInv, ActiveLog, Replayed, InsertAll, MaxSeq, Referenced;
      Found();
      logs := SortedLogs(disk.wals.Keys);
      ReplayLogs(logs);
      var active := ActiveNumber(disk);
      Take(OpenLoad(logs));
      mem := mem.(wal := active, seqNo := Max(disk.version.maxSeqNo, mem.seqNo), nextID := if logs == [] then active else active + 1);
    }

    /** No table file the manifest names is missing. */
    lemma Found()
      requires Running() && Now().proc.Down?
      ensures Now().disk.version.WellFormed() && forall id :: Referenced(Now().disk.version, id) ==> id in Now().disk.ssts
    {
      hide Inv, Referenced;
      RunKeepsInv(run, steps, maxLevel, |steps|);
      NothingMissing(Now(), maxLevel);
    }

    method ReplayLogs(logs: seq<nat>)
      requires (forall w :: w in logs ==> w in disk.wals) && size == 0
      modifies `mem, `size
      ensures mem == Memory(InsertAll([], Replayed(logs, disk.wals)), [], 0, MaxSeq(Replayed(logs, disk.wals)), 0)
      ensures size == Sizes(Replayed(logs, disk.wals))
    {
      hide InsertAll, Insert, MaxSeq, Sizes;
      mem := Memory([], [], 0, 0, 0);
      NothingReplayed();
      for i := 0 to |logs|
        invariant forall w :: w in logs[..i] ==> w in disk.wals
        invariant mem == Memory(InsertAll([], Replayed(logs[..i], disk.wals)), [], 0, MaxSeq(Replayed(logs[..i], disk.wals)), 0)
        invariant size == Sizes(Replayed(logs[..i], disk.wals))
      {
        assert logs[..i + 1][..i] == logs[..i] && logs[i] in logs;
        var entries := disk.wals[logs[i]];
        ghost var before := Replayed(logs[..i], disk.wals);
        assert before + entries[..0] == before;
        for j := 0 to |entries|
          invariant mem == Memory(InsertAll([], before + entries[..j]), [], 0, MaxSeq(before + entries[..j]), 0)
          invariant size == Sizes(before + entries[..j])
        {
          assert before + entries[..j + 1] == before + entries[..j] + [entries[j]];
          ReplayedNext(before + entries[..j], entries[j]);
          mem := Memory(Insert(mem.table, entries[j]), [], 0, Max(mem.seqNo, entries[j].seqno), 0);
          size := size + EntrySize(entries[j]);
        }
        assert entries[..|entries|] == entries;
      }
      assert logs[..|logs|] == logs;
    }

    /** Table files the manifest does not name are leftovers of work that was never committed. */
    method CleanOrphans(ghost logs: seq<nat>)
      requires Running() && Now().disk == disk && Now().proc == Opening(mem, logs, Cleaning) && disk.version.WellFormed()
      modifies `disk, `run, `steps
      ensures Running() && old(run) <= run && Hist() == old(Hist())
      ensures Now().disk == disk && Now().proc == Opening(mem, logs, Cleaning) && disk == old(disk).(ssts := disk.ssts)
      ensures forall id :: id in disk.ssts <==> id in old(disk).ssts && Referenced(old(disk).version, id)
    {
      hide IsRun, Referenced;
      var todo := disk.ssts.Keys;
      while todo != {}
        invariant todo <= old(disk).ssts.Keys && disk == old(disk).(ssts := disk.ssts)
        invariant forall id :: id in disk.ssts <==> id in old(disk).ssts && (id in todo || Referenced(disk.version, id))
        invariant Running() && old(run) <= run && Hist() == old(Hist())
        invariant Now().disk == disk && Now().proc == Opening(mem, logs, Cleaning)
        decreases todo
      {
        var id :| id in todo;
        todo := todo - {id};
        var named := HasFile(disk.version, id);
        if !named {
          Take(OpenClean(id));
          disk := disk.(ssts := disk.ssts - {id});
        }
      }
    }

    /** Everything recovered goes to one new log before the old ones go. */
    method FoldLogs(logs: seq<nat>)
      requires Running() && Now().disk == disk && Now().proc == Opening(mem, logs, Cleaning) && logs != []
      modifies `disk, `run, `steps
      ensures Running() && old(run) <= run && Hist() == old(Hist())
      ensures Now().disk == disk && Now().proc == Opening(mem, [], Unlinking) && disk.version == old(disk).version
    {
      hide IsRun, Enabled, Do;
      OnOpenCreate(Now(), maxLevel);
      Take(OpenCreate);
      disk := disk.(wals := disk.wals[mem.wal := []]);
      RewriteTable(logs);
      RemoveLogs(logs);
    }

    /** rewriteMemtableToWAL */
    method RewriteTable(ghost logs: seq<nat>)
      requires Running() && Now().disk == disk && Now().proc == Opening(mem, logs, Rewriting(0)) && mem.wal in disk.wals
      modifies `disk, `run, `steps
      ensures Running() && old(run) <= run && Hist() == old(Hist())
      ensures Now().disk == disk && Now().proc == Opening(mem, logs, Unlinking) && disk.version == old(disk).version
    {
      hide IsRun, Enabled, Do;
      for i := 0 to |mem.table|
        modifies `disk, `run, `steps
        invariant Running() && old(run) <= run && Hist() == old(Hist()) && mem.wal in disk.wals
        invariant Now().disk == disk && Now().proc == Opening(mem, logs, Rewriting(i)) && disk.version == old(disk).version
      {
        OnOpenRewrite(Now(), maxLevel);
        Take(OpenRewrite);
        disk := disk.(wals := disk.wals[mem.wal := disk.wals[mem.wal] + [mem.table[i]]]);
      }
      OnOpenSync(Now(), maxLevel);
      Take(OpenSync);
    }

    method RemoveLogs(logs: seq<nat>)
      requires Running() && Now().disk == disk && Now().proc == Opening(mem, logs, Unlinking)
      modifies `disk, `run, `steps
      ensures Running() && old(run) <= run && Hist() == old(Hist())
      ensures Now().disk == disk && Now().proc == Opening(mem, [], Unlinking) && disk.version == old(disk).version
    {
      hide IsRun, Enabled, Do;
      assert logs[0..] == logs;
      for i := 0 to |logs|
        modifies `disk, `run, `steps
        invariant Running() && old(run) <= run && Hist() == old(Hist())
        invariant Now().disk == disk && Now().proc == Opening(mem, logs[i..], Unlinking) && disk.version == old(disk).version
      {
        assert logs[i..][0] == logs[i] && logs[i..][1..] == logs[i + 1..];
        OnOpenUnlink(Now(), maxLevel);
        Take(OpenUnlink);
        disk := disk.(wals := disk.wals - {logs[i]});
      }
      assert logs[|logs|..] == [];
    }

    /** recoverFlushOversizedMemtable */
    method FlushOversized()
      requires Running() && Now().disk == disk && Now().proc == Opening(mem, [], Ready)
      requires mem.table != [] && disk.version.WellFormed()
      modifies `disk, `mem, `size, `run, `steps
      ensures Running() && old(run) <= run && Hist() == old(Hist()) && disk.version.WellFormed()
      ensures Now().disk == disk && Now().proc == Opening(mem, [], Ready)
      ensures mem.table == [] && mem.imms == old(mem).imms && steps == old(steps) + [OpenFlushCreate] + [OpenFlushWrite] + [OpenFlushList]
    {
      hide IsRun, Update, MetaOf, Enabled, Do;
      var id := BuildOversized();
      OnOpenFlushList(Now(), maxLevel);
      Take(OpenFlushList);
      disk := disk.(version := Update(disk.version, AddL0(MetaOf(id, 0, mem.table))));
      mem, size := mem.(table := []), 0;
    }

    method BuildOversized() returns (id: nat)
      requires Running() && Now().disk == disk && Now().proc == Opening(mem, [], Ready) && mem.table != []
      modifies `disk, `mem, `run, `steps
      ensures Running() && old(run) <= run && Hist() == old(Hist())
      ensures Now().disk == disk && Now().proc == Opening(mem, [], Flushing(id)) && disk.version == old(disk).version
      ensures mem == old(mem).(nextID := id) && steps == old(steps) + [OpenFlushCreate] + [OpenFlushWrite]
    {
      hide IsRun, Enabled, Do;
      id := mem.nextID + 1;
      OnOpenFlushCreate(Now(), maxLevel);
      Take(OpenFlushCreate);
      disk, mem := disk.(ssts := disk.ssts[id := []]), mem.(nextID := id);
      OnOpenFlushWrite(Now(), maxLevel);
      Take(OpenFlushWrite);
      disk := disk.(ssts := disk.ssts[id := mem.table]);
    }

    /** The active log is recorded if it is not yet, and opened. */
    method Settle()
      requires Running() && Now().disk == disk && Now().proc == Opening(mem, [], Ready) && disk.version.WellFormed()
      modifies `disk, `run, `steps
      ensures Valid() && old(run) <= run && Hist() == old(Hist())
    {
      hide IsRun, Update, Enabled, Do;
      OnOpenNote(Now(), maxLevel);
      Take(OpenNote);
      SameLogNumber(disk.version, mem.wal);
      if disk.version.logNumber != mem.wal {
        disk := disk.(version := Update(disk.version, LogEdit(mem.wal)));
      }
      OnOpenDone(Now(), maxLevel);
      Take(OpenDone);
      if mem.wal !in disk.wals {
        disk := disk.(wals := disk.wals[mem.wal := []]);
      }
    }

    lemma Facts()
      requires Valid()
      ensures UpInv(Now(), maxLevel) && disk.version.WellFormed() && AllOnDisk(disk.version, disk.ssts) && HistOk(Hist())
      ensures mem.wal in disk.wals
      ensures forall i :: 0 <= i < |mem.imms| ==> mem.imms[i].wal in disk.wals
    {
      hide UpInv, OnDisk;
      RunKeepsInv(run, steps, maxLevel, |steps|);
      UpFacts(Now(), maxLevel);
    }

    ghost method Take(t: Step)
      requires Running() && Enabled(Now(), t, maxLevel)
      modifies `run, `steps
      ensures Running() && old(run) <= run && steps == old(steps) + [t] && Now() == Do(old(Now()), t, maxLevel)
    {
      hide Enabled, Do;
      RunGrows(run, steps, t, maxLevel);
      run, steps := run + [Do(Now(), t, maxLevel)], steps + [t];
    }

    /** Write: one log record for the batch, then the memtable, then a rotation when that is full. */
    method Write(ops: seq<Op>) returns (ok: bool)
      requires Valid() && forall op :: op in ops ==> op.key != []
      modifies this
      ensures Valid() && old(run) <= run
      ensures ok <==> forall op :: op in ops ==> !(op.Put? && |op.value| > maxValueSize)
      ensures Plain(Hist()) == if ok then ApplyBatch(old(Plain(Hist())), ops) else old(Plain(Hist()))
      ensures !ok ==>
                steps == Refused(old(steps) + Numbers(ops[..Accepted(ops, maxValueSize)]), Accepted(ops, maxValueSize))
      ensures ok && ops != [] ==>
                steps == Rotated(old(steps) + Numbers(ops) + [Append] + [Apply],
                                 old(size) + Sizes(Stamp(ops, old(mem).seqNo)) >= memTableSize)
    {
      hide Inv, UpInv, IsRun, Plain, ApplyBatch, Stamp, Accepted, Numbers;
      if |ops| == 0 {
        NoBatch(Plain(Hist()));
        return true;
      }
      Facts();
      ghost var hist, first := Hist(), mem.seqNo;
      var batch, count := StampBatch(ops);
      if count < |ops| {
        if count > 0 {
          Take(Refuse);
        }
        return false;
      }
      assert ops[..count] == ops;
      StampFacts(ops, first);
      LogBatch(batch);
      PlainOfStamp(hist, ops, first);
      if size >= memTableSize {
        RotateMemTable();
      }
      return true;
    }

    /** Numbers the operations one by one, up to the first whose value is too large. */
    method StampBatch(ops: seq<Op>) returns (batch: seq<Entry>, count: nat)
      requires Valid() && forall op :: op in ops ==> op.key != []
      modifies `mem, `run, `steps
      ensures count <= |ops| && mem == old(mem).(seqNo := old(mem).seqNo + count) && batch == Stamp(ops[..count], old(mem).seqNo)
      ensures count == |ops| <==> forall op :: op in ops ==> !(op.Put? && |op.value| > maxValueSize)
      ensures count == Accepted(ops, maxValueSize)
      ensures Running() && old(run) <= run && Hist() == old(Hist()) && steps == old(steps) + Numbers(ops[..count])
      ensures Now().disk == disk && Now().proc == Up(mem, if count == 0 then Idle else Numbered(batch), Resting, NoJob)
    {
      hide Stamp, Accepted, Numbers, IsRun;
      batch, count := [], 0;
      assert Stamp(ops[..0], mem.seqNo) == [] && Numbers(ops[..0]) == [] by { NoStamp(mem.seqNo); }
      while count < |ops|
        invariant count <= |ops| && mem == old(mem).(seqNo := old(mem).seqNo + count)
        invariant batch == Stamp(ops[..count], old(mem).seqNo)
        invariant forall j :: 0 <= j < count ==> !(ops[j].Put? && |ops[j].value| > maxValueSize)
        invariant Running() && old(run) <= run && Hist() == old(Hist()) && steps == old(steps) + Numbers(ops[..count])
        invariant Now().disk == disk && Now().proc == Up(mem, if count == 0 then Idle else Numbered(batch), Resting, NoJob)
      {
        if ops[count].Put? && |ops[count].value| > maxValueSize {
          assert ops[count] in ops;
          AcceptedIs(ops, maxValueSize, count);
          return;
        }
        StampNext(ops, old(mem).seqNo, count);
        Take(Number(ops[count]));
        mem := mem.(seqNo := mem.seqNo + 1);
        batch := batch + [StampOp(ops[count], mem.seqNo)];
        count := count + 1;
      }
      AcceptedIs(ops, maxValueSize, count);
    }

    /** The record, then the memtable. */
    method LogBatch(batch: seq<Entry>)
      requires Running() && mem.wal in disk.wals && batch != []
      requires Now().disk == disk && Now().proc == Up(mem, Numbered(batch), Resting, NoJob)
      modifies this
      ensures Valid() && old(run) <= run && Hist() == old(Hist()) + batch && mem.table != []
      ensures steps == old(steps) + [Append] + [Apply] && size == old(size) + Sizes(batch)
    {
      hide Inv, UpInv, IsRun, InsertAll, Sizes;
      Take(Append);
      disk := disk.(wals := disk.wals[mem.wal := disk.wals[mem.wal] + batch]);
      InsertBatch(batch);
      Take(Apply);
    }

    method InsertBatch(batch: seq<Entry>)
      modifies `mem, `size
      ensures mem == old(mem).(table := InsertAll(old(mem).table, batch)) && size == old(size) + Sizes(batch)
      ensures batch != [] ==> mem.table != []
    {
      ghost var before := mem;
      for i := 0 to |batch|
        invariant size == old(size) + Sizes(batch[..i])
        invariant mem == before.(table := InsertAll(before.table, batch[..i])) && (i > 0 ==> mem.table != [])
      {
        assert batch[..i + 1][..i] == batch[..i];
        mem := mem.(table := Insert(mem.table, batch[i]));
        size := size + EntrySize(batch[i]);
      }
      assert batch[..|batch|] == batch;
    }

    /** Put: a value too large is refused before it takes a sequence number. */
    method Put(key: Bytes, value: Bytes) returns (ok: bool)
      requires Valid() && key != []
      modifies this
      ensures Valid() && old(run) <= run && (ok <==> |value| <= maxValueSize) && (!ok ==> steps == old(steps))
      ensures Plain(Hist()) == if ok then old(Plain(Hist()))[key := value] else old(Plain(Hist()))
    {
      hide IsRun, Plain;
      if |value| > maxValueSize {
        return false;
      }
      OneOp(Plain(Hist()), Op.Put(key, value));
      ok := Write([Op.Put(key, value)]);
    }

    method Delete(key: Bytes)
      requires Valid() && key != []
      modifies this
      ensures Valid() && old(run) <= run && Plain(Hist()) == old(Plain(Hist())) - {key}
    {
      hide IsRun, Plain;
      OneOp(Plain(Hist()), Del(key));
      var ok := Write([Del(key)]);
    }

    /** rotateMemTable: a new log, its number in the manifest, then the full table joins the immutables. */
    method RotateMemTable()
      requires Valid() && (mem.table != [] || (mem.wal in disk.wals && disk.wals[mem.wal] == []))
      modifies this
      ensures Valid() && old(run) <= run && Hist() == old(Hist())
      ensures mem.table == [] && |mem.imms| == |old(mem).imms| + 1 && mem.imms[|mem.imms| - 1].table == old(mem).table
      ensures steps == old(steps) + [RotateCreate] + [RotateNote] + [RotateSwap]
    {
      hide Inv, UpInv, IsRun, Update, Enabled, Do;
      Facts();
      var wal := mem.nextID + 1;
      OnRotateCreate(Now(), maxLevel);
      Take(RotateCreate);
      disk, mem := disk.(wals := disk.wals[wal := []]), mem.(nextID := wal);
      OnRotateNote(Now(), maxLevel);
      Take(RotateNote);
      disk := disk.(version := Update(disk.version, LogEdit(wal)));
      OnRotateSwap(Now(), maxLevel);
      Take(RotateSwap);
      mem := mem.(table := [], imms := mem.imms + [Imm(mem.table, mem.wal)], wal := wal);
      size := 0;
    }

    /** flush, for the oldest immutable memtable. */
    method Flush()
      requires Valid()
      modifies this
      ensures Valid() && old(run) <= run && Hist() == old(Hist())
      ensures mem.table == old(mem).table && mem.imms == if old(mem).imms == [] then [] else old(mem).imms[1..]
      ensures steps == if old(mem).imms == [] then old(steps) else FlushedBy(old(steps), old(mem).imms[0].table)
    {
      hide Inv, UpInv, IsRun, Enabled, Do;
      if |mem.imms| == 0 {
        return;
      }
      Facts();
      var imm := mem.imms[0];
      var id := mem.nextID + 1;
      OnFlushCreate(Now(), maxLevel);
      Take(FlushCreate);
      disk, mem := disk.(ssts := disk.ssts[id := []]), mem.(nextID := id);
      if |imm.table| == 0 {
        OnFlushEmpty(Now(), maxLevel);
        Take(FlushEmpty);
        disk, mem := disk.(ssts := disk.ssts - {id}), mem.(imms := mem.imms[1..]);
        return;
      }
      WriteTable(imm, id);
      ReleaseImmutable(imm);
    }

    /** The first half of flush: the file, its manifest record, and the sequence number it is sealed with. */
    method WriteTable(imm: Imm, id: nat)
      requires Running() && mem.imms != [] && mem.imms[0] == imm && imm.table != [] && disk.version.WellFormed()
      requires Now().disk == disk && Now().proc == Up(mem, Idle, Flusher.Building(id), NoJob)
      modifies this
      ensures Running() && old(run) <= run && Hist() == old(Hist())
      ensures Now().disk == disk && Now().proc == Up(mem, Idle, Sealed, NoJob) && disk.wals == old(disk).wals && mem == old(mem)
      ensures steps == old(steps) + [FlushWrite] + [FlushList] + [FlushSeal]
    {
      hide Inv, UpInv, IsRun, Update, MetaOf, Enabled, Do;
      OnFlushWrite(Now(), maxLevel);
      Take(FlushWrite);
      disk := disk.(ssts := disk.ssts[id := imm.table]);
      OnFlushList(Now(), maxLevel);
      Take(FlushList);
      disk := disk.(version := Update(disk.version, AddL0(MetaOf(id, 0, imm.table))));
      OnFlushSeal(Now(), maxLevel);
      Take(FlushSeal);
      disk := disk.(version := Update(disk.version, SeqEdit(mem.seqNo)));
    }

    /** The second half: the memtable leaves, then its log. */
    method ReleaseImmutable(imm: Imm)
      requires Running() && mem.imms != [] && mem.imms[0] == imm && imm.wal in disk.wals
      requires Now().disk == disk && Now().proc == Up(mem, Idle, Sealed, NoJob)
      modifies this
      ensures Valid() && old(run) <= run && Hist() == old(Hist()) && mem == old(mem).(imms := old(mem).imms[1..])
      ensures steps == old(steps) + [FlushDrop] + [FlushUnlink]
    {
      hide Inv, UpInv, IsRun, MaxSeq, Enabled, Do;
      OnFlushDrop(Now(), maxLevel);
      Take(FlushDrop);
      mem := mem.(imms := mem.imms[1..]);
      OnFlushUnlink(Now(), maxLevel);
      Take(FlushUnlink);
      disk := disk.(wals := disk.wals - {imm.wal});
    }

    /** Get: memtables newest first, L0 newest file first, then one candidate file per level. */
    method Get(k: Bytes) returns (a: Answer)
      requires Valid()
      ensures disk.version.WellFormed() && AllOnDisk(disk.version, disk.ssts)
      ensures a == EngineRun.Get(mem, disk.version, disk.ssts, k)
      ensures a == Expected(Plain(Hist()), k) <==> !EmptyOnDisk(Now(), k)
      ensures EmptyOnDisk(Now(), k) ==> a == Missing
    {
      hide UpInv, IsRun, Plain, MemOrder, Find, FindAt, SortMetas, EmptyOnDisk, OnDisk;
      Facts();
      GetIsPlain(Now(), maxLevel, k);
      var hit := SearchMemTables(k);
      if hit.Some? {
        return FromMem(hit.value);
      }
      hit := SearchFiles(k);
      if hit.Some? {
        return FromFile(hit.value);
      }
      return Missing;
    }

    method SearchMemTables(k: Bytes) returns (r: Option<Entry>)
      ensures r == FirstHit(MemOrder(mem), k)
    {
      hide Find;
      ghost var ts, n := MemOrder(mem), |mem.imms|;
      r := Find(mem.table, k);
      if r.Some? {
        return;
      }
      var i := |mem.imms|;
      while i > 0
        invariant 0 <= i <= n && FirstHit(ts, k) == FirstHit(ts[n - i + 1..], k)
      {
        i := i - 1;
        assert ts[n - i..][0] == mem.imms[i].table && ts[n - i..][1..] == ts[n - i + 1..];
        r := Find(mem.imms[i].table, k);
        if r.Some? {
          return;
        }
      }
      assert ts[n + 1..] == [];
      r := None;
    }

    method SearchFiles(k: Bytes) returns (r: Option<Entry>)
      requires Valid() && disk.version.WellFormed() && AllOnDisk(disk.version, disk.ssts)
      ensures r == FileLookup(disk.version, disk.ssts, k, mem.seqNo)
    {
      hide IsRun, FindAt, SortMetas, UpInv, Candidate, LevelOk;
      var v, fs := disk.version, disk.ssts;
      SortedOnDisk(v.levels[0], fs, NewestFirst);
      var l0 := SortMetas(NewestFirst, v.levels[0]);
      for i := 0 to |l0|
        invariant OnDisk(l0[i..], fs) && FirstHitAt(l0, fs, k, mem.seqNo) == FirstHitAt(l0[i..], fs, k, mem.seqNo)
      {
        assert l0[i..][0] == l0[i] && l0[i..][1..] == l0[i + 1..] && l0[i] in l0;
        r := FindAt(fs[l0[i].id], k, mem.seqNo);
        if r.Some? {
          return;
        }
      }
      assert l0[|l0|..] == [];
      r := SearchLevels(k);
    }

    method SearchLevels(k: Bytes) returns (r: Option<Entry>)
      requires Valid() && disk.version.WellFormed() && AllOnDisk(disk.version, disk.ssts)
      ensures r == DeepLookup(disk.version, disk.ssts, 1, k, mem.seqNo)
    {
      hide IsRun, FindAt, UpInv, Candidate;
      var v, fs := disk.version, disk.ssts;
      RunLevels();
      for i := 1 to MAX_LEVELS
        invariant DeepLookup(v, fs, 1, k, mem.seqNo) == DeepLookup(v, fs, i, k, mem.seqNo)
      {
        var c := FindLevelCandidate(v.levels[i], k);
        if c.Some? && c.value.id in fs {
          r := FindAt(fs[c.value.id], k, mem.seqNo);
          if r.Some? {
            return;
          }
        }
      }
      r := None;
    }

    /** compactLevel and executeCompaction; full says when an output file is rolled. */
    method CompactLevel(level: nat, full: seq<Entry> -> bool)
      requires Valid()
      modifies this
      ensures Valid() && old(run) <= run && Hist() == old(Hist()) && mem == old(mem).(nextID := mem.nextID)
      ensures old(disk).version.WellFormed()
      ensures level + 1 >= maxLevel || old(disk).version.levels[level] == [] ==> steps == old(steps) && disk == old(disk)
      ensures level + 1 < maxLevel && old(disk).version.levels[level] != [] ==> CompactedBy(old(steps), steps, level, full)
    {
      hide IsRun, UpInv, Inv, Merging, Contents, Picks, Compacted, Flatten, Filling, Writes, Sweeps;
      Facts();
      if level + 1 >= maxLevel || |disk.version.levels[level]| == 0 {
        return;
      }
      ghost var n := if level == 0 then |disk.version.levels[0]| else 1;
      var inputs := Pick(level, n);
      var parts := MergeInputs(Contents(inputs, disk.ssts), level + 1 == maxLevel - 1, full);
      assert forall i :: 0 <= i < |parts| ==> parts[i] in parts;
      var outs := WriteOutputs(level, n, inputs, parts);
      CommitOutputs(level, n, inputs, outs);
      assert steps == old(steps) + [CompactPick(level)] + Writes(parts) + [CompactClose] + [CompactCommit] + Sweeps(|inputs|);
    }

    method Pick(level: nat, ghost n: nat) returns (inputs: seq<Meta>)
      requires Valid() && disk.version.WellFormed() && level + 1 < maxLevel && disk.version.levels[level] != []
      requires n == if level == 0 then |disk.version.levels[0]| else 1
      modifies `run, `steps
      ensures Running() && old(run) <= run && Hist() == old(Hist())
      ensures Now().disk == disk && Now().proc == Up(mem, Idle, Resting, Picked(level, n))
      ensures Picks(disk.version, Job(level, n, []), maxLevel) && inputs == Merging(disk.version, Job(level, n, []), maxLevel)
      ensures OnDisk(inputs, disk.ssts) && steps == old(steps) + [CompactPick(level)]
    {
      hide IsRun, UpInv, Inv, Inputs, SortMetas, Dedupe;
      inputs := PickInputs(disk.version, level, maxLevel);
      Take(CompactPick(level));
      PickedInputs(level, n, inputs);
    }

    lemma PickedInputs(level: nat, n: nat, inputs: seq<Meta>)
      requires Running() && Now().proc.Up? && Now().proc.compactor == Picked(level, n)
      requires Picks(Now().disk.version, Job(level, n, []), maxLevel)
      requires inputs == SortMetas(MergePriority, Dedupe(Inputs(Now().disk.version, level, n), {}))
      ensures inputs == Merging(Now().disk.version, Job(level, n, []), maxLevel) && OnDisk(inputs, Now().disk.ssts)
    {
      hide Inputs, SortMetas, Dedupe, LevelOk, Compacted, Flatten;
      var v, fs := Now().disk.version, Now().disk.ssts;
      RunKeepsInv(run, steps, maxLevel, |steps|);
      UpFiles(Now(), maxLevel);
      InputsDistinct(v, fs, maxLevel, level, n);
      DedupeDistinct(Inputs(v, level, n), {});
      InputsSound(v, fs, Job(level, n, []), maxLevel);
    }

    /** The output files one by one, on disk before anything refers to them. */
    method WriteOutputs(level: nat, ghost n: nat, inputs: seq<Meta>, parts: seq<seq<Entry>>) returns (outs: seq<Meta>)
      requires Running() && Now().disk == disk && Now().proc == Up(mem, Idle, Resting, Picked(level, n))
      requires Picks(disk.version, Job(level, n, []), maxLevel) && inputs == Merging(disk.version, Job(level, n, []), maxLevel)
      requires OnDisk(inputs, disk.ssts) && (forall i :: 0 <= i < |parts| ==> parts[i] != [])
      requires Flatten(parts) == Compacted(Contents(inputs, disk.ssts), level + 1 == maxLevel - 1)
      modifies this
      ensures Running() && old(run) <= run && Hist() == old(Hist()) && Now().disk == disk && disk.version == old(disk).version
      ensures Now().proc == Up(mem, Idle, Resting, Written(Job(level, n, outs)))
      ensures mem == old(mem).(nextID := mem.nextID) && steps == old(steps) + Writes(parts) + [CompactClose]
    {
      hide IsRun, UpInv, Inv, Merging, Contents, Compacted, Flatten, Filled, Wanted, Fillable, Enabled, Do, Picks, Writes;
      outs := [];
      ghost var v := disk.version;
      NoOutputYet(v, disk.ssts, level, n, maxLevel);
      FlattenEmpty();
      assert Writes([]) == [CompactCreate] by { NoWrites(); }
      if |parts| == 0 {
        CreateFile(level, n, []);
      }
      for i := 0 to |parts|
        modifies this
        invariant Running() && old(run) <= run && Hist() == old(Hist()) && Now().disk == disk
        invariant disk == old(disk).(ssts := disk.ssts) && mem == old(mem).(nextID := mem.nextID)
        invariant parts != [] ==> Now().proc == Up(mem, Idle, Resting, if i == 0 then Picked(level, n) else Writing(level, n, outs, None))
        invariant parts == [] ==> Now().proc == Up(mem, Idle, Resting, Writing(level, n, outs, Some(mem.nextID)))
        invariant i == 0 ==> outs == []
        invariant steps == old(steps) + if i == 0 && parts != [] then [] else Writes(parts[..i])
        invariant Fillable(v, disk.ssts, Job(level, n, outs), maxLevel)
        invariant Filled(v, disk.ssts, Job(level, n, outs), maxLevel) == Flatten(parts[..i])
        invariant Wanted(v, disk.ssts, Job(level, n, outs), maxLevel) == Flatten(parts)
      {
        FlattenPrefix(parts, i);
        outs := WriteOne(level, n, outs, parts[i]);
      }
      assert parts[..|parts|] == parts;
      CloseEnabled(Now(), level, n, outs, maxLevel);
      Take(CompactClose);
    }

    method WriteOne(level: nat, ghost n: nat, outs: seq<Meta>, part: seq<Entry>) returns (more: seq<Meta>)
      requires Running() && Now().disk == disk && Now().proc.Up? && part != []
      requires Now().proc == Up(mem, Idle, Resting, if outs == [] && Now().proc.compactor.Picked? then Picked(level, n) else Writing(level, n, outs, None))
      requires Fillable(disk.version, disk.ssts, Job(level, n, outs), maxLevel)
      requires Filled(disk.version, disk.ssts, Job(level, n, outs), maxLevel) + part
               <= Wanted(disk.version, disk.ssts, Job(level, n, outs), maxLevel)
      modifies `disk, `mem, `run, `steps
      ensures Running() && old(run) <= run && Hist() == old(Hist()) && steps == old(steps) + [CompactCreate] + [CompactWrite(part)]
      ensures mem == old(mem).(nextID := mem.nextID) && disk == old(disk).(ssts := disk.ssts) && more != []
      ensures Now().disk == disk && Now().proc == Up(mem, Idle, Resting, Writing(level, n, more, None))
      ensures Fillable(disk.version, disk.ssts, Job(level, n, more), maxLevel)
      ensures Filled(disk.version, disk.ssts, Job(level, n, more), maxLevel)
              == old(Filled(disk.version, disk.ssts, Job(level, n, outs), maxLevel)) + part
      ensures Wanted(disk.version, disk.ssts, Job(level, n, more), maxLevel)
              == old(Wanted(disk.version, disk.ssts, Job(level, n, outs), maxLevel))
    {
      hide IsRun, UpInv, Inv, Filled, Wanted, Fillable, Picks, Enabled, Do;
      CreateFile(level, n, outs);
      more := FinishFile(level, n, outs, part);
    }

    /** newFile of executeCompaction. */
    method CreateFile(level: nat, ghost n: nat, outs: seq<Meta>)
      requires Running() && Now().disk == disk && Now().proc.Up?
      requires Now().proc == Up(mem, Idle, Resting, if outs == [] && Now().proc.compactor.Picked? then Picked(level, n) else Writing(level, n, outs, None))
      requires Fillable(disk.version, disk.ssts, Job(level, n, outs), maxLevel)
      modifies `disk, `mem, `run, `steps
      ensures Running() && old(run) <= run && Hist() == old(Hist()) && steps == old(steps) + [CompactCreate]
      ensures mem == old(mem).(nextID := mem.nextID) && disk == old(disk).(ssts := disk.ssts)
      ensures Now().disk == disk && Now().proc == Up(mem, Idle, Resting, Writing(level, n, outs, Some(mem.nextID)))
      ensures Fillable(disk.version, disk.ssts, Job(level, n, outs), maxLevel)
      ensures Filled(disk.version, disk.ssts, Job(level, n, outs), maxLevel)
              == old(Filled(disk.version, disk.ssts, Job(level, n, outs), maxLevel))
      ensures Wanted(disk.version, disk.ssts, Job(level, n, outs), maxLevel)
              == old(Wanted(disk.version, disk.ssts, Job(level, n, outs), maxLevel))
    {
      hide IsRun, UpInv, Inv, Filled, Wanted, Fillable, Picks;
      var id := mem.nextID + 1;
      FreshNumber(id, Job(level, n, outs));
      Take(CompactCreate);
      disk, mem := disk.(ssts := disk.ssts[id := []]), mem.(nextID := id);
    }

    lemma FreshNumber(id: nat, job: Job)
      requires Running() && Now().proc.Up? && id == Now().proc.mem.nextID + 1
      requires Fillable(Now().disk.version, Now().disk.ssts, job, maxLevel)
      ensures var v, fs := Now().disk.version, Now().disk.ssts;
              && Fillable(v, fs[id := []], job, maxLevel)
              && Filled(v, fs[id := []], job, maxLevel) == Filled(v, fs, job, maxLevel)
              && Wanted(v, fs[id := []], job, maxLevel) == Wanted(v, fs, job, maxLevel)
    {
      hide Inputs, Merging, Compacted, Flatten;
      RunKeepsInv(run, steps, maxLevel, |steps|);
      UpBounded(Now(), maxLevel);
      SameSources(Now().disk.version, Now().disk.ssts, Now().disk.ssts[id := []], job, maxLevel);
    }

    /** The builder's last Add and Finish. */
    method FinishFile(level: nat, ghost n: nat, outs: seq<Meta>, part: seq<Entry>) returns (more: seq<Meta>)
      requires Running() && Now().disk == disk && Now().proc == Up(mem, Idle, Resting, Writing(level, n, outs, Some(mem.nextID)))
      requires part != [] && Fillable(disk.version, disk.ssts, Job(level, n, outs), maxLevel)
      requires Filled(disk.version, disk.ssts, Job(level, n, outs), maxLevel) + part
               <= Wanted(disk.version, disk.ssts, Job(level, n, outs), maxLevel)
      modifies `disk, `run, `steps
      ensures Running() && old(run) <= run && Hist() == old(Hist()) && steps == old(steps) + [CompactWrite(part)]
      ensures disk == old(disk).(ssts := disk.ssts) && more == outs + [MetaOf(mem.nextID, level + 1, part)]
      ensures Now().disk == disk && Now().proc == Up(mem, Idle, Resting, Writing(level, n, more, None))
      ensures Fillable(disk.version, disk.ssts, Job(level, n, more), maxLevel)
      ensures Filled(disk.version, disk.ssts, Job(level, n, more), maxLevel)
              == old(Filled(disk.version, disk.ssts, Job(level, n, outs), maxLevel)) + part
      ensures Wanted(disk.version, disk.ssts, Job(level, n, more), maxLevel)
              == old(Wanted(disk.version, disk.ssts, Job(level, n, outs), maxLevel))
    {
      hide IsRun, UpInv, Inv, Filled, Wanted, Fillable, Picks;
      FinishedFile(level, n, outs, part);
      Take(CompactWrite(part));
      disk := disk.(ssts := disk.ssts[mem.nextID := part]);
      more := outs + [MetaOf(mem.nextID, level + 1, part)];
    }

    lemma FinishedFile(level: nat, n: nat, outs: seq<Meta>, part: seq<Entry>)
      requires Running() && Now().proc.Up? && Now().proc.compactor == Writing(level, n, outs, Some(Now().proc.mem.nextID)) && part != []
      requires Fillable(Now().disk.version, Now().disk.ssts, Job(level, n, outs), maxLevel)
      requires Filled(Now().disk.version, Now().disk.ssts, Job(level, n, outs), maxLevel) + part
               <= Wanted(Now().disk.version, Now().disk.ssts, Job(level, n, outs), maxLevel)
      ensures var v, fs, id, job := Now().disk.version, Now().disk.ssts, Now().proc.mem.nextID, Job(level, n, outs);
              var gs, more := fs[id := part], Job(level, n, outs + [MetaOf(id, level + 1, part)]);
              && Fillable(v, gs, more, maxLevel) && Filled(v, gs, more, maxLevel) == Filled(v, fs, job, maxLevel) + part
              && Wanted(v, gs, more, maxLevel) == Wanted(v, fs, job, maxLevel)
    {
      hide Filled, Wanted, Fillable, VersionOk, FileLayered;
      RunKeepsInv(run, steps, maxLevel, |steps|);
      UpWriting(Now(), maxLevel);
      OneMoreOutput(Now().disk.version, Now().disk.ssts, Job(level, n, outs), Now().proc.mem.nextID, part, maxLevel);
    }

    /** The manifest records in order, outputs in and then inputs out, and last the input files. */
    method CommitOutputs(level: nat, ghost n: nat, inputs: seq<Meta>, outs: seq<Meta>)
      requires Running() && Now().disk == disk && Now().proc == Up(mem, Idle, Resting, Written(Job(level, n, outs)))
      requires Picks(disk.version, Job(level, n, []), maxLevel) && inputs == Merging(disk.version, Job(level, n, []), maxLevel)
      modifies `disk, `run, `steps
      ensures Valid() && old(run) <= run && Hist() == old(Hist()) && steps == old(steps) + [CompactCommit] + Sweeps(|inputs|)
    {
      hide IsRun, UpInv, Inv, Merging, UpdateAll, Adds, Deletes, Update;
      ghost var v, job := disk.version, Job(level, n, outs);
      CanCommit(job);
      ghost var a, d := Adds(outs), Deletes(inputs);
      EditLists(v, job, maxLevel);
      Take(CompactCommit);
      NoEdits(v);
      for i := 0 to |outs|
        modifies `disk
        invariant disk == old(disk).(version := disk.version) && disk.version.WellFormed() && disk.version == UpdateAll(v, a[..i])
      {
        NextEdit(v, a, i);
        disk := disk.(version := Update(disk.version, AddEdit(outs[i])));
      }
      assert a[..|outs|] == a && a + d[..0] == a;
      for i := 0 to |inputs|
        modifies `disk
        invariant disk == old(disk).(version := disk.version) && disk.version.WellFormed()
        invariant (forall e :: e in a + d[..i] ==> InRange(e)) && disk.version == UpdateAll(v, a + d[..i])
      {
        assert a + d[..i + 1] == a + d[..i] + [d[i]] && d[i] in d;
        LastEdit(v, a + d[..i], d[i]);
        disk := disk.(version := Update(disk.version, DeleteEdit(inputs[i])));
      }
      assert d[..|inputs|] == d;
      SomeInputs(v, level, n, maxLevel);
      RemoveInputs(inputs);
    }

    method RemoveInputs(inputs: seq<Meta>)
      requires Running() && Now().disk == disk && Now().proc == Up(mem, Idle, Resting, Sweeping(inputs)) && inputs != []
      modifies `disk, `run, `steps
      ensures Valid() && old(run) <= run && Hist() == old(Hist()) && steps == old(steps) + Sweeps(|inputs|)
      ensures disk == old(disk).(ssts := old(disk).ssts - IdsOf(inputs))
    {
      hide IsRun, Sweeps, Enabled, Do;
      assert inputs[0..] == inputs;
      assert Sweeps(0) == [] by { NoSweeps(); }
      for i := 0 to |inputs|
        modifies `disk, `run, `steps
        invariant Running() && old(run) <= run && Hist() == old(Hist()) && steps == old(steps) + Sweeps(i) && Now().disk == disk
        invariant Now().proc == Up(mem, Idle, Resting, if i == |inputs| then NoJob else Sweeping(inputs[i..]))
        invariant disk == old(disk).(ssts := old(disk).ssts - IdsOf(inputs[..i]))
      {
        assert IdsOf(inputs[..i + 1]) == IdsOf(inputs[..i]) + {inputs[i].id} by {
          assert inputs[..i + 1] == inputs[..i] + [inputs[i]];
        }
        assert inputs[i..][0] == inputs[i] && inputs[i..][1..] == inputs[i + 1..];
        OnCompactSweep(Now(), maxLevel);
        Take(CompactSweep);
        SweepNext(old(steps), i);
        disk := disk.(ssts := disk.ssts - {inputs[i].id});
      }
      assert inputs[..|inputs|] == inputs;
    }

    lemma CanCommit(job: Job)
      requires Running() && Now().proc.Up? && Now().proc.compactor == Written(job)
      ensures Applicable(Now().disk.version, job, maxLevel) && CanCompactCommit(Now(), maxLevel)
    {
      hide Merging, Inputs, Compacted, Committed, VersionOk, FileLayered, JobOk, Applicable;
      RunKeepsInv(run, steps, maxLevel, |steps|);
      UpFiles(Now(), maxLevel);
      CommitOutline(Now().disk.version, Now().disk.ssts, job, maxLevel);
    }

    lemma RunLevels()
      requires Valid()
      ensures disk.version.WellFormed() && forall i :: 1 <= i < MAX_LEVELS ==> RankOrdered(FirstKey, disk.version.levels[i])
    {
      hide UpInv, OnDisk, LevelOk, RankOrdered;
      RunKeepsInv(run, steps, maxLevel, |steps|);
      UpFacts(Now(), maxLevel);
    }
  }

  /** A run in which a read goes wrong: an empty value is put, and its memtable flushed. */
  method EmptyValueExample() returns (e: LSMEngine, a: Answer)
    ensures fresh(e) && e.Valid() && EmptyOnDisk(e.Now(), [1])
    ensures Expected(Plain(e.Hist()), [1]) == Found([]) && a == Missing
  {
    hide Plain;
    e := new LSMEngine(Disk(EMPTY_VERSION, map[], map[]), 2, 1024, 1024, [FRESH], []);
    e.Recover();
    var ok := e.Put([1], []);
    if e.mem.table != [] {
      e.RotateMemTable();
    }
    while e.mem.imms != []
      invariant fresh(e) && e.Valid() && e.mem.table == []
      invariant [1] in Plain(e.Hist()) && Plain(e.Hist())[[1]] == []
      decreases |e.mem.imms|
    {
      e.Flush();
    }
    NothingInMemory(e.mem, [1]);
    a := e.Get([1]);
  }

  lemma NothingInMemory(mem: Memory, k: Bytes)
    requires mem.table == [] && mem.imms == []
    ensures FirstHit(MemOrder(mem), k).None?
  {
    FirstHitNone(MemOrder(mem), k);
  }

  /** The steps that write these outputs; with nothing to write the first file is created all the same. */
  ghost function Writes(parts: seq<seq<Entry>>): seq<Step> {
    if parts == [] then [CompactCreate]
    else (if |parts| == 1 then [] else Writes(parts[..|parts| - 1])) + [CompactCreate, CompactWrite(parts[|parts| - 1])]
  }

  lemma NoWrites()
    ensures Writes([]) == [CompactCreate]
  {
  }

  ghost function Sweeps(n: nat): seq<Step> {
    seq(n, _ => CompactSweep)
  }

  lemma NoSweeps()
    ensures Sweeps(0) == []
  {
  }

  lemma SweepNext(steps: seq<Step>, i: nat)
    ensures steps + Sweeps(i) + [CompactSweep] == steps + Sweeps(i + 1)
  {
  }

  ghost function FlushedBy(steps: seq<Step>, table: seq<Entry>): seq<Step> {
    if table == [] then steps + [FlushCreate] + [FlushEmpty]
    else steps + [FlushCreate] + [FlushWrite] + [FlushList] + [FlushSeal] + [FlushDrop] + [FlushUnlink]
  }

  /** The steps of one compaction, its outputs rolled exactly when they were full. */
  ghost predicate CompactedBy(was: seq<Step>, now: seq<Step>, level: nat, full: seq<Entry> -> bool) {
    exists parts, n :: now == was + [CompactPick(level)] + Writes(parts) + [CompactClose] + [CompactCommit] + Sweeps(n)
      && (forall o :: o in parts ==> Filling(o, full)) && forall j :: 0 <= j < |parts| - 1 ==> full(parts[j])
  }

  // ---- Steps by name, so that a method looks only at its own ----

  lemma OnRotateCreate(s: System, maxLevel: nat)
    requires CanRotateCreate(s)
    ensures Enabled(s, RotateCreate, maxLevel) && Do(s, RotateCreate, maxLevel) == DoRotateCreate(s)
  {
  }

  lemma OnRotateNote(s: System, maxLevel: nat)
    requires CanRotateNote(s)
    ensures Enabled(s, RotateNote, maxLevel) && Do(s, RotateNote, maxLevel) == DoRotateNote(s)
  {
  }

  lemma OnRotateSwap(s: System, maxLevel: nat)
    requires CanRotateSwap(s)
    ensures Enabled(s, RotateSwap, maxLevel) && Do(s, RotateSwap, maxLevel) == DoRotateSwap(s)
  {
  }

  lemma OnFlushCreate(s: System, maxLevel: nat)
    requires CanFlushCreate(s)
    ensures Enabled(s, FlushCreate, maxLevel) && Do(s, FlushCreate, maxLevel) == DoFlushCreate(s)
  {
  }

  lemma OnFlushEmpty(s: System, maxLevel: nat)
    requires CanFlushEmpty(s)
    ensures Enabled(s, FlushEmpty, maxLevel) && Do(s, FlushEmpty, maxLevel) == DoFlushEmpty(s)
  {
  }

  lemma OnFlushWrite(s: System, maxLevel: nat)
    requires CanFlushWrite(s)
    ensures Enabled(s, FlushWrite, maxLevel) && Do(s, FlushWrite, maxLevel) == DoFlushWrite(s)
  {
  }

  lemma OnFlushList(s: System, maxLevel: nat)
    requires CanFlushList(s)
    ensures Enabled(s, FlushList, maxLevel) && Do(s, FlushList, maxLevel) == DoFlushList(s)
  {
  }

  lemma OnFlushSeal(s: System, maxLevel: nat)
    requires CanFlushSeal(s)
    ensures Enabled(s, FlushSeal, maxLevel) && Do(s, FlushSeal, maxLevel) == DoFlushSeal(s)
  {
  }

  lemma OnFlushDrop(s: System, maxLevel: nat)
    requires CanFlushDrop(s)
    ensures Enabled(s, FlushDrop, maxLevel) && Do(s, FlushDrop, maxLevel) == DoFlushDrop(s)
  {
  }

  lemma OnFlushUnlink(s: System, maxLevel: nat)
    requires CanFlushUnlink(s)
    ensures Enabled(s, FlushUnlink, maxLevel) && Do(s, FlushUnlink, maxLevel) == DoFlushUnlink(s)
  {
  }

  lemma OnCompactSweep(s: System, maxLevel: nat)
    requires CanCompactSweep(s)
    ensures Enabled(s, CompactSweep, maxLevel) && Do(s, CompactSweep, maxLevel) == DoCompactSweep(s)
  {
  }

  lemma OnOpenCreate(s: System, maxLevel: nat)
    requires CanOpenCreate(s)
    ensures Enabled(s, OpenCreate, maxLevel) && Do(s, OpenCreate, maxLevel) == DoOpenCreate(s)
  {
  }

  lemma OnOpenRewrite(s: System, maxLevel: nat)
    requires CanOpenRewrite(s)
    ensures Enabled(s, OpenRewrite, maxLevel) && Do(s, OpenRewrite, maxLevel) == DoOpenRewrite(s)
  {
  }

  lemma OnOpenSync(s: System, maxLevel: nat)
    requires CanOpenSync(s)
    ensures Enabled(s, OpenSync, maxLevel) && Do(s, OpenSync, maxLevel) == DoOpenSync(s)
  {
  }

  lemma OnOpenUnlink(s: System, maxLevel: nat)
    requires CanOpenUnlink(s)
    ensures Enabled(s, OpenUnlink, maxLevel) && Do(s, OpenUnlink, maxLevel) == DoOpenUnlink(s)
  {
  }

  lemma OnOpenReady(s: System, maxLevel: nat)
    requires CanOpenReady(s)
    ensures Enabled(s, OpenReady, maxLevel) && Do(s, OpenReady, maxLevel) == DoOpenReady(s)
  {
  }

  lemma OnOpenFlushCreate(s: System, maxLevel: nat)
    requires CanOpenFlushCreate(s)
    ensures Enabled(s, OpenFlushCreate, maxLevel) && Do(s, OpenFlushCreate, maxLevel) == DoOpenFlushCreate(s)
  {
  }

  lemma OnOpenFlushWrite(s: System, maxLevel: nat)
    requires CanOpenFlushWrite(s)
    ensures Enabled(s, OpenFlushWrite, maxLevel) && Do(s, OpenFlushWrite, maxLevel) == DoOpenFlushWrite(s)
  {
  }

  lemma OnOpenFlushList(s: System, maxLevel: nat)
    requires CanOpenFlushList(s)
    ensures Enabled(s, OpenFlushList, maxLevel) && Do(s, OpenFlushList, maxLevel) == DoOpenFlushList(s)
  {
  }

  lemma OnOpenNote(s: System, maxLevel: nat)
    requires CanOpenNote(s)
    ensures Enabled(s, OpenNote, maxLevel) && Do(s, OpenNote, maxLevel) == DoOpenNote(s)
  {
  }

  lemma OnOpenDone(s: System, maxLevel: nat)
    requires CanOpenDone(s)
    ensures Enabled(s, OpenDone, maxLevel) && Do(s, OpenDone, maxLevel) == DoOpenDone(s)
  {
  }

  /** How many operations come before the first whose value is too large. */
  ghost function Accepted(ops: seq<Op>, max: nat): (n: nat)
    ensures n <= |ops|
  {
    if ops == [] || (ops[0].Put? && |ops[0].value| > max) then 0 else 1 + Accepted(ops[1..], max)
  }

  lemma {:induction false} AcceptedIs(ops: seq<Op>, max: nat, n: nat)
    requires n <= |ops| && (forall j :: 0 <= j < n ==> !(ops[j].Put? && |ops[j].value| > max))
    requires n < |ops| ==> ops[n].Put? && |ops[n].value| > max
    ensures Accepted(ops, max) == n
  {
    if n > 0 { AcceptedIs(ops[1..], max, n - 1); }
  }

  /** What a batch adds to the size of the memtable. */
  ghost function Sizes(es: seq<Entry>): nat {
    if es == [] then 0 else Sizes(es[..|es| - 1]) + EntrySize(es[|es| - 1])
  }

  ghost function Rotated(steps: seq<Step>, full: bool): seq<Step> {
    if full then steps + [RotateCreate] + [RotateNote] + [RotateSwap] else steps
  }

  lemma UpFiles(s: System, maxLevel: nat)
    requires s.proc.Up? && UpInv(s, maxLevel)
    ensures VersionOk(s.disk.version, s.disk.ssts, maxLevel)
  {
    hide VersionOk, FileLayered;
  }

  lemma UpBounded(s: System, maxLevel: nat)
    requires s.proc.Up? && UpInv(s, maxLevel)
    ensures forall id :: id in s.disk.ssts ==> id <= s.proc.mem.nextID
  {
    hide DiskInv, MemTablesOk, WriterOk, FlusherOk, CompactorOk;
  }

  lemma UpWriting(s: System, maxLevel: nat)
    requires s.proc.Up? && UpInv(s, maxLevel) && s.proc.compactor.Writing?
    ensures var c := s.proc.compactor;
            && VersionOk(s.disk.version, s.disk.ssts, maxLevel) && PartOk(s.disk.version, s.disk.ssts, Job(c.level, c.n, c.outs), maxLevel)
            && CursorOk(s.disk.version, s.disk.ssts, c.outs, c.cur)
  {
    hide VersionOk, FileLayered, PartOk, CursorOk;
  }

  lemma NoOutputYet(v: Version, fs: Files, level: nat, n: nat, maxLevel: nat)
    requires Picks(v, Job(level, n, []), maxLevel) && OnDisk(Merging(v, Job(level, n, []), maxLevel), fs)
    ensures var job := Job(level, n, []);
            && Fillable(v, fs, job, maxLevel) && Filled(v, fs, job, maxLevel) == []
            && Wanted(v, fs, job, maxLevel) == Compacted(Contents(Merging(v, job, maxLevel), fs), level + 1 == maxLevel - 1)
  {
    hide Merging, Compacted;
    FlattenEmpty();
    assert Contents([], fs) == [];
  }

  lemma {:induction false} FlattenPrefix(parts: seq<seq<Entry>>, i: nat)
    requires i < |parts|
    ensures Flatten(parts[..i + 1]) == Flatten(parts[..i]) + parts[i] && Flatten(parts[..i + 1]) <= Flatten(parts)
    ensures forall st: seq<Step> :: st + Writes(parts[..i + 1])
                                    == (if i == 0 then st else st + Writes(parts[..i])) + [CompactCreate] + [CompactWrite(parts[i])]
  {
    hide Flatten;
    assert parts[..i + 1] == parts[..i] + [parts[i]] && parts[..i + 1][..i] == parts[..i];
    FlattenAppend(parts[..i], parts[i]);
    FlattenSplit(parts, i + 1);
    assert Writes(parts[..i + 1]) == (if i == 0 then [] else Writes(parts[..i])) + [CompactCreate, CompactWrite(parts[i])];
  }

  lemma {:induction false} FlattenSplit(parts: seq<seq<Entry>>, i: nat)
    requires i <= |parts|
    ensures Flatten(parts[..i]) <= Flatten(parts)
    decreases |parts| - i
  {
    if i == |parts| {
      assert parts[..i] == parts;
    } else {
      FlattenSplit(parts, i + 1);
      assert parts[..i + 1] == parts[..i] + [parts[i]];
      FlattenAppend(parts[..i], parts[i]);
    }
  }

  lemma CloseEnabled(s: System, level: nat, n: nat, outs: seq<Meta>, maxLevel: nat)
    requires s.proc.Up? && s.proc.compactor.Writing? && s.proc.compactor == Writing(level, n, outs, s.proc.compactor.cur)
    requires Fillable(s.disk.version, s.disk.ssts, Job(level, n, outs), maxLevel)
    requires Filled(s.disk.version, s.disk.ssts, Job(level, n, outs), maxLevel) == Wanted(s.disk.version, s.disk.ssts, Job(level, n, outs), maxLevel)
    ensures Enabled(s, CompactClose, maxLevel)
    ensures Do(s, CompactClose, maxLevel) == s.(proc := s.proc.(compactor := Written(Job(level, n, outs))))
  {
    hide Fillable, Filled, Wanted;
  }

  lemma SomeInputs(v: Version, level: nat, n: nat, maxLevel: nat)
    requires Picks(v, Job(level, n, []), maxLevel)
    ensures Merging(v, Job(level, n, []), maxLevel) != []
  {
    hide Overlapping;
    var m := v.levels[level][0];
    assert m in v.levels[level][..n];
    InputMember(v, level, n, m);
    MergingMember(v, Job(level, n, []), maxLevel, m);
  }

  lemma EditLists(v: Version, job: Job, maxLevel: nat)
    requires Applicable(v, job, maxLevel)
    ensures var ins := Merging(v, Job(job.level, job.n, []), maxLevel);
            && Merging(v, job, maxLevel) == ins && CommitEdits(v, job, maxLevel) == Adds(job.outs) + Deletes(ins)
            && |Adds(job.outs)| == |job.outs| && |Deletes(ins)| == |ins|
            && (forall i :: 0 <= i < |job.outs| ==> Adds(job.outs)[i] == AddEdit(job.outs[i]))
            && (forall i :: 0 <= i < |ins| ==> Deletes(ins)[i] == DeleteEdit(ins[i]))
            && forall e :: e in Adds(job.outs) || e in Deletes(ins) ==> InRange(e)
  {
    hide Inputs, SortMetas;
  }

  lemma NoEdits(v: Version)
    requires v.WellFormed()
    ensures UpdateAll(v, []) == v
  {
  }

  lemma NextEdit(v: Version, es: seq<Edit>, i: nat)
    requires v.WellFormed() && i < |es| && forall e :: e in es ==> InRange(e)
    ensures (forall e :: e in es[..i] ==> InRange(e)) && (forall e :: e in es[..i + 1] ==> InRange(e)) && InRange(es[i])
    ensures UpdateAll(v, es[..i]).WellFormed() && UpdateAll(v, es[..i + 1]) == Update(UpdateAll(v, es[..i]), es[i])
  {
    hide Update;
    assert es[i] in es && es[..i + 1][..i] == es[..i] && es[..i + 1][i] == es[i];
  }

  lemma LastEdit(v: Version, es: seq<Edit>, e: Edit)
    requires v.WellFormed() && (forall x :: x in es ==> InRange(x)) && InRange(e)
    ensures (forall x :: x in es + [e] ==> InRange(x)) && UpdateAll(v, es).WellFormed()
    ensures UpdateAll(v, es + [e]) == Update(UpdateAll(v, es), e)
  {
    hide Update;
    assert (es + [e])[..|es|] == es;
  }

  lemma NothingReplayed()
    ensures InsertAll([], []) == [] && MaxSeq([]) == 0 && Sizes([]) == 0
  {
  }

  lemma ReplayedNext(es: seq<Entry>, e: Entry)
    ensures InsertAll([], es + [e]) == Insert(InsertAll([], es), e)
    ensures MaxSeq(es + [e]) == Max(MaxSeq(es), e.seqno) && Sizes(es + [e]) == Sizes(es) + EntrySize(e)
  {
    hide Insert;
    assert (es + [e])[..|es|] == es;
  }

  /** listWALFiles: the log numbers in ascending order. */
  method SortedLogs(ids: set<nat>) returns (logs: seq<nat>)
    ensures AscendingLogs(logs) && forall w :: w in logs <==> w in ids
  {
    logs := [];
    var todo := ids;
    while todo != {}
      invariant todo <= ids && AscendingLogs(logs) && (forall w :: w in logs <==> w in ids && w !in todo)
      invariant forall a, b :: a in logs && b in todo ==> a < b
      decreases todo
    {
      var m := Smallest(todo);
      assert forall i :: 0 <= i < |logs| ==> logs[i] in logs;
      logs := logs + [m];
      todo := todo - {m};
    }
  }

  method Smallest(s: set<nat>) returns (m: nat)
    requires s != {}
    ensures m in s && forall x :: x in s ==> m <= x
  {
    m :| m in s;
    var todo := s - {m};
    while todo != {}
      invariant m in s && todo <= s && forall x :: x in s && x !in todo ==> m <= x
      decreases todo
    {
      var x :| x in todo;
      todo := todo - {x};
      if x < m { m := x; }
    }
  }

  method Largest(s: set<nat>) returns (m: nat)
    requires s != {}
    ensures m == MaxIn(s)
  {
    m :| m in s;
    var todo := s - {m};
    while todo != {}
      invariant m in s && todo <= s && forall x :: x in s && x !in todo ==> x <= m
      decreases todo
    {
      var x :| x in todo;
      todo := todo - {x};
      if x > m { m := x; }
    }
  }

  /** The number above every file on disk and every id the manifest records. */
  method ActiveNumber(d: Disk) returns (active: nat)
    ensures active == ActiveLog(d) && active >= 1 && active >= d.version.nextFileID
    ensures forall id :: id in d.ssts || id in d.wals ==> id < active
  {
    active := d.version.nextFileID;
    if d.ssts.Keys != {} {
      var top := Largest(d.ssts.Keys);
      if top >= active { active := top + 1; }
    }
    if d.wals.Keys != {} {
      var top := Largest(d.wals.Keys);
      if top >= active { active := top + 1; }
    }
    if active == 0 { active := 1; }
  }

  /** Version.HasFile */
  method HasFile(v: Version, id: nat) returns (found: bool)
    requires v.WellFormed()
    ensures found <==> Referenced(v, id)
  {
    for i := 0 to MAX_LEVELS
      invariant forall h, m :: 0 <= h < i && m in v.levels[h] ==> m.id != id
    {
      for j := 0 to |v.levels[i]|
        invariant forall h :: 0 <= h < j ==> v.levels[i][h].id != id
      {
        if v.levels[i][j].id == id {
          assert v.levels[i][j] in v.levels[i];
          return true;
        }
      }
    }
    return false;
  }

  lemma SameLogNumber(v: Version, log: nat)
    requires v.WellFormed()
    ensures v.logNumber == log ==> Update(v, LogEdit(log)) == v
  {
  }

  lemma OneOp(m: Store, op: Op)
    ensures ApplyBatch(m, [op]) == ApplyOp(m, op)
  {
    assert [op][..0] == [];
  }

  lemma NoStamp(seqNo: nat)
    ensures Stamp([], seqNo) == [] && Numbers([]) == []
  {
  }

  lemma NoBatch(m: Store)
    ensures ApplyBatch(m, []) == m
  {
  }
}
