// The engine's disk as bytes: what recovery and reads make of the files is what the runs say they hold.
module DiskBytes {
  import opened Keys
  import opened Merge
  import opened Manifest
  import opened Levels
  import opened Commit
  import opened Meaning
  import opened Table
  import opened Engine
  import opened EngineInv
  import opened EngineRead
  import opened EngineRun
  import opened Codec
  import opened Records
  import opened WalLog
  import opened Bloom
  import SSTable
  import TableFile
  import Wal

  // ---- Logs ----

  const ENTRY_SET: byte := 1
  const ENTRY_DELETE: byte := 2

  function LogOf(e: Entry): LogEntry {
    LogEntry(if e.kind.Value? then ENTRY_SET else ENTRY_DELETE, e.key, e.value, e.seqno)
  }

  function LogsOf(es: seq<Entry>): (xs: seq<LogEntry>)
    ensures |xs| == |es| && forall i :: 0 <= i < |es| ==> xs[i] == LogOf(es[i])
  {
    seq(|es|, i requires 0 <= i < |es| => LogOf(es[i]))
  }

  /** What recovery puts into the memtable for one log entry. */
  function Inserted(x: LogEntry): seq<Entry> {
    if x.kind == ENTRY_SET then [Entry(x.key, x.seqno, Value, x.value)]
    else if x.kind == ENTRY_DELETE then [Entry(x.key, x.seqno, Deletion, [])]
    else []
  }

  function InsertedAll(xs: seq<LogEntry>): seq<Entry> {
    if xs == [] then [] else InsertedAll(xs[..|xs| - 1]) + Inserted(xs[|xs| - 1])
  }

  /** Tombstones carry no value. */
  ghost predicate Bare(es: seq<Entry>) {
    forall e :: e in es && e.kind.Deletion? ==> e.value == []
  }

  lemma InsertedOne(e: Entry)
    requires e.kind.Deletion? ==> e.value == []
    ensures Inserted(LogOf(e)) == [e]
  {
  }

  lemma {:induction false} InsertedInverts(es: seq<Entry>)
    requires Bare(es)
    ensures InsertedAll(LogsOf(es)) == es
  {
    hide LogOf, Inserted;
    if es != [] {
      var n := |es| - 1;
      InsertedInverts(es[..n]);
      InsertedOne(es[n]);
      assert LogsOf(es)[..n] == LogsOf(es[..n]);
    }
  }

  function FileOf(crc: Wal.Checksum, log: seq<Record>): Bytes {
    Wal.EmitAll(crc, 0, Payloads(log))
  }

  /** The records of a log hold the entries es. */
  ghost predicate LogHolds(log: seq<Record>, es: seq<Entry>) {
    (forall r :: r in log ==> RecordFits(r)) && EntriesOfAll(log) == LogsOf(es)
  }

  /** Cut anywhere in its last record, a log reads back without that record; whole, with it. */
  lemma TornRecord(crc: Wal.Checksum, log: seq<Record>, r: Record, n: nat)
    requires Wal.Fits32(crc) && RecordFits(r) && forall x :: x in log ==> RecordFits(x)
    requires |FileOf(crc, log)| <= n <= |FileOf(crc, log + [r])|
    ensures FileOf(crc, log) <= FileOf(crc, log + [r])
    ensures Recovered(crc, FileOf(crc, log + [r])[..n])
         == if n < |FileOf(crc, log + [r])| then EntriesOfAll(log) else EntriesOfAll(log) + EntriesOf(r)
  {
    hide Wal.EmitAll, Wal.Emit, Wal.Whole, Recovered, Payload, RecordFits;
    var more := log + [r];
    var ds, k := Payloads(more), Wal.Whole(crc, 0, Payloads(more), n);
    assert ds == Payloads(log) + [Payload(r)];
    EmitAllAppend(crc, 0, Payloads(log), Payload(r));
    RecoverPrefix(crc, more, n);
    Wal.WholeIsGreatest(crc, 0, ds, n);
    assert ds[..|log|] == Payloads(log) && ds[..|ds|] == ds;
    if k < |log| {
      assert ds[..k + 1] == Payloads(log)[..k + 1];
      MoreIsLonger(crc, 0, Payloads(log), k + 1);
    }
    assert more[..|log|] == log && more[..|more|] == more;
  }

  // ---- Runs ----

  ghost predicate BareState(s: System) {
    Bare(s.hist) && (s.proc.Up? && s.proc.writer.Numbered? ==> Bare(s.proc.writer.batch))
  }

  lemma BareStep(s: System, step: Step, maxLevel: nat)
    requires Enabled(s, step, maxLevel) && BareState(s)
    ensures BareState(Do(s, step, maxLevel))
  {
    hide Bare, Update, Committed, InsertAll, Filled, Wanted;
    match step
    case Number(op) =>
      BareOne(op, s.proc.mem.seqNo + 1);
      BareConcat(if s.proc.writer.Idle? then [] else s.proc.writer.batch, [StampOp(op, s.proc.mem.seqNo + 1)]);
    case Append =>
      BareConcat(s.hist, s.proc.writer.batch);
    case _ =>
  }

  lemma BareOne(op: Op, seqno: nat)
    ensures Bare([StampOp(op, seqno)]) && Bare([])
  {
  }

  lemma BareConcat(a: seq<Entry>, b: seq<Entry>)
    requires Bare(a) && Bare(b)
    ensures Bare(a + b)
  {
  }

  lemma {:induction false} RunIsBare(run: seq<System>, steps: seq<Step>, maxLevel: nat, i: nat)
    requires IsRun(run, steps, maxLevel) && i < |run|
    ensures BareState(run[i])
  {
    hide Enabled, Do, BareState;
    if i == 0 {
      FreshIsBare();
    } else {
      RunIsBare(run, steps, maxLevel, i - 1);
      BareStep(run[i - 1], steps[i - 1], maxLevel);
    }
  }

  lemma FreshIsBare()
    ensures BareState(FRESH)
  {
  }

  lemma LogIsBare(s: System, maxLevel: nat, w: nat)
    requires Inv(s, maxLevel) && BareState(s) && w in s.disk.wals
    ensures Bare(s.disk.wals[w])
  {
    hide FilesOk, Represented, FilesDrawn, UpInv, StageOk, RecoveredTable;
    assert DiskInv(s, maxLevel) by { DiskIsSound(s, maxLevel); }
    forall e | e in s.disk.wals[w]
      ensures e in s.hist
    {
      assert OnLog(s.disk.wals, e);
    }
  }

  lemma DiskIsSound(s: System, maxLevel: nat)
    requires Inv(s, maxLevel)
    ensures DiskInv(s, maxLevel)
  {
    hide DiskInv;
  }

  /** At every point of every run, the bytes of the logs read back as the logs. */
  lemma RunLogsReadBack(run: seq<System>, steps: seq<Step>, maxLevel: nat, i: nat,
                        crc: Wal.Checksum, logs: map<nat, seq<Record>>)
    requires IsRun(run, steps, maxLevel) && 1 <= maxLevel <= MAX_LEVELS && i < |run| && Wal.Fits32(crc)
    requires logs.Keys == run[i].disk.wals.Keys && forall w :: w in logs ==> LogHolds(logs[w], run[i].disk.wals[w])
    ensures (map w | w in logs :: InsertedAll(Recovered(crc, FileOf(crc, logs[w])))) == run[i].disk.wals
  {
    hide IsRun, Inv, BareState, Recovered, FileOf;
    RunKeepsInv(run, steps, maxLevel, i);
    RunIsBare(run, steps, maxLevel, i);
    forall w | w in logs
      ensures InsertedAll(Recovered(crc, FileOf(crc, logs[w]))) == run[i].disk.wals[w]
    {
      LogIsBare(run[i], maxLevel, w);
      LogReadsBack(crc, logs[w], run[i].disk.wals[w]);
    }
  }

  lemma LogReadsBack(crc: Wal.Checksum, log: seq<Record>, es: seq<Entry>)
    requires Wal.Fits32(crc) && LogHolds(log, es) && Bare(es)
    ensures InsertedAll(Recovered(crc, FileOf(crc, log))) == es
  {
    hide Recovered, Wal.EmitAll;
    RecoverInverts(crc, log);
    InsertedInverts(es);
  }

  /**
   * A crash while a batch is being written to the active log, with any part of its bytes on disk:
   * recovery finds the log as it was before the batch, or, if every byte is there, after it.
   */
  lemma RunTornAppend(run: seq<System>, steps: seq<Step>, maxLevel: nat, i: nat,
                      crc: Wal.Checksum, log: seq<Record>, r: Record, n: nat)
    requires IsRun(run, steps, maxLevel) && 1 <= maxLevel <= MAX_LEVELS && i < |run| && CanAppend(run[i]) && Wal.Fits32(crc)
    requires LogHolds(log, run[i].disk.wals[run[i].proc.mem.wal])
    requires RecordFits(r) && EntriesOf(r) == LogsOf(run[i].proc.writer.batch)
    requires |FileOf(crc, log)| <= n <= |FileOf(crc, log + [r])|
    ensures FileOf(crc, log) <= FileOf(crc, log + [r])
    ensures LogHolds(log + [r], DoAppend(run[i]).disk.wals[run[i].proc.mem.wal])
    ensures var after := if n < |FileOf(crc, log + [r])| then run[i] else DoAppend(run[i]);
            InsertedAll(Recovered(crc, FileOf(crc, log + [r])[..n])) == after.disk.wals[run[i].proc.mem.wal]
  {
    hide IsRun, Inv, Bare, Recovered, FileOf, InsertedAll, LogHolds, EntriesOf, RecordFits;
    var s, w := run[i], run[i].proc.mem.wal;
    RunKeepsInv(run, steps, maxLevel, i);
    RunIsBare(run, steps, maxLevel, i);
    LogIsBare(s, maxLevel, w);
    TornLog(crc, log, s.disk.wals[w], r, s.proc.writer.batch, n);
  }

  lemma TornLog(crc: Wal.Checksum, log: seq<Record>, es: seq<Entry>, r: Record, b: seq<Entry>, n: nat)
    requires Wal.Fits32(crc) && LogHolds(log, es) && Bare(es) && RecordFits(r) && EntriesOf(r) == LogsOf(b) && Bare(b)
    requires |FileOf(crc, log)| <= n <= |FileOf(crc, log + [r])|
    ensures FileOf(crc, log) <= FileOf(crc, log + [r]) && LogHolds(log + [r], es + b)
    ensures InsertedAll(Recovered(crc, FileOf(crc, log + [r])[..n]))
         == if n < |FileOf(crc, log + [r])| then es else es + b
  {
    hide Bare, Recovered, FileOf, InsertedAll, EntriesOf, RecordFits;
    TornRecord(crc, log, r, n);
    assert LogsOf(es + b) == LogsOf(es) + LogsOf(b);
    assert (log + [r])[..|log|] == log;
    InsertedInverts(es);
    BareConcat(es, b);
    InsertedInverts(es + b);
  }

  // ---- Tables ----

  /** How tables are written: the filter's hash, the block size and the filter's bits for each key. */
  datatype Shape = Shape(hash: Bytes -> nat, blockSize: int, bitsPerKey: int)

  /** The file is the table of es, and no length in it overflows its field. */
  ghost predicate TableHolds(p: Shape, file: Bytes, es: seq<Entry>) {
    && BitCount(|es|, AtLeastOne(TableFile.BitsOf(p.bitsPerKey))) % U32 != 0
    && var blocks := TableFile.Blocked(es, TableFile.SizeOf(p.blockSize));
       var filter := TableFile.FilterOf(p.hash, TableFile.KeysOf(es), TableFile.BitsOf(p.bitsPerKey));
       SSTable.Sized(blocks, filter) && file == SSTable.TableBytes(blocks, filter)
  }

  /** Opening a file and asking it. */
  ghost function Asked(p: Shape, file: Bytes, k: Bytes, readSeq: nat): SSTable.Answer {
    match SSTable.Opened(file)
    case None => SSTable.Failed
    case Some(r) =>
      if r.filter.Some? && !Askable(r.filter.value) then SSTable.Failed
      else if r.filter.Some? && !LetsThrough(r.filter.value, p.hash(k)) then SSTable.NotFound
      else SSTable.Fetched(r, k, readSeq)
  }

  lemma AskedIsFind(p: Shape, file: Bytes, es: seq<Entry>, k: Bytes, readSeq: nat)
    requires TableHolds(p, file, es) && Sorted(es) && forall e :: e in es ==> e.seqno <= readSeq
    ensures Asked(p, file, k, readSeq) == SSTable.Expected(FindAt(es, k, readSeq))
  {
    hide Sorted, Find, LetsThrough, BitCount, SSTable.Sized, SSTable.Fetched, SSTable.Opened, SSTable.TableBytes,
         TableFile.Blocked, TableFile.FilterOf, TableFile.KeysOf, Askable;
    var blocks := TableFile.Blocked(es, TableFile.SizeOf(p.blockSize));
    var filter := TableFile.FilterOf(p.hash, TableFile.KeysOf(es), TableFile.BitsOf(p.bitsPerKey));
    TableFile.FilterOfAdmits(p.hash, es, TableFile.BitsOf(p.bitsPerKey));
    SSTable.OpensBuilt(blocks, filter);
    FindAtIsFind(es, k, readSeq);
    FindIndex(es, k);
    TableFile.GetIsFind(p.hash, blocks, filter, k, readSeq);
  }

  ghost predicate TablesHold(p: Shape, l: seq<Meta>, fs: Files, tables: map<nat, Bytes>) {
    forall m :: m in l && m.id in fs ==> m.id in tables && TableHolds(p, tables[m.id], fs[m.id])
  }

  ghost function AskedOf(p: Shape, m: Meta, tables: map<nat, Bytes>, k: Bytes, readSeq: nat): SSTable.Answer {
    if m.id in tables then Asked(p, tables[m.id], k, readSeq) else SSTable.Failed
  }

  /** The files of L0 in the order given, until one knows the key. */
  ghost function AskedL0(p: Shape, l: seq<Meta>, tables: map<nat, Bytes>, k: Bytes, readSeq: nat): SSTable.Answer {
    if l == [] then SSTable.NotFound
    else
      var a := AskedOf(p, l[0], tables, k, readSeq);
      if a.NotFound? then AskedL0(p, l[1..], tables, k, readSeq) else a
  }

  /** One file of each level from i on, until one knows the key. */
  ghost function AskedDeep(p: Shape, v: Version, tables: map<nat, Bytes>, i: nat, k: Bytes, readSeq: nat): SSTable.Answer
    requires v.WellFormed()
    decreases MAX_LEVELS - i
  {
    if i >= MAX_LEVELS then SSTable.NotFound
    else
      var a := match Candidate(v.levels[i], k) case None => SSTable.NotFound case Some(m) => AskedOf(p, m, tables, k, readSeq);
      if a.NotFound? then AskedDeep(p, v, tables, i + 1, k, readSeq) else a
  }

  /** LSMEngine.Get, reading the bytes of the table files. */
  ghost function ByteGet(p: Shape, mem: Memory, v: Version, tables: map<nat, Bytes>, k: Bytes): Answer
    requires v.WellFormed()
  {
    match FirstHit(MemOrder(mem), k)
    case Some(e) => FromMem(e)
    case None =>
      var a := AskedL0(p, SortMetas(NewestFirst, v.levels[0]), tables, k, mem.seqNo);
      match if a.NotFound? then AskedDeep(p, v, tables, 1, k, mem.seqNo) else a
      case Got(x) => if x == [] then Missing else Found(x)
      case _ => Missing
  }

  lemma AskedOfIs(p: Shape, v: Version, fs: Files, tables: map<nat, Bytes>, i: nat, m: Meta, k: Bytes, readSeq: nat)
    requires v.WellFormed() && i < MAX_LEVELS && m in v.levels[i] && TableOk(m, fs) && TablesHold(p, v.levels[i], fs, tables)
    requires Visible(v, fs, readSeq)
    ensures AskedOf(p, m, tables, k, readSeq) == SSTable.Expected(FindAt(fs[m.id], k, readSeq))
  {
    hide TableHolds, Asked, Held, Sorted;
    forall e | e in fs[m.id]
      ensures e.seqno <= readSeq
    {
      HeldBy(v, fs, i, m, e);
    }
    AskedIsFind(p, tables[m.id], fs[m.id], k, readSeq);
  }

  lemma {:induction false} AskedL0Is(p: Shape, v: Version, fs: Files, tables: map<nat, Bytes>, l: seq<Meta>, k: Bytes, readSeq: nat)
    requires v.WellFormed() && (forall m :: m in l ==> m in v.levels[0]) && OnDisk(l, fs)
    requires TablesOk(v.levels[0], fs) && TablesHold(p, v.levels[0], fs, tables) && Visible(v, fs, readSeq)
    ensures AskedL0(p, l, tables, k, readSeq) == SSTable.Expected(FirstHitAt(l, fs, k, readSeq))
  {
    hide AskedOf, FindAt, Visible, TablesHold, TableOk;
    if l != [] {
      assert l[0] in l && forall m :: m in l[1..] ==> m in l;
      AskedOfIs(p, v, fs, tables, 0, l[0], k, readSeq);
      AskedL0Is(p, v, fs, tables, l[1..], k, readSeq);
    }
  }

  lemma {:induction false} AskedDeepIs(p: Shape, v: Version, fs: Files, tables: map<nat, Bytes>, i: nat, k: Bytes, readSeq: nat)
    requires v.WellFormed() && AllOnDisk(v, fs) && Visible(v, fs, readSeq) && 1 <= i <= MAX_LEVELS
    requires forall h :: 0 <= h < MAX_LEVELS ==> TablesOk(v.levels[h], fs) && TablesHold(p, v.levels[h], fs, tables)
    ensures AskedDeep(p, v, tables, i, k, readSeq) == SSTable.Expected(DeepLookup(v, fs, i, k, readSeq))
    decreases MAX_LEVELS - i
  {
    hide AskedOf, FindAt, Visible, TablesHold, TableOk, Candidate, Covers;
    if i < MAX_LEVELS {
      AskedDeepIs(p, v, fs, tables, i + 1, k, readSeq);
      CandidateMember(v.levels[i], fs, k);
      if Candidate(v.levels[i], k).Some? {
        AskedOfIs(p, v, fs, tables, i, Candidate(v.levels[i], k).value, k, readSeq);
      }
    }
  }

  lemma ByteGetIs(p: Shape, mem: Memory, v: Version, fs: Files, tables: map<nat, Bytes>, k: Bytes)
    requires v.WellFormed() && AllOnDisk(v, fs) && Visible(v, fs, mem.seqNo)
    requires forall h :: 0 <= h < MAX_LEVELS ==> TablesOk(v.levels[h], fs) && TablesHold(p, v.levels[h], fs, tables)
    ensures ByteGet(p, mem, v, tables, k) == Get(mem, v, fs, k)
  {
    hide AskedL0, AskedDeep, FirstHitAt, DeepLookup, SortMetas, Visible, TablesHold, TablesOk, MemOrder, FirstHit;
    SortedOnDisk(v.levels[0], fs, NewestFirst);
    AskedL0Is(p, v, fs, tables, SortMetas(NewestFirst, v.levels[0]), k, mem.seqNo);
    AskedDeepIs(p, v, fs, tables, 1, k, mem.seqNo);
  }

  /**
   * In every run, whenever the engine is up with no write in flight, a read of the bytes of the
   * table files answers as the plain map of the durable writes, save for empty values in a file.
   */
  lemma RunReadsBytes(run: seq<System>, steps: seq<Step>, maxLevel: nat, i: nat, p: Shape, tables: map<nat, Bytes>, k: Bytes)
    requires IsRun(run, steps, maxLevel) && 1 <= maxLevel <= MAX_LEVELS && i < |run|
    requires run[i].proc.Up? && run[i].proc.writer.Idle? && run[i].disk.version.WellFormed()
    requires forall h :: 0 <= h < MAX_LEVELS ==> TablesHold(p, run[i].disk.version.levels[h], run[i].disk.ssts, tables)
    ensures ByteGet(p, run[i].proc.mem, run[i].disk.version, tables, k) == Expected(Plain(run[i].hist), k)
            <==> !EmptyOnDisk(run[i], k)
  {
    hide IsRun, Inv, ByteGet, Get, Plain, EmptyOnDisk, TablesHold, TablesOk, AllOnDisk, Visible;
    RunReadsPlainMap(run, steps, maxLevel, i, k);
    RunKeepsInv(run, steps, maxLevel, i);
    FilesAreSound(run[i], maxLevel);
    ByteGetIs(p, run[i].proc.mem, run[i].disk.version, run[i].disk.ssts, tables, k);
  }

  lemma FilesAreSound(s: System, maxLevel: nat)
    requires s.proc.Up? && Inv(s, maxLevel)
    ensures s.disk.version.WellFormed() && Visible(s.disk.version, s.disk.ssts, s.proc.mem.seqNo)
    ensures forall h :: 0 <= h < MAX_LEVELS ==> TablesOk(s.disk.version.levels[h], s.disk.ssts)
  {
    hide Held, MemTablesOk, WriterOk, FlusherOk, CompactorOk, LogsExact, Represented, FlushedRep, TablesOk, LevelOk, FileLayered;
  }
}
