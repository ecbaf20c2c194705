// The storage engine as a state machine: its disk, its memory, and every step between crash points.
module Engine {
  import opened Keys
  import opened Manifest
  import opened Levels
  import opened Compaction
  import opened Commit
  import opened Table

  /**
   * What survives a crash. A log holds the entries of its whole records, in order; a table file holds
   * nothing until its builder has finished it.
   */
  datatype Disk = Disk(version: Version, ssts: Files, wals: map<nat, seq<Entry>>)

  /** An immutable memtable and the log that protects it until it is flushed. */
  datatype Imm = Imm(table: seq<Entry>, wal: nat)

  datatype Memory = Memory(table: seq<Entry>, imms: seq<Imm>, wal: nat, seqNo: nat, nextID: nat)

  /** A write holds the engine lock from its first number to the memtable; so does a rotation. */
  datatype Writer = Idle | Numbered(batch: seq<Entry>) | Logged(batch: seq<Entry>) | Created(wal: nat) | Noted(wal: nat)

  /** The one flush worker, between the disk operations of flush. */
  datatype Flusher = Resting | Building(id: nat) | Wrote(id: nat) | Listed | Sealed | Dropped(wal: nat)

  /**
   * The one compaction worker: it picks from a snapshot, writes its outputs file by file, commits,
   * and removes its inputs file by file. The file it is building is cur.
   */
  datatype Compactor =
    | NoJob
    | Picked(level: nat, n: nat)
    | Writing(level: nat, n: nat, outs: seq<Meta>, cur: Option<nat>)
    | Written(job: Job)
    | Sweeping(todo: seq<Meta>)

  /** Where recover stands. */
  datatype Stage = Cleaning | Rewriting(done: nat) | Unlinking | Ready | Building(id: nat) | Flushing(id: nat) | Recorded

  datatype Process =
    | Down
    | Up(mem: Memory, writer: Writer, flusher: Flusher, compactor: Compactor)
    | Opening(mem: Memory, logs: seq<nat>, stage: Stage)

  /**
   * The engine together with what it is measured against: hist is every entry whose log record is
   * durable, in order, and acked counts those that are in a memtable, after which a write returns,
   * at most with a rotation still to wait for. Logs on disk hold what hist has above cut; memtables
   * hold what it has above base.
   */
  datatype System = System(disk: Disk, proc: Process, hist: seq<Entry>, acked: nat, cut: nat, base: nat)

  datatype Step =
    | Number(op: Op) | Refuse | Append | Apply
    | RotateCreate | RotateNote | RotateSwap
    | FlushCreate | FlushEmpty | FlushWrite | FlushList | FlushSeal | FlushDrop | FlushUnlink
    | CompactPick(level: nat) | CompactCreate | CompactWrite(part: seq<Entry>) | CompactClose | CompactCommit | CompactSweep
    | Crash
    | OpenLoad(logs: seq<nat>) | OpenClean(id: nat) | OpenCreate | OpenRewrite | OpenSync | OpenUnlink
    | OpenReady | OpenFlushCreate | OpenFlushWrite | OpenFlushList | OpenNote | OpenDone

  function StampOp(op: Op, seqno: nat): Entry {
    match op
    case Put(k, v) => Entry(k, seqno, Value, v)
    case Del(k) => Entry(k, seqno, Deletion, [])
  }

  /** A batch takes consecutive sequence numbers. */
  function Stamp(ops: seq<Op>, seqNo: nat): seq<Entry> {
    seq(|ops|, i requires 0 <= i < |ops| => StampOp(ops[i], seqNo + 1 + i))
  }

  function MaxSeq(es: seq<Entry>): nat {
    if es == [] then 0 else Max(MaxSeq(es[..|es| - 1]), es[|es| - 1].seqno)
  }

  function MetaOf(id: nat, level: nat, es: seq<Entry>): Meta
    requires es != []
  {
    Meta(id, level, es[0].key, es[|es| - 1].key, 0)
  }

  function LogEdit(log: nat): Edit {
    Edit(LOG_NUMBER, 0, 0, 0, [], [], log, 0, 0, false)
  }

  function SeqEdit(seqNo: nat): Edit {
    Edit(MAX_SEQ_NO, 0, 0, 0, [], [], 0, 0, seqNo, false)
  }

  function AddL0(m: Meta): Edit {
    Edit(ADD_SSTABLE, 0, m.id, m.size, m.first, m.last, 0, 0, 0, false)
  }

  ghost function MaxIn(s: set<nat>): (r: nat)
    ensures (forall x :: x in s ==> x <= r) && (s != {} ==> r in s)
  {
    if s == {} then 0
    else
      var x :| x in s;
      var rest := s - {x};
      assert forall z :: z in s ==> z == x || z in rest;
      Max(x, MaxIn(rest))
  }

  /** The number of the log a recovery starts: above every file on disk and every id recorded. */
  ghost function ActiveLog(d: Disk): nat {
    var n := d.version.nextFileID;
    var n1 := if d.ssts.Keys != {} && MaxIn(d.ssts.Keys) >= n then MaxIn(d.ssts.Keys) + 1 else n;
    var n2 := if d.wals.Keys != {} && MaxIn(d.wals.Keys) >= n1 then MaxIn(d.wals.Keys) + 1 else n1;
    if n2 == 0 then 1 else n2
  }

  function Replayed(logs: seq<nat>, wals: map<nat, seq<Entry>>): seq<Entry>
    requires forall w :: w in logs ==> w in wals
  {
    if logs == [] then [] else Replayed(logs[..|logs| - 1], wals) + wals[logs[|logs| - 1]]
  }

  ghost function IdsOf(l: seq<Meta>): set<nat> {
    set m | m in l :: m.id
  }

  ghost predicate Referenced(v: Version, id: nat)
    requires v.WellFormed()
  {
    exists i, m :: 0 <= i < MAX_LEVELS && m in v.levels[i] && m.id == id
  }

  ghost predicate AscendingLogs(l: seq<nat>) {
    forall i, j :: 0 <= i < j < |l| ==> l[i] < l[j]
  }

  /** The files a compaction is working on or about to remove, apart from its inputs. */
  ghost function Owned(c: Compactor): set<nat> {
    match c
    case NoJob => {}
    case Picked(_, _) => {}
    case Writing(_, _, outs, cur) => IdsOf(outs) + if cur.Some? then {cur.value} else {}
    case Written(job) => IdsOf(job.outs)
    case Sweeping(todo) => IdsOf(todo)
  }

  /** What the outputs hold so far, and all they are to hold. */
  ghost predicate Fillable(v: Version, fs: Files, job: Job, maxLevel: nat) {
    Picks(v, job, maxLevel) && OnDisk(Merging(v, job, maxLevel), fs) && OnDisk(job.outs, fs)
  }

  ghost function Filled(v: Version, fs: Files, job: Job, maxLevel: nat): seq<Entry>
    requires Fillable(v, fs, job, maxLevel)
  {
    Flatten(Contents(job.outs, fs))
  }

  ghost function Wanted(v: Version, fs: Files, job: Job, maxLevel: nat): seq<Entry>
    requires Fillable(v, fs, job, maxLevel)
  {
    Compacted(Contents(Merging(v, job, maxLevel), fs), Bottom(job, maxLevel))
  }

  // ---- Writes ----

  ghost predicate CanNumber(s: System, op: Op) {
    s.proc.Up? && (s.proc.writer.Idle? || s.proc.writer.Numbered?) && op.key != []
  }

  ghost function DoNumber(s: System, op: Op): System
    requires CanNumber(s, op)
  {
    var p := s.proc;
    var batch := if p.writer.Idle? then [] else p.writer.batch;
    s.(proc := p.(mem := p.mem.(seqNo := p.mem.seqNo + 1), writer := Numbered(batch + [StampOp(op, p.mem.seqNo + 1)])))
  }

  ghost predicate CanRefuse(s: System) {
    s.proc.Up? && s.proc.writer.Numbered?
  }

  ghost function DoRefuse(s: System): System
    requires CanRefuse(s)
  {
    var p := s.proc;
    s.(proc := p.(writer := Idle))
  }

  ghost predicate CanAppend(s: System) {
    s.proc.Up? && s.proc.writer.Numbered? && s.proc.mem.wal in s.disk.wals
  }

  ghost function DoAppend(s: System): System
    requires CanAppend(s)
  {
    var d, p := s.disk, s.proc;
    s.(disk := d.(wals := d.wals[p.mem.wal := d.wals[p.mem.wal] + p.writer.batch]),
       proc := p.(writer := Logged(p.writer.batch)), hist := s.hist + p.writer.batch)
  }

  ghost predicate CanApply(s: System) {
    && s.proc.Up? && s.proc.writer.Logged?
  }

  ghost function DoApply(s: System): System
    requires CanApply(s)
  {
    var p := s.proc;
    s.(proc := p.(mem := p.mem.(table := InsertAll(p.mem.table, p.writer.batch)), writer := Idle),
       acked := |s.hist|)
  }

  // ---- Rotation ----

  /** A writer that waited for a flush may find that another has rotated, and rotate an unused table. */
  ghost predicate CanRotateCreate(s: System) {
    && s.proc.Up? && s.proc.writer.Idle? && s.proc.mem.wal in s.disk.wals
    && (s.proc.mem.table != [] || s.disk.wals[s.proc.mem.wal] == [])
  }

  ghost function DoRotateCreate(s: System): System
    requires CanRotateCreate(s)
  {
    var d, p := s.disk, s.proc;
    var id := p.mem.nextID + 1;
    s.(disk := d.(wals := d.wals[id := []]), proc := p.(mem := p.mem.(nextID := id), writer := Created(id)))
  }

  ghost predicate CanRotateNote(s: System) {
    && s.proc.Up? && s.proc.writer.Created? && s.disk.version.WellFormed()
  }

  ghost function DoRotateNote(s: System): System
    requires CanRotateNote(s)
  {
    var d, p := s.disk, s.proc;
    s.(disk := d.(version := Update(d.version, LogEdit(p.writer.wal))), proc := p.(writer := Noted(p.writer.wal)))
  }

  ghost predicate CanRotateSwap(s: System) {
    && s.proc.Up? && s.proc.writer.Noted?
  }

  ghost function DoRotateSwap(s: System): System
    requires CanRotateSwap(s)
  {
    var p := s.proc;
    s.(proc := p.(mem := p.mem.(table := [], imms := p.mem.imms + [Imm(p.mem.table, p.mem.wal)], wal := p.writer.wal),
                  writer := Idle))
  }

  // ---- Flush ----

  ghost predicate CanFlushCreate(s: System) {
    s.proc.Up? && s.proc.flusher.Resting? && s.proc.mem.imms != []
  }

  ghost function DoFlushCreate(s: System): System
    requires CanFlushCreate(s)
  {
    var d, p := s.disk, s.proc;
    var id := p.mem.nextID + 1;
    s.(disk := d.(ssts := d.ssts[id := []]),
       proc := p.(mem := p.mem.(nextID := id), flusher := Flusher.Building(id)))
  }

  ghost predicate CanFlushEmpty(s: System) {
    && s.proc.Up? && s.proc.flusher.Building? && s.proc.mem.imms != []
    && s.proc.mem.imms[0].table == []
  }

  /** The file goes again, and so does the memtable; its log stays until the next recovery. */
  ghost function DoFlushEmpty(s: System): System
    requires CanFlushEmpty(s)
  {
    var d, p := s.disk, s.proc;
    s.(disk := d.(ssts := d.ssts - {p.flusher.id}),
       proc := p.(mem := p.mem.(imms := p.mem.imms[1..]), flusher := Resting))
  }

  ghost predicate CanFlushWrite(s: System) {
    && s.proc.Up? && s.proc.flusher.Building? && s.proc.mem.imms != []
    && s.proc.mem.imms[0].table != []
  }

  ghost function DoFlushWrite(s: System): System
    requires CanFlushWrite(s)
  {
    var d, p := s.disk, s.proc;
    s.(disk := d.(ssts := d.ssts[p.flusher.id := p.mem.imms[0].table]), proc := p.(flusher := Wrote(p.flusher.id)))
  }

  ghost predicate CanFlushList(s: System) {
    && s.proc.Up? && s.proc.flusher.Wrote? && s.disk.version.WellFormed()
    && s.proc.mem.imms != [] && s.proc.mem.imms[0].table != []
  }

  ghost function DoFlushList(s: System): System
    requires CanFlushList(s)
  {
    var d, p := s.disk, s.proc;
    s.(disk := d.(version := Update(d.version, AddL0(MetaOf(p.flusher.id, 0, p.mem.imms[0].table)))),
       proc := p.(flusher := Listed))
  }

  ghost predicate CanFlushSeal(s: System) {
    && s.proc.Up? && s.proc.flusher.Listed? && s.disk.version.WellFormed()
  }

  ghost function DoFlushSeal(s: System): System
    requires CanFlushSeal(s)
  {
    var d, p := s.disk, s.proc;
    s.(disk := d.(version := Update(d.version, SeqEdit(p.mem.seqNo))), proc := p.(flusher := Sealed))
  }

  ghost predicate CanFlushDrop(s: System) {
    && s.proc.Up? && s.proc.flusher.Sealed? && s.proc.mem.imms != []
    && s.proc.mem.imms[0].wal in s.disk.wals
  }

  ghost function DoFlushDrop(s: System): System
    requires CanFlushDrop(s)
  {
    var d, p := s.disk, s.proc;
    var imm := p.mem.imms[0];
    s.(proc := p.(mem := p.mem.(imms := p.mem.imms[1..]), flusher := Dropped(imm.wal)),
       base := Max(s.base, MaxSeq(d.wals[imm.wal])))
  }

  ghost predicate CanFlushUnlink(s: System) {
    && s.proc.Up? && s.proc.flusher.Dropped?
  }

  ghost function DoFlushUnlink(s: System): System
    requires CanFlushUnlink(s)
  {
    var d, p := s.disk, s.proc;
    s.(disk := d.(wals := d.wals - {p.flusher.wal}), proc := p.(flusher := Resting), cut := s.base)
  }

  // ---- Compaction ----

  ghost predicate CanCompactPick(s: System, level: nat, maxLevel: nat) {
    && s.proc.Up? && s.proc.compactor.NoJob? && s.disk.version.WellFormed()
    && level + 1 < maxLevel <= MAX_LEVELS && s.disk.version.levels[level] != []
  }

  ghost function DoCompactPick(s: System, level: nat, maxLevel: nat): System
    requires CanCompactPick(s, level, maxLevel)
  {
    var d, p := s.disk, s.proc;
    s.(proc := p.(compactor := Picked(level, if level == 0 then |d.version.levels[0]| else 1)))
  }

  ghost predicate CanCompactCreate(s: System) {
    s.proc.Up? && (s.proc.compactor.Picked? || s.proc.compactor.Writing?)
  }

  /** The next output file; one left unused stays behind as an orphan. */
  ghost function DoCompactCreate(s: System): System
    requires CanCompactCreate(s)
  {
    var d, p, c := s.disk, s.proc, s.proc.compactor;
    var id := p.mem.nextID + 1;
    s.(disk := d.(ssts := d.ssts[id := []]),
       proc := p.(mem := p.mem.(nextID := id),
                  compactor := Writing(c.level, c.n, if c.Picked? then [] else c.outs, Some(id))))
  }

  ghost predicate CanCompactWrite(s: System, part: seq<Entry>, maxLevel: nat) {
    && s.proc.Up? && s.proc.compactor.Writing? && s.proc.compactor.cur.Some? && part != []
    && var c := s.proc.compactor;
       var v, fs, job := s.disk.version, s.disk.ssts, Job(c.level, c.n, c.outs);
       Fillable(v, fs, job, maxLevel) && Filled(v, fs, job, maxLevel) + part <= Wanted(v, fs, job, maxLevel)
  }

  /** The file is finished with the next stretch of surviving entries, of any length. */
  ghost function DoCompactWrite(s: System, part: seq<Entry>, maxLevel: nat): System
    requires CanCompactWrite(s, part, maxLevel)
  {
    var d, p, c := s.disk, s.proc, s.proc.compactor;
    s.(disk := d.(ssts := d.ssts[c.cur.value := part]),
       proc := p.(compactor := Writing(c.level, c.n, c.outs + [MetaOf(c.cur.value, c.level + 1, part)], None)))
  }

  ghost predicate CanCompactClose(s: System, maxLevel: nat) {
    && s.proc.Up? && s.proc.compactor.Writing?
    && var c := s.proc.compactor;
       var v, fs, job := s.disk.version, s.disk.ssts, Job(c.level, c.n, c.outs);
       Fillable(v, fs, job, maxLevel) && Filled(v, fs, job, maxLevel) == Wanted(v, fs, job, maxLevel)
  }

  ghost function DoCompactClose(s: System, maxLevel: nat): System
    requires CanCompactClose(s, maxLevel)
  {
    var p, c := s.proc, s.proc.compactor;
    s.(proc := p.(compactor := Written(Job(c.level, c.n, c.outs))))
  }

  ghost predicate CanCompactCommit(s: System, maxLevel: nat) {
    && s.proc.Up? && s.proc.compactor.Written?
    && Applicable(s.disk.version, s.proc.compactor.job, maxLevel)
  }

  /** All manifest records of the commit. */
  ghost function DoCompactCommit(s: System, maxLevel: nat): System
    requires CanCompactCommit(s, maxLevel)
  {
    var d, p := s.disk, s.proc;
    s.(disk := d.(version := Committed(d.version, p.compactor.job, maxLevel)),
       proc := p.(compactor := Sweeping(Merging(d.version, p.compactor.job, maxLevel))))
  }

  ghost predicate CanCompactSweep(s: System) {
    s.proc.Up? && s.proc.compactor.Sweeping? && s.proc.compactor.todo != []
  }

  ghost function DoCompactSweep(s: System): System
    requires CanCompactSweep(s)
  {
    var d, p, todo := s.disk, s.proc, s.proc.compactor.todo;
    s.(disk := d.(ssts := d.ssts - {todo[0].id}),
       proc := p.(compactor := if |todo| == 1 then NoJob else Sweeping(todo[1..])))
  }

  // ---- Crash and recovery ----

  ghost predicate CanCrash(s: System) {
    !s.proc.Down?
  }

  ghost function DoCrash(s: System): System
    requires CanCrash(s)
  {
    s.(proc := Down)
  }

  ghost predicate CanOpenLoad(s: System, logs: seq<nat>) {
    && s.proc.Down? && AscendingLogs(logs) && s.disk.version.WellFormed()
    && (forall w :: w in logs <==> w in s.disk.wals)
    && (forall id :: Referenced(s.disk.version, id) ==> id in s.disk.ssts)
  }

  ghost function DoOpenLoad(s: System, logs: seq<nat>): System
    requires CanOpenLoad(s, logs)
  {
    var d := s.disk;
    var entries, active := Replayed(logs, d.wals), ActiveLog(d);
    s.(proc := Opening(Memory(InsertAll([], entries), [], active, Max(d.version.maxSeqNo, MaxSeq(entries)),
                              if logs == [] then active else active + 1), logs, Cleaning),
       base := s.cut)
  }

  ghost predicate CanOpenClean(s: System, id: nat) {
    && s.proc.Opening? && s.proc.stage.Cleaning? && s.disk.version.WellFormed()
    && id in s.disk.ssts && !Referenced(s.disk.version, id)
  }

  ghost function DoOpenClean(s: System, id: nat): System
    requires CanOpenClean(s, id)
  {
    var d := s.disk;
    s.(disk := d.(ssts := d.ssts - {id}))
  }

  ghost predicate CanOpenCreate(s: System) {
    && s.proc.Opening? && s.proc.stage.Cleaning? && s.proc.logs != []
  }

  ghost function DoOpenCreate(s: System): System
    requires CanOpenCreate(s)
  {
    var d, p := s.disk, s.proc;
    s.(disk := d.(wals := d.wals[p.mem.wal := []]), proc := p.(stage := Rewriting(0)))
  }

  ghost predicate CanOpenRewrite(s: System) {
    && s.proc.Opening? && s.proc.stage.Rewriting? && s.proc.stage.done < |s.proc.mem.table|
    && s.proc.mem.wal in s.disk.wals
  }

  ghost function DoOpenRewrite(s: System): System
    requires CanOpenRewrite(s)
  {
    var d, p := s.disk, s.proc;
    s.(disk := d.(wals := d.wals[p.mem.wal := d.wals[p.mem.wal] + [p.mem.table[p.stage.done]]]),
       proc := p.(stage := Rewriting(p.stage.done + 1)))
  }

  ghost predicate CanOpenSync(s: System) {
    && s.proc.Opening? && s.proc.stage.Rewriting? && s.proc.stage.done == |s.proc.mem.table|
  }

  ghost function DoOpenSync(s: System): System
    requires CanOpenSync(s)
  {
    var p := s.proc;
    s.(proc := p.(stage := Unlinking))
  }

  ghost predicate CanOpenUnlink(s: System) {
    && s.proc.Opening? && s.proc.stage.Unlinking? && s.proc.logs != []
  }

  ghost function DoOpenUnlink(s: System): System
    requires CanOpenUnlink(s)
  {
    var d, p := s.disk, s.proc;
    s.(disk := d.(wals := d.wals - {p.logs[0]}), proc := p.(logs := p.logs[1..]))
  }

  ghost predicate CanOpenReady(s: System) {
    && s.proc.Opening? && s.proc.logs == [] && (s.proc.stage.Unlinking? || s.proc.stage.Cleaning?)
  }

  ghost function DoOpenReady(s: System): System
    requires CanOpenReady(s)
  {
    var p := s.proc;
    s.(proc := p.(stage := Ready))
  }

  ghost predicate CanOpenFlushCreate(s: System) {
    && s.proc.Opening? && s.proc.stage.Ready? && s.proc.mem.table != []
  }

  ghost function DoOpenFlushCreate(s: System): System
    requires CanOpenFlushCreate(s)
  {
    var d, p := s.disk, s.proc;
    var id := p.mem.nextID + 1;
    s.(disk := d.(ssts := d.ssts[id := []]),
       proc := p.(mem := p.mem.(nextID := id), stage := Stage.Building(id)))
  }

  ghost predicate CanOpenFlushWrite(s: System) {
    s.proc.Opening? && s.proc.stage.Building?
  }

  ghost function DoOpenFlushWrite(s: System): System
    requires CanOpenFlushWrite(s)
  {
    var d, p := s.disk, s.proc;
    s.(disk := d.(ssts := d.ssts[p.stage.id := p.mem.table]), proc := p.(stage := Flushing(p.stage.id)))
  }

  ghost predicate CanOpenFlushList(s: System) {
    && s.proc.Opening? && s.proc.stage.Flushing? && s.disk.version.WellFormed()
    && s.proc.mem.table != []
  }

  ghost function DoOpenFlushList(s: System): System
    requires CanOpenFlushList(s)
  {
    var d, p := s.disk, s.proc;
    s.(disk := d.(version := Update(d.version, AddL0(MetaOf(p.stage.id, 0, p.mem.table)))),
       proc := p.(mem := p.mem.(table := []), stage := Ready), base := p.mem.seqNo)
  }

  ghost predicate CanOpenNote(s: System) {
    && s.proc.Opening? && s.proc.stage.Ready? && s.disk.version.WellFormed()
  }

  ghost function DoOpenNote(s: System): System
    requires CanOpenNote(s)
  {
    var d, p := s.disk, s.proc;
    s.(disk := d.(version := Update(d.version, LogEdit(p.mem.wal))), proc := p.(stage := Recorded))
  }

  ghost predicate CanOpenDone(s: System) {
    s.proc.Opening? && s.proc.stage.Recorded?
  }

  ghost function DoOpenDone(s: System): System
    requires CanOpenDone(s)
  {
    var d, p := s.disk, s.proc;
    s.(disk := d.(wals := if p.mem.wal in d.wals then d.wals else d.wals[p.mem.wal := []]),
       proc := Up(p.mem, Idle, Resting, NoJob), acked := |s.hist|)
  }

  ghost predicate Enabled(s: System, t: Step, maxLevel: nat) {
    match t
    case Number(op) => CanNumber(s, op)
    case Refuse => CanRefuse(s)
    case Append => CanAppend(s)
    case Apply => CanApply(s)
    case RotateCreate => CanRotateCreate(s)
    case RotateNote => CanRotateNote(s)
    case RotateSwap => CanRotateSwap(s)
    case FlushCreate => CanFlushCreate(s)
    case FlushEmpty => CanFlushEmpty(s)
    case FlushWrite => CanFlushWrite(s)
    case FlushList => CanFlushList(s)
    case FlushSeal => CanFlushSeal(s)
    case FlushDrop => CanFlushDrop(s)
    case FlushUnlink => CanFlushUnlink(s)
    case CompactPick(level) => CanCompactPick(s, level, maxLevel)
    case CompactCreate => CanCompactCreate(s)
    case CompactWrite(part) => CanCompactWrite(s, part, maxLevel)
    case CompactClose => CanCompactClose(s, maxLevel)
    case CompactCommit => CanCompactCommit(s, maxLevel)
    case CompactSweep => CanCompactSweep(s)
    case Crash => CanCrash(s)
    case OpenLoad(logs) => CanOpenLoad(s, logs)
    case OpenClean(id) => CanOpenClean(s, id)
    case OpenCreate => CanOpenCreate(s)
    case OpenRewrite => CanOpenRewrite(s)
    case OpenSync => CanOpenSync(s)
    case OpenUnlink => CanOpenUnlink(s)
    case OpenReady => CanOpenReady(s)
    case OpenFlushCreate => CanOpenFlushCreate(s)
    case OpenFlushWrite => CanOpenFlushWrite(s)
    case OpenFlushList => CanOpenFlushList(s)
    case OpenNote => CanOpenNote(s)
    case OpenDone => CanOpenDone(s)
  }

  /**
   * The effect of one step. The disk changes by at most one file operation or one manifest record,
   * except for the records of a compaction's commit, which are one step together.
   */
  ghost function Do(s: System, t: Step, maxLevel: nat): System
    requires Enabled(s, t, maxLevel)
  {
    match t
    case Number(op) => DoNumber(s, op)
    case Refuse => DoRefuse(s)
    case Append => DoAppend(s)
    case Apply => DoApply(s)
    case RotateCreate => DoRotateCreate(s)
    case RotateNote => DoRotateNote(s)
    case RotateSwap => DoRotateSwap(s)
    case FlushCreate => DoFlushCreate(s)
    case FlushEmpty => DoFlushEmpty(s)
    case FlushWrite => DoFlushWrite(s)
    case FlushList => DoFlushList(s)
    case FlushSeal => DoFlushSeal(s)
    case FlushDrop => DoFlushDrop(s)
    case FlushUnlink => DoFlushUnlink(s)
    case CompactPick(level) => DoCompactPick(s, level, maxLevel)
    case CompactCreate => DoCompactCreate(s)
    case CompactWrite(part) => DoCompactWrite(s, part, maxLevel)
    case CompactClose => DoCompactClose(s, maxLevel)
    case CompactCommit => DoCompactCommit(s, maxLevel)
    case CompactSweep => DoCompactSweep(s)
    case Crash => DoCrash(s)
    case OpenLoad(logs) => DoOpenLoad(s, logs)
    case OpenClean(id) => DoOpenClean(s, id)
    case OpenCreate => DoOpenCreate(s)
    case OpenRewrite => DoOpenRewrite(s)
    case OpenSync => DoOpenSync(s)
    case OpenUnlink => DoOpenUnlink(s)
    case OpenReady => DoOpenReady(s)
    case OpenFlushCreate => DoOpenFlushCreate(s)
    case OpenFlushWrite => DoOpenFlushWrite(s)
    case OpenFlushList => DoOpenFlushList(s)
    case OpenNote => DoOpenNote(s)
    case OpenDone => DoOpenDone(s)
  }
}
