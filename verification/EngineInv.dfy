// The invariant of the engine: what holds at every point where it can be interrupted.
module EngineInv {
  import opened Keys
  import opened Manifest
  import opened Levels
  import opened Commit
  import opened Meaning
  import opened Engine

  // ---- The disk ----

  ghost predicate HistOk(hist: seq<Entry>) {
    && (forall i, j :: 0 <= i < j < |hist| ==> hist[i].seqno < hist[j].seqno)
    && (forall e :: e in hist ==> e.seqno > 0 && e.key != [])
  }

  /** e is the last write of its key. */
  ghost predicate IsLast(hist: seq<Entry>, e: Entry) {
    e in hist && forall x :: x in hist && x.key == e.key ==> x.seqno <= e.seqno
  }

  /** The table files answer for e: they hold it as the newest version, or it is a spent tombstone. */
  ghost predicate FilesRep(v: Version, fs: Files, e: Entry)
    requires v.WellFormed()
  {
    NewestHeld(v, fs, e.key, e) || (e.kind.Deletion? && forall x :: Held(v, fs, x) ==> x.key != e.key)
  }

  ghost predicate OnLog(wals: map<nat, seq<Entry>>, e: Entry) {
    exists w :: w in wals && e in wals[w]
  }

  ghost predicate FilesOk(v: Version, fs: Files, maxLevel: nat) {
    VersionOk(v, fs, maxLevel) && FileLayered(v, fs)
  }

  ghost predicate FilesDrawn(v: Version, fs: Files, hist: seq<Entry>)
    requires v.WellFormed()
  {
    forall e :: Held(v, fs, e) ==> e in hist
  }

  /** The logs hold exactly the history above cut, and cut is recorded in the manifest. */
  ghost predicate LogsExact(s: System) {
    && (forall e :: OnLog(s.disk.wals, e) <==> e in s.hist && e.seqno > s.cut)
    && s.cut <= s.disk.version.maxSeqNo
  }

  ghost predicate Represented(s: System, upTo: nat)
    requires s.disk.version.WellFormed()
  {
    forall e :: IsLast(s.hist, e) && e.seqno <= upTo ==> FilesRep(s.disk.version, s.disk.ssts, e)
  }

  ghost predicate DiskInv(s: System, maxLevel: nat) {
    && s.disk.version.WellFormed()
    && HistOk(s.hist) && FilesOk(s.disk.version, s.disk.ssts, maxLevel)
    && FilesDrawn(s.disk.version, s.disk.ssts, s.hist)
    && LogsExact(s) && Represented(s, s.cut) && s.acked <= |s.hist|
  }

  // ---- The running engine ----

  ghost predicate InFlight(p: Process, e: Entry)
    requires p.Up?
  {
    p.writer.Logged? && e in p.writer.batch
  }

  predicate Flushed(f: Flusher) {
    f.Listed? || f.Sealed?
  }

  ghost predicate Bounded(s: System, mem: Memory) {
    && s.cut <= s.base <= mem.seqNo
    && (forall e :: e in s.hist ==> e.seqno <= mem.seqNo)
    && (forall id :: id in s.disk.ssts ==> id <= mem.nextID)
    && (forall w :: w in s.disk.wals ==> w <= mem.nextID)
  }

  ghost predicate WalsOrdered(wals: map<nat, seq<Entry>>) {
    forall a, b, x, y {:trigger x in wals[a], y in wals[b]} ::
      a in wals && b in wals && a < b && x in wals[a] && y in wals[b] ==> x.seqno < y.seqno
  }

  /** A log on disk belongs to a memtable, or is on its way in or out. */
  ghost predicate WalOwned(p: Process, w: nat)
    requires p.Up?
  {
    || w == p.mem.wal
    || (exists i :: 0 <= i < |p.mem.imms| && p.mem.imms[i].wal == w)
    || (p.flusher.Dropped? && w == p.flusher.wal)
    || ((p.writer.Created? || p.writer.Noted?) && w == p.writer.wal)
  }

  ghost predicate ImmOk(s: System, imm: Imm) {
    && imm.wal in s.disk.wals && Sorted(imm.table) && (imm.table == [] ==> s.disk.wals[imm.wal] == [])
    && forall e :: e in imm.table <==> e in s.disk.wals[imm.wal] && e.seqno > s.base
  }

  ghost predicate MemTablesOk(s: System)
    requires s.proc.Up?
  {
    var p, wals := s.proc, s.disk.wals;
    && p.mem.wal in wals && Sorted(p.mem.table)
    && (forall e :: e in p.mem.table <==> e in wals[p.mem.wal] && e.seqno > s.base && !InFlight(p, e))
    && (forall i :: 0 <= i < |p.mem.imms| ==> ImmOk(s, p.mem.imms[i]) && p.mem.imms[i].wal < p.mem.wal)
    && (forall i, j :: 0 <= i < j < |p.mem.imms| ==> p.mem.imms[i].wal < p.mem.imms[j].wal)
    && WalsOrdered(wals)
    && (forall w :: w in wals && wals[w] != [] ==> WalOwned(p, w))
  }

  ghost predicate WriterOk(s: System)
    requires s.proc.Up?
  {
    var p, wals := s.proc, s.disk.wals;
    match p.writer
    case Idle => s.acked == |s.hist|
    case Numbered(b) => s.acked == |s.hist| && NumberedOk(s.hist, s.base, p.mem.seqNo, b)
    case Logged(b) =>
      && b != [] && s.acked + |b| == |s.hist| && s.hist[s.acked..] == b
      && p.mem.wal in wals && forall e :: e in b ==> e in wals[p.mem.wal] && e.seqno > s.base
    case Created(w) => s.acked == |s.hist| && RotationOk(s, w)
    case Noted(w) => s.acked == |s.hist| && RotationOk(s, w)
  }

  /** Numbers taken but not yet logged: above all there is, in order. */
  ghost predicate NumberedOk(hist: seq<Entry>, base: nat, seqNo: nat, b: seq<Entry>) {
    && b != [] && (forall e :: e in b ==> base < e.seqno <= seqNo && e.key != [])
    && (forall x, e :: x in hist && e in b ==> x.seqno < e.seqno)
    && forall i, j :: 0 <= i < j < |b| ==> b[i].seqno < b[j].seqno
  }

  ghost predicate RotationOk(s: System, w: nat)
    requires s.proc.Up?
  {
    var mem, wals := s.proc.mem, s.disk.wals;
    && w in wals && wals[w] == [] && w > mem.wal
    && mem.wal in wals && (mem.table == [] ==> wals[mem.wal] == [])
  }

  /** The file a flush is building: nothing refers to it, and the next file of L0 may have its number. */
  ghost predicate ForL0(s: System, id: nat)
    requires s.proc.Up? && s.disk.version.WellFormed()
  {
    && id in s.disk.ssts && !Referenced(s.disk.version, id) && id !in Owned(s.proc.compactor)
    && forall m :: m in s.disk.version.levels[0] ==> m.id < id
  }

  ghost predicate FlusherOk(s: System)
    requires s.proc.Up? && s.disk.version.WellFormed()
  {
    var p, d := s.proc, s.disk;
    match p.flusher
    case Resting => true
    case Building(id) => p.mem.imms != [] && ForL0(s, id)
    case Wrote(id) => p.mem.imms != [] && p.mem.imms[0].table != [] && ForL0(s, id) && d.ssts[id] == p.mem.imms[0].table
    case Listed => p.mem.imms != [] && p.mem.imms[0].table != []
    case Sealed =>
      && p.mem.imms != [] && p.mem.imms[0].table != [] && s.base <= d.version.maxSeqNo && p.mem.imms[0].wal in d.wals
      && forall e :: e in d.wals[p.mem.imms[0].wal] ==> e.seqno <= d.version.maxSeqNo
    case Dropped(w) =>
      && w in d.wals && s.base <= d.version.maxSeqNo && w < p.mem.wal
      && (forall i :: 0 <= i < |p.mem.imms| ==> w < p.mem.imms[i].wal)
      && (forall e :: e in d.wals[w] ==> e.seqno <= s.base)
      && forall x, e :: x in d.wals && x != w && e in d.wals[x] ==> e.seqno > s.base
  }

  ghost predicate CompactorOk(c: Compactor, v: Version, fs: Files, maxLevel: nat) {
    match c
    case NoJob => true
    case Picked(level, n) => Picks(v, Job(level, n, []), maxLevel)
    case Writing(level, n, outs, cur) => PartOk(v, fs, Job(level, n, outs), maxLevel) && CursorOk(v, fs, outs, cur)
    case Written(job) => JobOk(v, fs, job, maxLevel)
    case Sweeping(todo) => v.WellFormed() && forall m :: m in todo ==> !Referenced(v, m.id)
  }

  /** A job some of whose outputs are written. */
  ghost predicate PartOk(v: Version, fs: Files, job: Job, maxLevel: nat) {
    && Fillable(v, fs, job, maxLevel) && OnDisk(Inputs(v, job.level, job.n), fs) && TablesOk(job.outs, fs)
    && Filled(v, fs, job, maxLevel) <= Wanted(v, fs, job, maxLevel)
    && (forall m :: m in job.outs ==> m.level == job.level + 1)
    && DistinctIds(job.outs)
    && (forall i, a, b :: 0 <= i < MAX_LEVELS && a in v.levels[i] && b in job.outs ==> a.id != b.id)
  }

  ghost predicate CursorOk(v: Version, fs: Files, outs: seq<Meta>, cur: Option<nat>) {
    v.WellFormed() && (cur.Some? ==> cur.value in fs && !Referenced(v, cur.value) && cur.value !in IdsOf(outs))
  }

  ghost predicate OwnedBelow(s: System)
    requires s.proc.Up?
  {
    forall id :: id in Owned(s.proc.compactor) ==> id <= s.proc.mem.nextID
  }

  function Oldest(mem: Memory): seq<Entry> {
    if mem.imms == [] then mem.table else mem.imms[0].table
  }

  /** What the files share with the memtables above base is in the oldest memtable. */
  ghost predicate SharedIsOldest(s: System, mem: Memory)
    requires s.disk.version.WellFormed()
  {
    forall e :: Held(s.disk.version, s.disk.ssts, e) && e.seqno > s.base ==> e in Oldest(mem)
  }

  /** A flushed memtable is answered for by the files before it leaves memory. */
  ghost predicate FlushedRep(s: System)
    requires s.proc.Up? && s.disk.version.WellFormed()
  {
    Flushed(s.proc.flusher) && s.proc.mem.imms != [] ==>
      forall e :: IsLast(s.hist, e) && e in s.proc.mem.imms[0].table ==> FilesRep(s.disk.version, s.disk.ssts, e)
  }

  ghost predicate UpInv(s: System, maxLevel: nat)
    requires s.proc.Up?
  {
    && DiskInv(s, maxLevel) && Bounded(s, s.proc.mem) && MemTablesOk(s) && WriterOk(s)
    && FlusherOk(s) && CompactorOk(s.proc.compactor, s.disk.version, s.disk.ssts, maxLevel) && OwnedBelow(s)
    && SharedIsOldest(s, s.proc.mem) && Represented(s, s.base) && FlushedRep(s)
  }

  // ---- Recovery ----

  ghost predicate RecoveredTable(s: System, mem: Memory) {
    && mem.imms == [] && Sorted(mem.table) && mem.wal <= mem.nextID
    && forall e :: e in mem.table <==> e in s.hist && e.seqno > s.base
  }

  ghost predicate StageOk(s: System)
    requires s.proc.Opening? && s.disk.version.WellFormed()
  {
    var mem, logs, wals := s.proc.mem, s.proc.logs, s.disk.wals;
    match s.proc.stage
    case Cleaning =>
      && s.base == s.cut && mem.wal !in wals && (forall w :: w in wals <==> w in logs)
      && (logs == [] ==> wals == map[])
    case Rewriting(done) =>
      && s.base == s.cut && done <= |mem.table| && mem.wal in wals && wals[mem.wal] == mem.table[..done]
      && mem.wal !in logs && (forall w :: w in wals <==> w in logs || w == mem.wal)
      && (forall e :: e in s.hist && e.seqno > s.cut ==> exists w :: w in logs && w in wals && e in wals[w])
    case Unlinking =>
      && s.base == s.cut && mem.wal in wals && wals[mem.wal] == mem.table
      && mem.wal !in logs && (forall w :: w in wals <==> w in logs || w == mem.wal)
    case Ready => (mem.table != [] ==> s.base == s.cut) && forall w :: w in wals ==> w == mem.wal
    case Building(id) => s.base == s.cut && (forall w :: w in wals ==> w == mem.wal) && OpenForL0(s, id)
    case Flushing(id) =>
      && s.base == s.cut && (forall w :: w in wals ==> w == mem.wal) && OpenForL0(s, id) && s.disk.ssts[id] == mem.table
    case Recorded => (mem.table != [] ==> s.base == s.cut) && forall w :: w in wals ==> w == mem.wal
  }

  ghost predicate OpenForL0(s: System, id: nat)
    requires s.proc.Opening? && s.disk.version.WellFormed()
  {
    && id in s.disk.ssts && s.proc.mem.table != [] && !Referenced(s.disk.version, id)
    && forall m :: m in s.disk.version.levels[0] ==> m.id < id
  }

  ghost predicate OpenInv(s: System, maxLevel: nat)
    requires s.proc.Opening?
  {
    && DiskInv(s, maxLevel) && Bounded(s, s.proc.mem) && RecoveredTable(s, s.proc.mem) && StageOk(s)
    && Represented(s, s.base) && AscendingLogs(s.proc.logs)
  }

  ghost predicate Inv(s: System, maxLevel: nat) {
    match s.proc
    case Down => DiskInv(s, maxLevel)
    case Up(_, _, _, _) => UpInv(s, maxLevel)
    case Opening(_, _, _) => OpenInv(s, maxLevel)
  }

  /** An empty directory. */
  const FRESH := System(Disk(EMPTY_VERSION, map[], map[]), Down, [], 0, 0, 0)

  lemma NoFiles(v: Version, maxLevel: nat)
    requires v.WellFormed() && maxLevel <= MAX_LEVELS && forall i :: 0 <= i < MAX_LEVELS ==> v.levels[i] == []
    ensures VersionOk(v, map[], maxLevel) && FileLayered(v, map[])
    ensures forall e :: !Held(v, map[], e)
  {
  }

  lemma FreshInv(maxLevel: nat)
    requires maxLevel <= MAX_LEVELS
    ensures Inv(FRESH, maxLevel)
  {
    hide VersionOk, FileLayered, Held;
    NoFiles(EMPTY_VERSION, maxLevel);
  }

  // ---- Frames ----

  /** The levels and the files they name are the same. */
  ghost predicate SameFiles(v: Version, fs: Files, w: Version, gs: Files)
    requires v.WellFormed() && w.WellFormed()
  {
    && w.levels == v.levels
    && forall i, m {:trigger m in v.levels[i]} :: 0 <= i < MAX_LEVELS && m in v.levels[i] && m.id in fs ==>
         m.id in gs && gs[m.id] == fs[m.id]
  }

  lemma SameTables(l: seq<Meta>, fs: Files, gs: Files)
    requires TablesOk(l, fs) && forall m :: m in l && m.id in fs ==> m.id in gs && gs[m.id] == fs[m.id]
    ensures TablesOk(l, gs)
    ensures LevelOk(l, fs) ==> LevelOk(l, gs)
  {
    hide Less, Sorted, Ascending;
  }

  lemma FrameFiles(v: Version, fs: Files, w: Version, gs: Files, maxLevel: nat)
    requires VersionOk(v, fs, maxLevel) && w.WellFormed() && SameFiles(v, fs, w, gs)
    ensures VersionOk(w, gs, maxLevel)
    ensures FileLayered(v, fs) ==> FileLayered(w, gs)
    ensures forall e :: Held(w, gs, e) <==> Held(v, fs, e)
  {
    hide FileLayered, Held;
    FrameVersion(v, fs, w, gs, maxLevel);
    FrameHeld(v, fs, w, gs, maxLevel);
  }

  lemma FrameVersion(v: Version, fs: Files, w: Version, gs: Files, maxLevel: nat)
    requires VersionOk(v, fs, maxLevel) && w.WellFormed() && SameFiles(v, fs, w, gs)
    ensures VersionOk(w, gs, maxLevel)
  {
    hide Less, Ranked, LevelOk, TablesOk;
    forall i | 0 <= i < MAX_LEVELS
      ensures TablesOk(w.levels[i], gs) && (i >= 1 ==> LevelOk(w.levels[i], gs))
    {
      SameTables(v.levels[i], fs, gs);
    }
  }

  lemma FrameHeld(v: Version, fs: Files, w: Version, gs: Files, maxLevel: nat)
    requires VersionOk(v, fs, maxLevel) && w.WellFormed() && SameFiles(v, fs, w, gs)
    ensures FileLayered(v, fs) ==> FileLayered(w, gs)
    ensures forall e :: Held(w, gs, e) <==> Held(v, fs, e)
  {
    hide Less, Ranked, LevelOk, TablesOk, Find;
    forall i, m {:trigger m in v.levels[i]} | 0 <= i < MAX_LEVELS && m in v.levels[i]
      ensures m.id in fs
    {
      TableOnDisk(v.levels[i], fs, m);
    }
  }

  lemma TableOnDisk(l: seq<Meta>, fs: Files, m: Meta)
    requires TablesOk(l, fs) && m in l
    ensures m.id in fs
  {
  }

  lemma FrameRep(v: Version, fs: Files, w: Version, gs: Files, e: Entry)
    requires v.WellFormed() && w.WellFormed() && forall x :: Held(w, gs, x) <==> Held(v, fs, x)
    ensures FilesRep(v, fs, e) <==> FilesRep(w, gs, e)
  {
    hide Held;
  }
}
