// Every step of recovery keeps the invariant, and so survives a crash of its own.
module EngineRecovery {
  import opened Keys
  import opened Manifest
  import opened Levels
  import opened Commit
  import opened Meaning
  import opened Table
  import opened Engine
  import opened EngineInv
  import opened EngineSteps

  lemma {:induction false} ReplayedMember(logs: seq<nat>, wals: map<nat, seq<Entry>>, e: Entry)
    requires forall w :: w in logs ==> w in wals
    ensures e in Replayed(logs, wals) <==> exists w :: w in logs && e in wals[w]
  {
    if logs != [] {
      var n := |logs| - 1;
      ReplayedMember(logs[..n], wals, e);
      assert logs == logs[..n] + [logs[n]];
      assert logs[n] in logs;
    }
  }

  /** Replaying every log rebuilds exactly the history above cut. */
  lemma LoadedTable(s: System, logs: seq<nat>, maxLevel: nat)
    requires HistOk(s.hist) && LogsExact(s) && CanOpenLoad(s, logs)
    ensures var es := Replayed(logs, s.disk.wals);
            && (forall e :: e in es <==> e in s.hist && e.seqno > s.cut)
            && Sorted(InsertAll([], es)) && (forall e :: e in InsertAll([], es) <==> e in es)
  {
    hide InsertAll, Sorted;
    var es := Replayed(logs, s.disk.wals);
    forall e
      ensures e in es <==> e in s.hist && e.seqno > s.cut
    {
      ReplayedMember(logs, s.disk.wals, e);
      assert OnLog(s.disk.wals, e) <==> e in s.hist && e.seqno > s.cut;
    }
    assert [] + es == es;
    SubsetIdentifies(s.hist, es);
    EmptySorted();
    InsertAllMember([], es);
  }

  lemma EmptySorted()
    ensures Sorted([])
  {
  }

  lemma ActiveIsFresh(d: Disk)
    ensures forall id :: id in d.ssts ==> id < ActiveLog(d)
    ensures forall w :: w in d.wals ==> w < ActiveLog(d)
  {
  }

  lemma OpenLoadKeeps(s: System, logs: seq<nat>, maxLevel: nat)
    requires Inv(s, maxLevel) && CanOpenLoad(s, logs)
    ensures Inv(DoOpenLoad(s, logs), maxLevel)
  {
    hide FilesOk, FilesRep, Held, OnLog, InsertAll, Sorted, MaxSeq, ActiveLog, Replayed;
    LoadedTable(s, logs, maxLevel);
    MaxSeqBounds(Replayed(logs, s.disk.wals));
    ActiveIsFresh(s.disk);
    if logs == [] {
      assert s.disk.wals == map[];
    }
  }

  /** Every file the manifest names is on disk, so opening never fails on a missing table. */
  lemma NothingMissing(s: System, maxLevel: nat)
    requires Inv(s, maxLevel)
    ensures s.disk.version.WellFormed()
    ensures forall id :: Referenced(s.disk.version, id) ==> id in s.disk.ssts
  {
    hide LevelOk, Tidy, FileLayered, FilesRep, Held, MemTablesOk, OnLog;
    forall id | Referenced(s.disk.version, id)
      ensures id in s.disk.ssts
    {
      var i, m :| 0 <= i < MAX_LEVELS && m in s.disk.version.levels[i] && m.id == id;
      TableOnDisk(s.disk.version.levels[i], s.disk.ssts, m);
    }
  }

  lemma OpenCleanKeeps(s: System, id: nat, maxLevel: nat)
    requires Inv(s, maxLevel) && CanOpenClean(s, id)
    ensures Inv(DoOpenClean(s, id), maxLevel)
  {
    hide FilesOk, FilesRep, Held, OnLog, Sorted, Referenced;
    OtherFilesKeep(s, s.disk.ssts - {id}, maxLevel);
  }

  lemma OpenCreateKeeps(s: System, maxLevel: nat)
    requires Inv(s, maxLevel) && CanOpenCreate(s)
    ensures Inv(DoOpenCreate(s), maxLevel)
  {
    hide FilesOk, FilesRep, Held, Sorted;
    var s', active := DoOpenCreate(s), s.proc.mem.wal;
    forall e
      ensures OnLog(s'.disk.wals, e) <==> OnLog(s.disk.wals, e)
      ensures OnLog(s.disk.wals, e) ==> exists w :: w in s.proc.logs && w in s'.disk.wals && e in s'.disk.wals[w]
    {
      if OnLog(s.disk.wals, e) {
        var w :| w in s.disk.wals && e in s.disk.wals[w];
        assert w in s.proc.logs && e in s'.disk.wals[w];
      }
    }
  }

  lemma OpenRewriteKeeps(s: System, maxLevel: nat)
    requires Inv(s, maxLevel) && CanOpenRewrite(s)
    ensures Inv(DoOpenRewrite(s), maxLevel)
  {
    hide FilesOk, FilesRep, Held, Sorted, OnLog;
    var s', mem, n := DoOpenRewrite(s), s.proc.mem, s.proc.stage.done;
    assert mem.table[..n] + [mem.table[n]] == mem.table[..n + 1];
    assert mem.table[n] in mem.table;
    GrowLogs(s.disk.wals, mem.wal, mem.table[n]);
    forall e | e in s.hist && e.seqno > s.cut
      ensures exists w :: w in s.proc.logs && w in s'.disk.wals && e in s'.disk.wals[w]
    {
      var w :| w in s.proc.logs && w in s.disk.wals && e in s.disk.wals[w];
      assert e in s'.disk.wals[w];
    }
  }

  /** Copying an entry that some log already holds into another log adds nothing. */
  lemma GrowLogs(wals: map<nat, seq<Entry>>, w: nat, e0: Entry)
    requires w in wals && OnLog(wals, e0)
    ensures forall e :: OnLog(wals[w := wals[w] + [e0]], e) <==> OnLog(wals, e)
  {
    var wals' := wals[w := wals[w] + [e0]];
    forall e
      ensures OnLog(wals', e) <==> OnLog(wals, e)
    {
      if OnLog(wals, e) {
        var x :| x in wals && e in wals[x];
        assert e in wals'[x];
      }
      if OnLog(wals', e) {
        var x :| x in wals' && e in wals'[x];
        assert e == e0 || e in wals[x];
      }
    }
  }

  lemma OpenSyncKeeps(s: System, maxLevel: nat)
    requires Inv(s, maxLevel) && CanOpenSync(s)
    ensures Inv(DoOpenSync(s), maxLevel)
  {
    hide FilesOk, FilesRep, Held, OnLog, Sorted;
    assert s.proc.mem.table[..|s.proc.mem.table|] == s.proc.mem.table;
  }

  /** A log whose entries another one holds can go. */
  lemma DropLog(wals: map<nat, seq<Entry>>, w: nat, active: nat)
    requires active in wals && w != active && forall e :: OnLog(wals, e) ==> e in wals[active]
    ensures forall e :: OnLog(wals - {w}, e) <==> OnLog(wals, e)
  {
    assert active in wals - {w};
  }

  /** Old logs go one by one; the rewritten one already holds everything they held. */
  lemma OpenUnlinkKeeps(s: System, maxLevel: nat)
    requires Inv(s, maxLevel) && CanOpenUnlink(s)
    ensures Inv(DoOpenUnlink(s), maxLevel)
  {
    hide FilesOk, FilesRep, Held, Sorted, OnLog;
    var s', active := DoOpenUnlink(s), s.proc.mem.wal;
    var logs := s.proc.logs;
    DropLog(s.disk.wals, logs[0], active);
    assert forall w :: w in logs <==> w == logs[0] || w in logs[1..];
  }

  lemma OpenReadyKeeps(s: System, maxLevel: nat)
    requires Inv(s, maxLevel) && CanOpenReady(s)
    ensures Inv(DoOpenReady(s), maxLevel)
  {
    hide FilesOk, FilesRep, Held, OnLog, Sorted;
  }

  lemma OpenFlushCreateKeeps(s: System, maxLevel: nat)
    requires Inv(s, maxLevel) && CanOpenFlushCreate(s)
    ensures Inv(DoOpenFlushCreate(s), maxLevel)
  {
    hide FilesOk, FilesRep, Held, OnLog, Sorted, Referenced;
    NewNumber(s, s.proc.mem.nextID + 1, maxLevel);
    OtherFilesKeep(s, DoOpenFlushCreate(s).disk.ssts, maxLevel);
  }

  lemma OpenFlushWriteKeeps(s: System, maxLevel: nat)
    requires Inv(s, maxLevel) && CanOpenFlushWrite(s)
    ensures Inv(DoOpenFlushWrite(s), maxLevel)
  {
    hide FilesOk, FilesRep, Held, OnLog, Sorted, Referenced;
    OtherFilesKeep(s, DoOpenFlushWrite(s).disk.ssts, maxLevel);
  }

  lemma OpenFlushListKeeps(s: System, maxLevel: nat)
    requires Inv(s, maxLevel) && CanOpenFlushList(s) && 1 <= maxLevel
    ensures Inv(DoOpenFlushList(s), maxLevel)
  {
    hide DiskInv, Represented, OnLog, Sorted, Update, AscendingLogs;
    ListedDisk(s, maxLevel);
    EmptySorted();
  }

  lemma ListedDisk(s: System, maxLevel: nat)
    requires s.proc.Opening? && OpenInv(s, maxLevel) && CanOpenFlushList(s) && 1 <= maxLevel
    ensures var s' := DoOpenFlushList(s); DiskInv(s', maxLevel) && Represented(s', s'.base)
  {
    hide FilesOk, FilesRep, Held, OnLog, Sorted, Update, AscendingLogs;
    ListFile(s, s.proc.stage.id, maxLevel);
  }

  lemma OpenNoteKeeps(s: System, maxLevel: nat)
    requires Inv(s, maxLevel) && CanOpenNote(s)
    ensures Inv(DoOpenNote(s), maxLevel)
  {
    hide FilesOk, FilesRep, Held, Sorted, Update, OnLog;
    MarkKeepsFiles(s, LogEdit(s.proc.mem.wal), maxLevel);
  }

  lemma OpenDoneKeeps(s: System, maxLevel: nat)
    requires Inv(s, maxLevel) && CanOpenDone(s)
    ensures Inv(DoOpenDone(s), maxLevel)
  {
    hide FilesOk, FilesRep, Held, Sorted;
    var s', mem := DoOpenDone(s), s.proc.mem;
    forall e
      ensures OnLog(s'.disk.wals, e) <==> OnLog(s.disk.wals, e)
      ensures OnLog(s'.disk.wals, e) <==> e in s'.disk.wals[mem.wal]
    {
      if OnLog(s.disk.wals, e) {
        var w :| w in s.disk.wals && e in s.disk.wals[w];
        OnLogOf(s'.disk.wals, w, e);
      }
    }
  }
}
