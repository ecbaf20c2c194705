// The replicated state machine: redelivered log entries, checkpoints, crashes and snapshots.
module RaftFsm {
  import opened Keys
  import opened Shards
  import opened Cluster

  /** A committed log entry; Foreign stands for one that is no command of this machine. */
  datatype Command = PutCommand(key: Bytes, value: Bytes) | DeleteCommand(key: Bytes) | BatchCommand(ops: seq<Op>) | Foreign

  predicate TooLarge(op: Op, maxValue: nat) {
    op.Put? && |op.value| > maxValue
  }

  /** What the engine is asked to write, or nothing when it refuses. */
  function OpsOf(c: Command, maxValue: nat): Option<seq<Op>> {
    match c
    case PutCommand(k, v) => if |v| > maxValue then None else Some([Put(k, v)])
    case DeleteCommand(k) => Some([Del(k)])
    case BatchCommand(ops) => if exists i :: 0 <= i < |ops| && TooLarge(ops[i], maxValue) then None else Some(ops)
    case Foreign => None
  }

  /** The map after the first n entries of the log. */
  function Fold(log: seq<Command>, maxValue: nat, n: nat): Store
    requires n <= |log|
  {
    if n == 0 then map[]
    else
      match OpsOf(log[n - 1], maxValue)
      case None => Fold(log, maxValue, n - 1)
      case Some(ops) => ApplyBatch(Fold(log, maxValue, n - 1), ops)
  }

  /** No entry numbered after a and before b has any effect; entry i is log[i - 1]. */
  ghost predicate Quiet(log: seq<Command>, maxValue: nat, a: nat, b: nat) {
    forall j :: a <= j < b - 1 && j < |log| ==> OpsOf(log[j], maxValue).None?
  }

  /** The engine holds the fold up to the checkpoint, or up to the one effective entry after it. */
  ghost predicate Tracks(log: seq<Command>, maxValue: nat, eng: Store, saved: nat) {
    exists c :: saved <= c <= |log| && Quiet(log, maxValue, saved, c) && eng == Fold(log, maxValue, c)
  }

  lemma {:induction false} FoldQuiet(log: seq<Command>, maxValue: nat, a: nat, b: nat)
    requires a <= b <= |log| && Quiet(log, maxValue, a, b + 1)
    ensures Fold(log, maxValue, a) == Fold(log, maxValue, b)
  {
    if a < b { FoldQuiet(log, maxValue, a, b - 1); }
  }


  /** Whatever it starts from, a batch that touches k decides it, and one that does not keeps it. */
  lemma {:induction false} EffectSettles(v: Option<Bytes>, ops: seq<Op>, k: Bytes)
    ensures Effect(Effect(v, ops, k), ops, k) == Effect(v, ops, k)
  {
    if ops != [] { EffectSettles(v, ops[..|ops| - 1], k); }
  }

  /** Writing a batch again changes nothing. */
  lemma BatchTwice(m: Store, ops: seq<Op>)
    ensures ApplyBatch(ApplyBatch(m, ops), ops) == ApplyBatch(m, ops)
  {
    hide ApplyBatch, Effect;
    forall k
      ensures SameAt(ApplyBatch(ApplyBatch(m, ops), ops), ApplyBatch(m, ops), k)
    {
      BatchEffect(m, ops, k);
      BatchEffect(ApplyBatch(m, ops), ops, k);
      EffectSettles(At(m, k), ops, k);
    }
    SameEverywhere(ApplyBatch(ApplyBatch(m, ops), ops), ApplyBatch(m, ops));
  }

  /** What a crash leaves: torn while a restore has begun and not yet saved its checkpoint. */
  datatype Durable = Durable(eng: Store, saved: nat, torn: bool)

  /** A snapshot: the engine's files, the checkpoint stored with them, and the raft index it stands for. */
  datatype Snapshot = Snapshot(eng: Store, applied: nat, last: nat)

  ghost predicate SnapshotOk(log: seq<Command>, maxValue: nat, s: Snapshot) {
    && Tracks(log, maxValue, s.eng, s.applied)
    && s.applied <= s.last <= |log| && Quiet(log, maxValue, s.applied, s.last + 1)
  }

  ghost predicate DurableOk(log: seq<Command>, maxValue: nat, d: Durable) {
    d.torn || Tracks(log, maxValue, d.eng, d.saved)
  }

  /** Entry next comes next, and those delivered since the checkpoint had no effect. */
  ghost predicate Delivering(log: seq<Command>, maxValue: nat, saved: nat, next: nat) {
    1 <= next <= |log| + 1 && saved <= |log| && Quiet(log, maxValue, saved, next)
  }

  /** Applying the next entry, perhaps for the second time, gives the fold up to it. */
  lemma ApplyReaches(log: seq<Command>, maxValue: nat, eng: Store, saved: nat, next: nat)
    requires Tracks(log, maxValue, eng, saved) && Delivering(log, maxValue, saved, next)
    requires saved < next <= |log| && OpsOf(log[next - 1], maxValue).Some?
    ensures ApplyBatch(eng, OpsOf(log[next - 1], maxValue).value) == Fold(log, maxValue, next)
    ensures Tracks(log, maxValue, Fold(log, maxValue, next), saved)
    ensures Tracks(log, maxValue, Fold(log, maxValue, next), next)
  {
    hide ApplyBatch, OpsOf;
    var c :| saved <= c <= |log| && Quiet(log, maxValue, saved, c) && eng == Fold(log, maxValue, c);
    if c < next {
      FoldQuiet(log, maxValue, c, next - 1);
    } else {
      assert c == next;
      BatchTwice(Fold(log, maxValue, next - 1), OpsOf(log[next - 1], maxValue).value);
    }
  }

  class RaftFSM {
    const maxValue: nat
    var eng: Store
    var saved: nat
    var applied: nat
    var torn: bool
    /** The durable states this call has passed through. */
    var trace: seq<Durable>

    /** A start after a crash: the checkpoint is read back. */
    constructor (maxValue: nat, d: Durable)
      ensures this.maxValue == maxValue && eng == d.eng && saved == d.saved && applied == d.saved && torn == d.torn
      ensures trace == [d]
    {
      this.maxValue := maxValue;
      eng, saved, applied, torn := d.eng, d.saved, d.saved, d.torn;
      trace := [d];
    }

    ghost predicate Valid(log: seq<Command>, next: nat)
      reads this
    {
      !torn && applied == saved && Tracks(log, maxValue, eng, saved) && Delivering(log, maxValue, saved, next)
    }

    /** raftFSM.Apply on entry number index. */
    method Apply(index: nat, cmd: Command, ghost log: seq<Command>) returns (ok: bool)
      requires 1 <= index <= |log| && cmd == log[index - 1] && Valid(log, index)
      modifies this
      ensures Valid(log, index + 1) && trace != []
      ensures forall i :: 0 <= i < |trace| ==> !trace[i].torn && DurableOk(log, maxValue, trace[i])
      ensures index <= old(applied) ==> eng == old(eng) && saved == old(saved) && (ok <==> !cmd.Foreign?)
      ensures index > old(applied) && OpsOf(cmd, maxValue).Some? ==> ok && eng == Fold(log, maxValue, index) && saved == index
      ensures index > old(applied) && OpsOf(cmd, maxValue).None? ==> !ok && eng == old(eng) && saved == old(saved)
    {
      hide Fold, OpsOf;
      trace := [Durable(eng, saved, torn)];
      if cmd.Foreign? {
        ForeignFails(maxValue);
        return false;
      }
      if index <= applied {
        return true;
      }
      var ops := OpsOf(cmd, maxValue);
      if ops.None? {
        return false;
      }
      ApplyReaches(log, maxValue, eng, saved, index);
      eng := ApplyBatch(eng, ops.value);
      trace := trace + [Durable(eng, saved, torn)];
      saved := index;
      trace := trace + [Durable(eng, saved, torn)];
      applied := index;
      return true;
    }

    /** raftFSM.Snapshot, between two entries. */
    method TakeSnapshot(ghost log: seq<Command>, next: nat) returns (s: Snapshot)
      requires Valid(log, next)
      ensures s.eng == eng && s.applied == applied
      ensures SnapshotOk(log, maxValue, s) && s.last + 1 >= next
    {
      s := Snapshot(eng, applied, if next - 1 < applied then applied else next - 1);
    }

    /** raftFSM.Restore: the engine is torn from its first change until the checkpoint is saved. */
    method Restore(s: Snapshot, ghost log: seq<Command>)
      requires SnapshotOk(log, maxValue, s)
      modifies this
      ensures Valid(log, s.last + 1) && eng == s.eng && saved == s.applied
      ensures trace != [] && trace[0] == Durable(old(eng), old(saved), old(torn))
      ensures forall i :: 0 < i < |trace| ==> DurableOk(log, maxValue, trace[i])
    {
      trace := [Durable(eng, saved, torn)];
      torn := true;
      trace := trace + [Durable(map[], saved, torn)];
      eng := s.eng;
      trace := trace + [Durable(eng, saved, torn)];
      saved := s.applied;
      torn := false;
      trace := trace + [Durable(eng, saved, torn)];
      applied := s.applied;
    }
  }

  // ---- Whole runs ----

  /** Where a crash strikes, where raft then redelivers from, and the snapshot it has for a torn engine. */
  datatype Crash = Crash(at: nat, from: nat, snap: nat)

  datatype Event = Deliver(crash: Option<Crash>) | Snap | Install(i: nat, crash: Option<Crash>)

  /** A restart: raft restores a snapshot over a torn engine, or redelivers from at most the entry after the checkpoint. */
  method Restart(d: Durable, c: Crash, maxValue: nat, snaps: seq<Snapshot>, ghost log: seq<Command>)
      returns (node: RaftFSM, next: nat)
    requires DurableOk(log, maxValue, d) && (d.torn ==> snaps != [])
    requires forall s :: s in snaps ==> SnapshotOk(log, maxValue, s)
    ensures fresh(node) && node.maxValue == maxValue && node.Valid(log, next)
    ensures !d.torn ==> node.eng == d.eng && node.saved == d.saved && 1 <= next <= d.saved + 1
    ensures d.torn ==> exists s :: s in snaps && node.eng == s.eng && node.saved == s.applied && next == s.last + 1
  {
    node := new RaftFSM(maxValue, d);
    if d.torn {
      var s := snaps[if c.snap < |snaps| then c.snap else 0];
      assert s in snaps;
      node.Restore(s, log);
      next := s.last + 1;
    } else {
      next := if c.from == 0 then 1 else if c.from > node.saved + 1 then node.saved + 1 else c.from;
    }
  }

  /**
   * Any sequence of deliveries, snapshots and restores, each of which may crash at any durable state:
   * the engine always holds the fold of the log up to its checkpoint, or up to the next effective entry.
   */
  method Run(log: seq<Command>, maxValue: nat, events: seq<Event>, given: seq<Snapshot>) returns (eng: Store, saved: nat)
    requires forall s :: s in given ==> SnapshotOk(log, maxValue, s)
    ensures Tracks(log, maxValue, eng, saved)
    ensures Undisturbed(events) ==> eng == Fold(log, maxValue, if |events| < |log| then |events| else |log|)
  {
    hide Tracks, Fold, Quiet;
    var node := new RaftFSM(maxValue, Durable(map[], 0, false));
    var next: nat, snaps := 1, given;
    NothingApplied(log, maxValue);
    for i := 0 to |events|
      invariant fresh(node) && node.maxValue == maxValue && node.Valid(log, next)
      invariant forall s :: s in snaps ==> SnapshotOk(log, maxValue, s)
      invariant Undisturbed(events) ==> node.saved < next && next == 1 + (if i < |log| then i else |log|)
                                        && node.eng == Fold(log, maxValue, next - 1)
    {
      match events[i] {
        case Deliver(crash) =>
          if next <= |log| {
            var _ := node.Apply(next, log[next - 1], log);
            if OpsOf(log[next - 1], maxValue).None? { FoldNext(log, maxValue, next); }
            next := next + 1;
            if crash.Some? {
              var d := node.trace[if crash.value.at < |node.trace| then crash.value.at else 0];
              node, next := Restart(d, crash.value, maxValue, snaps, log);
            }
          }
        case Snap =>
          var s := node.TakeSnapshot(log, next);
          snaps := snaps + [s];
        case Install(j, crash) =>
          if j < |snaps| {
            assert snaps[j] in snaps;
            ghost var before := Durable(node.eng, node.saved, node.torn);
            node.Restore(snaps[j], log);
            next := snaps[j].last + 1;
            if crash.Some? {
              var d := node.trace[if crash.value.at < |node.trace| then crash.value.at else 0];
              assert DurableOk(log, maxValue, before);
              node, next := Restart(d, crash.value, maxValue, snaps, log);
            }
          }
      }
    }
    return node.eng, node.saved;
  }

  /** Deliveries only, and no crash. */
  ghost predicate Undisturbed(events: seq<Event>) {
    forall i :: 0 <= i < |events| ==> events[i] == Deliver(None)
  }

  lemma FoldNext(log: seq<Command>, maxValue: nat, n: nat)
    requires 1 <= n <= |log| && OpsOf(log[n - 1], maxValue).None?
    ensures Fold(log, maxValue, n) == Fold(log, maxValue, n - 1)
  {
  }

  lemma NothingApplied(log: seq<Command>, maxValue: nat)
    ensures Tracks(log, maxValue, map[], 0) && Delivering(log, maxValue, 0, 1) && Fold(log, maxValue, 0) == map[]
  {
    assert Fold(log, maxValue, 0) == map[];
  }

  lemma ForeignFails(maxValue: nat)
    ensures OpsOf(Foreign, maxValue).None?
  {
  }
}
