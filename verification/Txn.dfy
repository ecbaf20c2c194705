// Cross-shard writes: an undo journal over shards that each write atomically, and its recovery.
module Txn {
  import opened Keys
  import opened Shards

  type Id = string

  /** What a key held on a shard before the transaction. */
  datatype PreImage = PreImage(shard: nat, key: Bytes, present: bool, value: Bytes)

  datatype Record = Record(committed: bool, images: seq<PreImage>)

  /** What survives a crash: the shards and the journal's two kinds of file. */
  datatype Disk = Disk(shards: seq<Store>, pending: map<Id, Record>, done: map<Id, Record>)

  // ---- What recovery makes of a disk ----

  predicate ImageOf(img: PreImage, pre: seq<Store>) {
    && img.shard < |pre| && (img.present <==> img.key in pre[img.shard])
    && (img.present ==> img.value == pre[img.shard][img.key])
  }

  predicate Imaged(images: seq<PreImage>, shard: nat, k: Bytes) {
    exists i :: 0 <= i < |images| && images[i].shard == shard && images[i].key == k
  }

  /** Writing the images back turns these shards into pre. */
  ghost predicate Undoes(images: seq<PreImage>, shards: seq<Store>, pre: seq<Store>) {
    && |shards| == |pre| && (forall img :: img in images ==> ImageOf(img, pre))
    && forall i, k :: 0 <= i < |pre| && !Imaged(images, i, k) ==> SameAt(shards[i], pre[i], k)
  }

  /** Recovery returns this disk to pre. */
  ghost predicate RollsBack(d: Disk, pre: seq<Store>) {
    && d.done == map[]
    && ((d.pending == map[] && d.shards == pre)
        || exists id :: id in d.pending && d.pending == map[id := d.pending[id]]
                     && !d.pending[id].committed && Undoes(d.pending[id].images, d.shards, pre))
  }

  /** Recovery leaves this disk at post. */
  ghost predicate RollsForward(d: Disk, post: seq<Store>) {
    d.shards == post && forall id :: id in d.pending ==> id in d.done || d.pending[id].committed
  }

  ghost predicate Safe(d: Disk, pre: seq<Store>, post: seq<Store>) {
    RollsBack(d, pre) || RollsForward(d, post)
  }

  function UndoOp(img: PreImage): Op {
    if img.present then Put(img.key, img.value) else Del(img.key)
  }

  /** The rollback batch of one shard: its images, last first. */
  function UndoOps(images: seq<PreImage>, shard: nat): seq<Op> {
    if images == [] then []
    else UndoOps(images[1..], shard) + if images[0].shard == shard then [UndoOp(images[0])] else []
  }

  lemma UndoFirst(images: seq<PreImage>, shard: nat, m: Store, k: Bytes)
    requires images != []
    ensures Imaged(images, shard, k) <==> (images[0].shard == shard && images[0].key == k) || Imaged(images[1..], shard, k)
    ensures var rest := ApplyBatch(m, UndoOps(images[1..], shard));
            ApplyBatch(m, UndoOps(images, shard)) == if images[0].shard == shard then ApplyOp(rest, UndoOp(images[0])) else rest
  {
    var img, ops := images[0], UndoOps(images[1..], shard);
    assert forall i :: 0 <= i < |images| - 1 ==> images[1..][i] == images[i + 1];
    assert (ops + [UndoOp(img)])[..|ops|] == ops;
    assert ops + [] == ops;
  }

  /** After the rollback batch every imaged key is as it was, and the others are untouched. */
  lemma {:induction false} UndoKey(images: seq<PreImage>, shard: nat, m: Store, pre: seq<Store>, k: Bytes)
    requires shard < |pre| && forall img :: img in images ==> ImageOf(img, pre)
    ensures Imaged(images, shard, k) ==> SameAt(ApplyBatch(m, UndoOps(images, shard)), pre[shard], k)
    ensures !Imaged(images, shard, k) ==> SameAt(ApplyBatch(m, UndoOps(images, shard)), m, k)
  {
    if images != [] {
      hide Imaged, UndoOps, ApplyBatch;
      UndoFirst(images, shard, m, k);
      UndoKey(images[1..], shard, m, pre, k);
      assert images[0] in images;
    }
  }

  /** Rolling back one shard brings it to pre, however much of the transaction it has seen. */
  lemma UndoShard(images: seq<PreImage>, shards: seq<Store>, pre: seq<Store>, shard: nat)
    requires Undoes(images, shards, pre) && shard < |pre|
    ensures ApplyBatch(shards[shard], UndoOps(images, shard)) == pre[shard]
    ensures Undoes(images, shards[shard := pre[shard]], pre)
  {
    forall k
      ensures SameAt(ApplyBatch(shards[shard], UndoOps(images, shard)), pre[shard], k)
    {
      UndoKey(images, shard, shards[shard], pre, k);
    }
    SameEverywhere(ApplyBatch(shards[shard], UndoOps(images, shard)), pre[shard]);
  }

  /** A batch whose keys are all imaged can be undone. */
  lemma WriteIsUndone(images: seq<PreImage>, shards: seq<Store>, pre: seq<Store>, shard: nat, ops: seq<Op>)
    requires Undoes(images, shards, pre) && shard < |pre|
    requires forall i :: 0 <= i < |ops| ==> Imaged(images, shard, ops[i].key)
    ensures Undoes(images, shards[shard := ApplyBatch(shards[shard], ops)], pre)
  {
    forall k | !Imaged(images, shard, k)
      ensures SameAt(ApplyBatch(shards[shard], ops), pre[shard], k)
    {
      assert !Touches(ops, k);
      UntouchedKey(shards[shard], ops, k);
      assert SameAt(shards[shard], pre[shard], k);
    }
  }

  // ---- The node ----

  /** The shards after every batch. */
  function Applied(pre: seq<Store>, batches: seq<seq<Op>>): (post: seq<Store>)
    requires |batches| == |pre|
    ensures |post| == |pre| && forall i :: 0 <= i < |pre| ==> post[i] == ApplyBatch(pre[i], batches[i])
  {
    seq(|pre|, i requires 0 <= i < |pre| => ApplyBatch(pre[i], batches[i]))
  }

  /** The first n shards written, the others not. */
  function Partly(pre: seq<Store>, batches: seq<seq<Op>>, n: nat): (mid: seq<Store>)
    requires |batches| == |pre| && n <= |pre|
    ensures |mid| == |pre|
  {
    Applied(pre[..n], batches[..n]) + pre[n..]
  }

  ghost predicate AllSafe(trace: seq<Disk>, pre: seq<Store>, post: seq<Store>) {
    forall i :: 0 <= i < |trace| ==> Safe(trace[i], pre, post)
  }

  class ShardedNode {
    var shards: seq<Store>
    var pending: map<Id, Record>
    var done: map<Id, Record>
    /** The durable states this call has passed through, one per atomic effect: where a crash can leave things. */
    var trace: seq<Disk>

    function Now(): Disk
      reads this
    {
      Disk(shards, pending, done)
    }

    constructor (d: Disk)
      ensures Now() == d && trace == [d]
    {
      shards, pending, done := d.shards, d.pending, d.done;
      trace := [d];
    }

    method WriteShard(i: nat, ops: seq<Op>)
      requires i < |shards|
      modifies `shards, `trace
      ensures shards == old(shards)[i := ApplyBatch(old(shards)[i], ops)]
      ensures trace == old(trace) + [Now()]
    {
      shards := shards[i := ApplyBatch(shards[i], ops)];
      trace := trace + [Now()];
    }

    /** txJournalStore.Save: the rename is the effect. */
    method Save(id: Id, record: Record)
      modifies `pending, `done, `trace
      ensures record.committed ==> pending == old(pending) && done == old(done)[id := record]
      ensures !record.committed ==> pending == old(pending)[id := record] && done == old(done)
      ensures trace == old(trace) + [Now()]
    {
      if record.committed {
        done := done[id := record];
      } else {
        pending := pending[id := record];
      }
      trace := trace + [Now()];
    }

    /** txJournalStore.Delete: the pending file first. */
    method Delete(id: Id)
      modifies `pending, `done, `trace
      ensures pending == old(pending) - {id} && done == old(done) - {id}
      ensures trace == old(trace) + [Disk(shards, pending, old(done)), Now()]
    {
      pending := pending - {id};
      trace := trace + [Now()];
      done := done - {id};
      trace := trace + [Now()];
    }

    /** One image per shard and key, read before anything is written. */
    method Prepare(batches: seq<seq<Op>>) returns (images: seq<PreImage>)
      requires |batches| == |shards|
      ensures forall img :: img in images ==> ImageOf(img, shards) && Touches(batches[img.shard], img.key)
      ensures forall i, j :: 0 <= i < |batches| && 0 <= j < |batches[i]| ==> Imaged(images, i, batches[i][j].key)
      ensures forall i, j :: 0 <= i < j < |images| ==> images[i].shard != images[j].shard || images[i].key != images[j].key
    {
      images := [];
      var seen: set<(nat, Bytes)> := {};
      for i := 0 to |batches|
        invariant forall img :: img in images ==> ImageOf(img, shards) && Touches(batches[img.shard], img.key)
        invariant forall s: nat, k :: (s, k) in seen <==> Imaged(images, s, k)
        invariant forall a, j :: 0 <= a < i && 0 <= j < |batches[a]| ==> Imaged(images, a, batches[a][j].key)
        invariant forall a, b :: 0 <= a < b < |images| ==> images[a].shard != images[b].shard || images[a].key != images[b].key
      {
        for j := 0 to |batches[i]|
          invariant forall img :: img in images ==> ImageOf(img, shards) && Touches(batches[img.shard], img.key)
          invariant forall s: nat, k :: (s, k) in seen <==> Imaged(images, s, k)
          invariant forall a, h :: 0 <= a < i && 0 <= h < |batches[a]| ==> Imaged(images, a, batches[a][h].key)
          invariant forall h :: 0 <= h < j ==> Imaged(images, i, batches[i][h].key)
          invariant forall a, b :: 0 <= a < b < |images| ==> images[a].shard != images[b].shard || images[a].key != images[b].key
        {
          var key := batches[i][j].key;
          if (i, key) !in seen {
            seen := seen + {(i, key)};
            var img := if key in shards[i] then PreImage(i, key, true, shards[i][key]) else PreImage(i, key, false, []);
            ImagedAppend(images, img);
            images := images + [img];
          }
        }
      }
    }

    /** The rollback batch of every shard, built from the last image to the first. */
    method UndoBatches(images: seq<PreImage>) returns (byShard: map<nat, seq<Op>>)
      ensures forall s: nat :: BatchAt(byShard, s) == UndoOps(images, s)
    {
      byShard := map[];
      var i := |images|;
      while i > 0
        invariant 0 <= i <= |images|
        invariant forall s: nat :: BatchAt(byShard, s) == UndoOps(images[i..], s)
      {
        i := i - 1;
        assert images[i..][1..] == images[i + 1..];
        var s := images[i].shard;
        byShard := byShard[s := (if s in byShard then byShard[s] else []) + [UndoOp(images[i])]];
      }
      assert images[0..] == images;
    }

    /** rollbackCrossShardTransaction: the shards in applied return to pre, the last written first. */
    method Rollback(images: seq<PreImage>, applied: seq<nat>, ghost pre: seq<Store>)
      requires Undoes(images, shards, pre) && forall s :: s in applied ==> s < |shards|
      modifies `shards, `trace
      ensures shards == Restored(old(shards), pre, applied)
      ensures Undoing(old(trace), trace, images, pre, pending, done)
    {
      hide Undoes, ApplyBatch, UndoOps, Restored, Undoing;
      var byShard := UndoBatches(images);
      UndoSize(images, shards, pre);
      RestoredNone(shards, pre);
      UndoingNone(trace, images, pre, pending, done);
      var i := |applied|;
      assert applied[i..] == [];
      while i > 0
        invariant 0 <= i <= |applied| && Undoes(images, shards, pre) && |shards| == |pre|
        invariant shards == Restored(old(shards), pre, applied[i..])
        invariant Undoing(old(trace), trace, images, pre, pending, done)
      {
        i := i - 1;
        var s := applied[i];
        assert applied[i..] == [s] + applied[i + 1..] && s in applied;
        UndoShard(images, shards, pre, s);
        RestoredOne(old(shards), pre, applied[i + 1..], s);
        if s in byShard {
          ghost var was := trace;
          WriteShard(s, byShard[s]);
          UndoingOne(old(trace), was, images, pre, pending, done, Now());
        } else {
          assert BatchAt(byShard, s) == [];
          NoOps(shards[s]);
        }
      }
      assert applied[0..] == applied;
    }

    /** applyCrossShardTransaction: shards in ascending order; a child that fails undoes those before it. */
    method ApplyTransaction(id: Id, images: seq<PreImage>, batches: seq<seq<Op>>, faults: set<nat>, ghost pre: seq<Store>)
        returns (ok: bool)
      requires shards == pre && |batches| == |shards| && (forall img :: img in images ==> ImageOf(img, pre))
      requires forall i, j :: 0 <= i < |batches| && 0 <= j < |batches[i]| ==> Imaged(images, i, batches[i][j].key)
      requires pending == map[id := Record(false, images)] && done == map[]
      requires AllSafe(trace, pre, Applied(pre, batches))
      modifies `shards, `trace
      ensures ok <==> forall i :: 0 <= i < |batches| && batches[i] != [] ==> i !in faults
      ensures shards == if ok then Applied(pre, batches) else pre
      ensures AllSafe(trace, pre, Applied(pre, batches))
    {
      hide Undoes, ApplyBatch, AllSafe, Partly, Applied, Restored, Undoing, Safe, RollsBack, RollsForward, ImageOf;
      var applied: seq<nat> := [];
      ghost var post := Applied(pre, batches);
      NothingWritten(images, pre);
      PartlyEnds(pre, batches);
      for i := 0 to |batches|
        invariant shards == Partly(pre, batches, i) && Undoes(images, shards, pre)
        invariant forall s: nat :: s in applied <==> s < i && batches[s] != []
        invariant forall s :: 0 <= s < i && batches[s] != [] ==> s !in faults
        invariant AllSafe(trace, pre, post)
      {
        PartlyNext(pre, batches, i);
        ghost var was := trace;
        if batches[i] != [] {
          if i in faults {
            Rollback(images, applied, pre);
            RolledBack(pre, batches, i, applied);
            UndoingSafe(was, trace, images, pre, post, id);
            return false;
          }
          WriteIsUndone(images, shards, pre, i, batches[i]);
          WriteShard(i, batches[i]);
          PendingSafe(was, Now(), id, images, pre, post);
          applied := applied + [i];
        }
      }
      return true;
    }

    /** writeCrossShardBatch. */
    method WriteCrossShardBatch(id: Id, batches: seq<seq<Op>>, faults: set<nat>) returns (ok: bool)
      requires |batches| == |shards| && pending == map[] && done == map[]
      modifies this
      ensures ok <==> forall i :: 0 <= i < |batches| && batches[i] != [] ==> i !in faults
      ensures shards == (if ok then Applied(old(shards), batches) else old(shards)) && pending == map[] && done == map[]
      ensures trace != [] && AllSafe(trace, old(shards), Applied(old(shards), batches))
    {
      hide Undoes, ApplyBatch;
      ghost var pre := shards;
      trace := [Now()];
      var images := Prepare(batches);
      NothingWritten(images, pre);
      Save(id, Record(false, images));
      PendingRollsBack(Now(), id, images, pre);
      ok := ApplyTransaction(id, images, batches, faults, pre);
      if !ok {
        Delete(id);
        return;
      }
      Save(id, Record(true, images));
      Delete(id);
    }

    /** LoadAll: finished transactions are cleared first; a pending file cleared on the way is an error. */
    method LoadAll(ghost pre: seq<Store>, ghost post: seq<Store>) returns (r: Option<seq<(Id, Record)>>)
      requires Safe(Now(), pre, post) && AllSafe(trace, pre, post)
      modifies `pending, `done, `trace
      ensures done == map[] && pending == old(pending) - old(done).Keys
      ensures r.None? <==> old(pending).Keys * old(done).Keys != {}
      ensures r.Some? ==> Listing(r.value, pending)
      ensures old(trace) <= trace && AllSafe(trace, pre, post)
    {
      hide Undoes, RollsBack, RollsForward, AllSafe;
      var finished, waiting := done.Keys, pending.Keys;
      Finished(Now(), pre, post);
      while finished != {}
        invariant finished == done.Keys && done.Keys <= old(done).Keys
        invariant pending == old(pending) - (old(done).Keys - finished)
        invariant (finished != {} ==> RollsForward(Now(), post)) && old(trace) <= trace && AllSafe(trace, pre, post)
        decreases finished
      {
        var id :| id in finished;
        Forget(trace, Now(), id, pre, post);
        Delete(id);
        finished := finished - {id};
      }
      assert done == map[];
      r := ReadPending(waiting);
      if id :| id in waiting && id !in pending {
        assert id in old(pending).Keys * old(done).Keys;
      }
    }

    /** Reads the pending files listed before any was removed; a file gone meanwhile is an error. */
    method ReadPending(listed: set<Id>) returns (r: Option<seq<(Id, Record)>>)
      requires pending.Keys <= listed
      ensures r.None? <==> !(listed <= pending.Keys)
      ensures r.Some? ==> Listing(r.value, pending)
    {
      hide Ids;
      var waiting, records: seq<(Id, Record)> := listed, [];
      NoIds();
      while waiting != {}
        invariant waiting <= listed && listed - waiting <= pending.Keys
        invariant forall x :: x in records ==> x.0 !in waiting && x.0 in pending && x.1 == pending[x.0]
        invariant Ids(records) == listed - waiting && DistinctIds(records)
        decreases waiting
      {
        var id :| id in waiting;
        if id !in pending {
          return None;
        }
        IdsAppend(records, (id, pending[id]));
        records := records + [(id, pending[id])];
        waiting := waiting - {id};
      }
      return Some(records);
    }

    /** The shards a record has images of, each once. */
    method TouchedShards(images: seq<PreImage>) returns (applied: seq<nat>)
      ensures forall s :: s in applied <==> exists i :: 0 <= i < |images| && images[i].shard == s
    {
      applied := [];
      var seen: set<nat> := {};
      for i := 0 to |images|
        invariant forall s :: s in seen <==> s in applied
        invariant forall s :: s in applied <==> exists j :: 0 <= j < i && images[j].shard == s
      {
        if images[i].shard !in seen {
          seen := seen + {images[i].shard};
          applied := applied + [images[i].shard];
        }
      }
    }

    /** What recovery does with an unfinished transaction: roll back, then forget it. */
    method RecoverRecord(id: Id, images: seq<PreImage>, ghost pre: seq<Store>, ghost post: seq<Store>)
      requires done == map[] && pending == map[id := Record(false, images)] && Undoes(images, shards, pre)
      requires AllSafe(trace, pre, post)
      modifies this
      ensures shards == pre && pending == map[] && done == map[] && AllSafe(trace, pre, post) && old(trace) <= trace
    {
      hide Undoes, ApplyBatch, Restored, Undoing;
      ghost var before, was := trace, shards;
      var applied := TouchedShards(images);
      ImagesInRange(images, shards, pre);
      Rollback(images, applied, pre);
      AllUndone(images, was, pre, applied);
      UndoingSafe(before, trace, images, pre, post, id);
      Delete(id);
    }

    /**
     * recoverTransactions: from any disk a transaction can leave behind, it passes only through such
     * disks; when it succeeds the journal is empty, and it fails only on a journal that holds both
     * files of a transaction, after clearing them.
     */
    method RecoverTransactions(ghost pre: seq<Store>, ghost post: seq<Store>) returns (ok: bool)
      requires Safe(Now(), pre, post)
      modifies this
      ensures trace != [] && AllSafe(trace, pre, post) && Safe(Now(), pre, post)
      ensures ok <==> old(pending).Keys * old(done).Keys == {}
      ensures done == map[] && (ok ==> pending == map[])
      ensures ok && RollsBack(old(Now()), pre) ==> shards == pre
      ensures RollsForward(old(Now()), post) ==> shards == post
    {
      hide Undoes, RollsBack, RollsForward, Ids, AllSafe, Listing, DistinctIds;
      trace := [Now()];
      assert AllSafe(trace, pre, post) by { OneSafe(Now(), pre, post); }
      ghost var start := Now();
      ghost var back, forward := RollsBack(start, pre), RollsForward(start, post);
      var loaded := LoadAll(pre, post);
      if loaded.None? {
        BothFiles(start, pre, post);
        return false;
      }
      var records := loaded.value;
      KeptPending(start.pending, start.done.Keys);
      ListedIds(records, pending);
      if back {
        ListedBack(start, records, pre);
      }
      if forward {
        ListedForward(start, records, post);
      }
      for i := 0 to |records|
        invariant done == map[] && trace != [] && AllSafe(trace, pre, post)
        invariant pending.Keys == Ids(records[i..])
        invariant back ==> if i == 0 then Now() == Disk(start.shards, start.pending, map[]) else shards == pre && pending == map[]
        invariant forward ==> RollsForward(Now(), post)
      {
        var (id, record) := records[i];
        assert records[i] in records;
        IdsNext(records, i);
        if record.committed {
          Forget(trace, Now(), id, pre, post);
          Delete(id);
        } else {
          RecoverRecord(id, record.images, pre, post);
        }
      }
      assert records[|records|..] == [];
      NoIds();
      Clean(Now(), pre, post);
      return true;
    }
  }

  ghost function Ids(records: seq<(Id, Record)>): set<Id> {
    set i | 0 <= i < |records| :: records[i].0
  }

  lemma ListedIds(records: seq<(Id, Record)>, pending: map<Id, Record>)
    requires Listing(records, pending)
    ensures pending.Keys == Ids(records) && records[0..] == records && DistinctIds(records)
  {
  }

  lemma IdsAppend(records: seq<(Id, Record)>, x: (Id, Record))
    ensures Ids(records + [x]) == Ids(records) + {x.0}
  {
    var all := records + [x];
    assert all[|records|] == x;
    assert forall i :: 0 <= i < |records| ==> all[i] == records[i];
  }

  lemma NoIds()
    ensures Ids([]) == {}
  {
  }

  lemma IdsNext(records: seq<(Id, Record)>, i: nat)
    requires i < |records| && DistinctIds(records)
    ensures records[i].0 in Ids(records[i..]) && Ids(records[i + 1..]) == Ids(records[i..]) - {records[i].0}
  {
    var s, rest := records[i..], records[i + 1..];
    assert s[0] == records[i];
    assert forall j :: 0 <= j < |rest| ==> rest[j] == s[j + 1] && rest[j] == records[i + 1 + j];
    forall id | id in Ids(s) && id != records[i].0
      ensures id in Ids(rest)
    {
      var j :| 0 <= j < |s| && s[j].0 == id;
      assert rest[j - 1].0 == id;
    }
  }

  /** Forgetting a finished transaction, one file at a time. */
  lemma Forget(trace: seq<Disk>, d: Disk, id: Id, pre: seq<Store>, post: seq<Store>)
    requires AllSafe(trace, pre, post) && RollsForward(d, post)
    ensures var half, gone := Disk(d.shards, d.pending - {id}, d.done), Disk(d.shards, d.pending - {id}, d.done - {id});
            RollsForward(gone, post) && AllSafe(trace + [half, gone], pre, post)
  {
    hide RollsBack;
    var half, gone := Disk(d.shards, d.pending - {id}, d.done), Disk(d.shards, d.pending - {id}, d.done - {id});
    assert RollsForward(half, post) && RollsForward(gone, post);
  }

  lemma OneSafe(d: Disk, pre: seq<Store>, post: seq<Store>)
    requires Safe(d, pre, post)
    ensures AllSafe([d], pre, post)
  {
  }

  lemma Clean(d: Disk, pre: seq<Store>, post: seq<Store>)
    requires d.pending == map[] && d.done == map[]
    ensures RollsBack(d, pre) <==> d.shards == pre
    ensures RollsForward(d, post) <==> d.shards == post
  {
  }

  lemma Finished(d: Disk, pre: seq<Store>, post: seq<Store>)
    requires Safe(d, pre, post)
    ensures d.done.Keys != {} ==> RollsForward(d, post)
  {
  }

  lemma BothFiles(d: Disk, pre: seq<Store>, post: seq<Store>)
    requires Safe(d, pre, post) && d.pending.Keys * d.done.Keys != {}
    ensures d.done != map[] && !RollsBack(d, pre) && RollsForward(d, post)
    ensures RollsForward(Disk(d.shards, d.pending - d.done.Keys, map[]), post)
  {
    var id :| id in d.pending.Keys * d.done.Keys;
  }

  lemma KeptPending(m: map<Id, Record>, ids: set<Id>)
    requires m.Keys * ids == {}
    ensures m - ids == m
  {
    forall id | id in m
      ensures id !in ids
    {
      assert id in ids ==> id in m.Keys * ids;
    }
  }

  /** A disk that rolls back has nothing to recover, or one unfinished transaction. */
  lemma ListedBack(d: Disk, records: seq<(Id, Record)>, pre: seq<Store>)
    requires Listing(records, d.pending) && RollsBack(d, pre)
    ensures d.done == map[] && (d.pending == map[] ==> d.shards == pre)
    ensures forall x :: x in records ==>
              && d.pending == map[x.0 := x.1] && x.1 == Record(false, x.1.images)
              && Undoes(x.1.images, d.shards, pre)
  {
    hide Undoes;
    if d.pending != map[] {
      var id :| id in d.pending && d.pending == map[id := d.pending[id]]
                && !d.pending[id].committed && Undoes(d.pending[id].images, d.shards, pre);
      forall x | x in records
        ensures x.0 == id
      {
        assert x.0 in d.pending;
      }
    }
  }

  lemma ListedForward(d: Disk, records: seq<(Id, Record)>, post: seq<Store>)
    requires Listing(records, d.pending) && d.pending.Keys * d.done.Keys == {} && RollsForward(d, post)
    ensures forall x :: x in records ==> x.1.committed
    ensures RollsForward(Disk(d.shards, d.pending, map[]), post) && d.shards == post
  {
    forall id | id in d.pending
      ensures d.pending[id].committed
    {
      assert id !in d.pending.Keys * d.done.Keys;
    }
  }

  /** The records are the pending files, each once. */
  ghost predicate Listing(records: seq<(Id, Record)>, pending: map<Id, Record>) {
    && (forall x :: x in records ==> x.0 in pending && x.1 == pending[x.0])
    && Ids(records) == pending.Keys
    && DistinctIds(records)
  }

  ghost predicate DistinctIds(records: seq<(Id, Record)>) {
    forall i, j :: 0 <= i < j < |records| ==> records[i].0 != records[j].0
  }

  lemma UndoSize(images: seq<PreImage>, shards: seq<Store>, pre: seq<Store>)
    requires Undoes(images, shards, pre)
    ensures |shards| == |pre|
  {
  }

  lemma NoOps(m: Store)
    ensures ApplyBatch(m, []) == m
  {
  }

  lemma ImagesInRange(images: seq<PreImage>, shards: seq<Store>, pre: seq<Store>)
    requires Undoes(images, shards, pre)
    ensures forall i :: 0 <= i < |images| ==> images[i].shard < |shards|
  {
    assert forall i :: 0 <= i < |images| ==> images[i] in images;
  }

  /** Rolling back every shard with images leaves nothing of the transaction. */
  lemma AllUndone(images: seq<PreImage>, was: seq<Store>, pre: seq<Store>, applied: seq<nat>)
    requires Undoes(images, was, pre)
    requires forall s :: s in applied <==> exists i :: 0 <= i < |images| && images[i].shard == s
    ensures Restored(was, pre, applied) == pre
  {
    forall i | 0 <= i < |pre|
      ensures Restored(was, pre, applied)[i] == pre[i]
    {
      if i !in applied {
        assert forall k :: !Imaged(images, i, k);
        SameEverywhere(was[i], pre[i]);
      }
    }
  }

  lemma NothingWritten(images: seq<PreImage>, pre: seq<Store>)
    requires forall img :: img in images ==> ImageOf(img, pre)
    ensures Undoes(images, pre, pre)
  {
  }

  lemma PendingRollsBack(d: Disk, id: Id, images: seq<PreImage>, pre: seq<Store>)
    requires d.done == map[] && d.pending == map[id := Record(false, images)] && Undoes(images, d.shards, pre)
    ensures RollsBack(d, pre)
  {
    assert id in d.pending;
  }

  lemma PendingSafe(trace: seq<Disk>, d: Disk, id: Id, images: seq<PreImage>, pre: seq<Store>, post: seq<Store>)
    requires AllSafe(trace, pre, post)
    requires d.done == map[] && d.pending == map[id := Record(false, images)] && Undoes(images, d.shards, pre)
    ensures AllSafe(trace + [d], pre, post)
  {
    hide RollsBack, RollsForward, Undoes;
    PendingRollsBack(d, id, images, pre);
  }

  /** The states added since was all keep the journal as given and can be undone. */
  ghost predicate Undoing(was: seq<Disk>, now: seq<Disk>, images: seq<PreImage>, pre: seq<Store>,
                          pending: map<Id, Record>, done: map<Id, Record>) {
    was <= now && forall j :: |was| <= j < |now| ==>
      now[j] == Disk(now[j].shards, pending, done) && Undoes(images, now[j].shards, pre)
  }

  lemma UndoingNone(was: seq<Disk>, images: seq<PreImage>, pre: seq<Store>, pending: map<Id, Record>, done: map<Id, Record>)
    ensures Undoing(was, was, images, pre, pending, done)
  {
  }

  lemma UndoingOne(was: seq<Disk>, now: seq<Disk>, images: seq<PreImage>, pre: seq<Store>,
                   pending: map<Id, Record>, done: map<Id, Record>, d: Disk)
    requires Undoing(was, now, images, pre, pending, done)
    requires d == Disk(d.shards, pending, done) && Undoes(images, d.shards, pre)
    ensures Undoing(was, now + [d], images, pre, pending, done)
  {
    hide Undoes;
  }

  lemma UndoingSafe(was: seq<Disk>, now: seq<Disk>, images: seq<PreImage>, pre: seq<Store>, post: seq<Store>, id: Id)
    requires AllSafe(was, pre, post) && Undoing(was, now, images, pre, map[id := Record(false, images)], map[])
    ensures was <= now && AllSafe(now, pre, post)
  {
    hide Undoes, RollsBack, RollsForward;
    forall j | |was| <= j < |now|
      ensures Safe(now[j], pre, post)
    {
      PendingRollsBack(now[j], id, images, pre);
    }
  }

  /** These shards with those listed returned to pre. */
  ghost function Restored(shards: seq<Store>, pre: seq<Store>, ids: seq<nat>): (r: seq<Store>)
    requires |shards| == |pre|
    ensures |r| == |pre|
  {
    seq(|pre|, i requires 0 <= i < |pre| => if i in ids then pre[i] else shards[i])
  }

  lemma RestoredNone(shards: seq<Store>, pre: seq<Store>)
    requires |shards| == |pre|
    ensures Restored(shards, pre, []) == shards
  {
  }

  lemma RestoredOne(shards: seq<Store>, pre: seq<Store>, ids: seq<nat>, s: nat)
    requires |shards| == |pre| && s < |pre|
    ensures Restored(shards, pre, [s] + ids) == Restored(shards, pre, ids)[s := pre[s]]
  {
  }

  lemma PartlyEnds(pre: seq<Store>, batches: seq<seq<Op>>)
    requires |batches| == |pre|
    ensures Partly(pre, batches, 0) == pre && Partly(pre, batches, |pre|) == Applied(pre, batches)
  {
    assert pre[..|pre|] == pre && batches[..|pre|] == batches;
  }

  lemma PartlyNext(pre: seq<Store>, batches: seq<seq<Op>>, i: nat)
    requires |batches| == |pre| && i < |pre|
    ensures var mid := Partly(pre, batches, i);
            && mid[i] == pre[i] && Partly(pre, batches, i + 1) == mid[i := ApplyBatch(pre[i], batches[i])]
            && (batches[i] == [] ==> Partly(pre, batches, i + 1) == mid)
  {
    NoOps(pre[i]);
    var mid, next := Partly(pre, batches, i), Partly(pre, batches, i + 1);
    assert next == mid[i := ApplyBatch(pre[i], batches[i])];
  }

  lemma RolledBack(pre: seq<Store>, batches: seq<seq<Op>>, n: nat, applied: seq<nat>)
    requires |batches| == |pre| && n <= |pre|
    requires forall s: nat :: s in applied <==> s < n && batches[s] != []
    ensures Restored(Partly(pre, batches, n), pre, applied) == pre
  {
    forall i | 0 <= i < |pre|
      ensures Restored(Partly(pre, batches, n), pre, applied)[i] == pre[i]
    {
      if i < n && i !in applied {
        NoOps(pre[i]);
      }
    }
  }

  /** What the images say for a shard, when a map of batches is asked. */
  function BatchAt(batches: map<nat, seq<Op>>, shard: nat): seq<Op> {
    if shard in batches then batches[shard] else []
  }

  lemma ImagedAppend(images: seq<PreImage>, img: PreImage)
    ensures forall s, k :: Imaged(images + [img], s, k) <==> Imaged(images, s, k) || (img.shard == s && img.key == k)
  {
    var all := images + [img];
    forall s, k
      ensures Imaged(all, s, k) <==> Imaged(images, s, k) || (img.shard == s && img.key == k)
    {
      if i :| 0 <= i < |images| && images[i].shard == s && images[i].key == k {
        assert all[i] == images[i];
      }
      if img.shard == s && img.key == k {
        assert all[|images|] == img;
      }
      if i :| 0 <= i < |all| && all[i].shard == s && all[i].key == k {
        assert i < |images| ==> images[i] == all[i];
      }
    }
  }
}
