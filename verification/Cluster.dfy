// Client writes on a sharded node, and a write's fate across any schedule of crashes.
module Cluster {
  import opened Keys
  import opened Shards
  import opened Routing
  import opened Txn

  // ---- Splitting a batch over the shards ----

  /** An entry goes to its slot's owner, and also to the target while the slot moves. */
  predicate GoesTo(env: Env, shards: seq<Store>, k: Bytes, i: nat)
    requires shards != []
  {
    var r := RouteOf(env, shards, k);
    r.primary == i || (r.migrating && r.secondary == i)
  }

  function Routed(env: Env, shards: seq<Store>, ops: seq<Op>, i: nat): seq<Op>
    requires shards != []
  {
    if ops == [] then []
    else
      var n := |ops| - 1;
      Routed(env, shards, ops[..n], i) + if GoesTo(env, shards, ops[n].key, i) then [ops[n]] else []
  }

  function Batches(env: Env, shards: seq<Store>, ops: seq<Op>): (bs: seq<seq<Op>>)
    requires shards != []
    ensures |bs| == |shards| && forall i :: 0 <= i < |shards| ==> bs[i] == Routed(env, shards, ops, i)
  {
    seq(|shards|, i requires 0 <= i < |shards| => Routed(env, shards, ops, i))
  }

  /** One batch per shard, or nothing when a key is reserved. */
  method Split(env: Env, shards: seq<Store>, ops: seq<Op>) returns (r: Option<seq<seq<Op>>>)
    requires shards != []
    ensures r.None? <==> exists op :: op in ops && Reserved(op.key)
    ensures r.Some? ==> r.value == Batches(env, shards, ops)
  {
    hide RouteOf, Reserved, Routed;
    var batches: seq<seq<Op>> := seq(|shards|, i => []);
    NothingRouted(env, shards);
    for j := 0 to |ops|
      invariant batches == Batches(env, shards, ops[..j])
      invariant forall h :: 0 <= h < j ==> !Reserved(ops[h].key)
    {
      BatchesNext(env, shards, ops, j);
      if Reserved(ops[j].key) {
        assert ops[j] in ops;
        return None;
      }
      var r := RouteOf(env, shards, ops[j].key);
      batches := batches[r.primary := batches[r.primary] + [ops[j]]];
      if r.migrating && r.secondary != r.primary {
        batches := batches[r.secondary := batches[r.secondary] + [ops[j]]];
      }
    }
    assert ops[..|ops|] == ops;
    return Some(batches);
  }

  lemma NothingRouted(env: Env, shards: seq<Store>)
    requires shards != []
    ensures forall i :: Routed(env, shards, [], i) == []
  {
  }

  /** ShardedNode.Write; a child shard in faults fails its write. */
  method Write(n: ShardedNode, env: Env, ops: seq<Op>, id: Id, faults: set<nat>) returns (ok: bool)
    requires n.shards != [] && n.pending == map[] && n.done == map[]
    modifies n
    ensures n.pending == map[] && n.done == map[] && n.trace != []
    ensures var bs := Batches(env, old(n.shards), ops);
            ok <==> (forall op :: op in ops ==> !Reserved(op.key))
                    && forall i :: 0 <= i < |bs| && bs[i] != [] ==> i !in faults
    ensures n.shards == if ok then Applied(old(n.shards), Batches(env, old(n.shards), ops)) else old(n.shards)
    ensures AllSafe(n.trace, old(n.shards), Applied(old(n.shards), Batches(env, old(n.shards), ops)))
  {
    hide RouteOf, ApplyBatch, Reserved, Undoes;
    ghost var pre, all := n.shards, Batches(env, n.shards, ops);
    n.trace := [n.Now()];
    Clean(n.Now(), pre, Applied(pre, all));
    if ops == [] {
      NoBatches(env, pre);
      return true;
    }
    var split := Split(env, n.shards, ops);
    if split.None? {
      return false;
    }
    var batches := split.value;
    var only := OnlyBatch(batches);
    if only.Some? {
      if only.value in faults {
        return false;
      }
      n.WriteShard(only.value, batches[only.value]);
      OneBatch(pre, batches, only.value);
      Clean(n.Now(), pre, Applied(pre, all));
      return true;
    }
    ok := n.WriteCrossShardBatch(id, batches, faults);
  }

  /** The one shard with anything to write, if there is just one. */
  method OnlyBatch(batches: seq<seq<Op>>) returns (r: Option<nat>)
    ensures r.Some? ==> r.value < |batches| && forall i :: 0 <= i < |batches| ==> (batches[i] != [] <==> i == r.value)
    ensures r.None? ==> forall i :: 0 <= i < |batches| && batches[i] != [] ==>
              exists j :: 0 <= j < |batches| && j != i && batches[j] != []
  {
    r := None;
    for i := 0 to |batches|
      invariant r.Some? ==> r.value < i && batches[r.value] != []
      invariant forall j :: 0 <= j < i ==> (batches[j] != [] <==> r.Some? && j == r.value)
    {
      if batches[i] != [] {
        if r.Some? {
          assert batches[r.value] != [];
          return None;
        }
        r := Some(i);
      }
    }
  }

  lemma BatchesNext(env: Env, shards: seq<Store>, ops: seq<Op>, j: nat)
    requires shards != [] && j < |ops|
    ensures var now, next := Batches(env, shards, ops[..j]), Batches(env, shards, ops[..j + 1]);
            forall i :: 0 <= i < |shards| ==>
              next[i] == if GoesTo(env, shards, ops[j].key, i) then now[i] + [ops[j]] else now[i]
  {
    hide RouteOf;
    assert ops[..j + 1][..j] == ops[..j] && ops[..j + 1][j] == ops[j];
  }

  lemma NoBatches(env: Env, pre: seq<Store>)
    requires pre != []
    ensures Applied(pre, Batches(env, pre, [])) == pre
  {
    hide ApplyBatch;
    forall i | 0 <= i < |pre|
      ensures Applied(pre, Batches(env, pre, []))[i] == pre[i]
    {
      NoOps(pre[i]);
    }
  }

  lemma OneBatch(pre: seq<Store>, batches: seq<seq<Op>>, i: nat)
    requires |batches| == |pre| && i < |pre| && forall j :: 0 <= j < |pre| && j != i ==> batches[j] == []
    ensures Applied(pre, batches) == pre[i := ApplyBatch(pre[i], batches[i])]
  {
    hide ApplyBatch;
    forall j | 0 <= j < |pre| && j != i
      ensures Applied(pre, batches)[j] == pre[j]
    {
      NoOps(pre[j]);
    }
  }

  // ---- What a client sees ----

  /** What the last of these operations on k leaves. */
  function Effect(v: Option<Bytes>, ops: seq<Op>, k: Bytes): Option<Bytes> {
    if ops == [] then v
    else
      var n := |ops| - 1;
      if ops[n].key != k then Effect(v, ops[..n], k)
      else if ops[n].Put? then Some(ops[n].value)
      else None
  }

  lemma {:induction false} BatchEffect(m: Store, ops: seq<Op>, k: Bytes)
    ensures At(ApplyBatch(m, ops), k) == Effect(At(m, k), ops, k)
  {
    if ops != [] { BatchEffect(m, ops[..|ops| - 1], k); }
  }

  /** A shard that gets k's entries sees the same of k as the whole batch says. */
  lemma {:induction false} RoutedEffect(env: Env, shards: seq<Store>, ops: seq<Op>, i: nat, v: Option<Bytes>, k: Bytes)
    requires shards != [] && GoesTo(env, shards, k, i)
    ensures Effect(v, Routed(env, shards, ops, i), k) == Effect(v, ops, k)
  {
    hide RouteOf;
    if ops != [] {
      var n := |ops| - 1;
      RoutedEffect(env, shards, ops[..n], i, v, k);
      var front := Routed(env, shards, ops[..n], i);
      assert (front + [ops[n]])[..|front|] == front;
      assert front + [] == front;
    }
  }

  lemma PlanUntouched(env: Env, pre: seq<Store>, ops: seq<Op>)
    requires pre != [] && forall op :: op in ops ==> !Reserved(op.key)
    ensures var post := Applied(pre, Batches(env, pre, ops));
            LoadPlan(env, post) == LoadPlan(env, pre) && forall k :: RouteOf(env, post, k) == RouteOf(env, pre, k)
  {
    hide RouteForKey, Normalized, ApplyBatch;
    RoutedKeys(env, pre, ops, 0);
    UntouchedKey(pre[0], Routed(env, pre, ops, 0), PLAN_KEY);
  }

  lemma {:induction false} RoutedKeys(env: Env, shards: seq<Store>, ops: seq<Op>, i: nat)
    requires shards != [] && forall op :: op in ops ==> !Reserved(op.key)
    ensures !Touches(Routed(env, shards, ops, i), PLAN_KEY)
  {
    hide RouteOf;
    if ops != [] {
      var n := |ops| - 1;
      RoutedKeys(env, shards, ops[..n], i);
      assert ops[n] in ops && Reserved(PLAN_KEY);
    }
  }

  /** Through the routing, the shards behave like one map given the same batch. */
  lemma WriteIsOneMap(env: Env, pre: seq<Store>, ops: seq<Op>, k: Bytes)
    requires pre != [] && !Reserved(k) && forall op :: op in ops ==> !Reserved(op.key)
    ensures Lookup(env, Applied(pre, Batches(env, pre, ops)), k) == Effect(Lookup(env, pre, k), ops, k)
  {
    hide RouteOf, Routed, ApplyBatch, Reserved;
    PlanUntouched(env, pre, ops);
    var i := RouteOf(env, pre, k).primary;
    BatchEffect(pre[i], Routed(env, pre, ops, i), k);
    RoutedEffect(env, pre, ops, i, At(pre[i], k), k);
  }

  /** While a slot moves, a write keeps its owner and its target in agreement. */
  lemma WriteKeepsAgreement(env: Env, pre: seq<Store>, ops: seq<Op>, k: Bytes)
    requires pre != [] && RouteOf(env, pre, k).migrating
    requires var r := RouteOf(env, pre, k); SameAt(pre[r.primary], pre[r.secondary], k)
    ensures var post, r := Applied(pre, Batches(env, pre, ops)), RouteOf(env, pre, k);
            SameAt(post[r.primary], post[r.secondary], k)
  {
    hide RouteOf, Routed, ApplyBatch;
    var r := RouteOf(env, pre, k);
    var p, q := r.primary, r.secondary;
    BatchEffect(pre[p], Routed(env, pre, ops, p), k);
    BatchEffect(pre[q], Routed(env, pre, ops, q), k);
    RoutedEffect(env, pre, ops, p, At(pre[p], k), k);
    RoutedEffect(env, pre, ops, q, At(pre[q], k), k);
  }

  // ---- Crashes ----

  /**
   * A cross-shard write that may crash after any of its durable effects, then recoveries that may
   * each crash in the same way, then recovery retried until it succeeds.
   */
  method Survive(pre: seq<Store>, batches: seq<seq<Op>>, id: Id, faults: set<nat>, crash: Option<nat>, crashes: seq<nat>)
      returns (shards: seq<Store>, returned: bool)
    requires |batches| == |pre|
    ensures shards == pre || shards == Applied(pre, batches)
    ensures returned ==> shards == Applied(pre, batches)
    ensures returned <==> crash.None? && forall i :: 0 <= i < |batches| && batches[i] != [] ==> i !in faults
    ensures crash.None? && !returned ==> shards == pre
  {
    hide RollsBack, RollsForward, Applied;
    ghost var post := Applied(pre, batches);
    var n := new ShardedNode(Disk(pre, map[], map[]));
    returned := n.WriteCrossShardBatch(id, batches, faults);
    Clean(n.Now(), pre, post);
    ghost var low := if returned && crash.None? then post else pre;
    ghost var high := if !returned && crash.None? then pre else post;
    Clean(n.Now(), low, high);
    if crash.Some? {
      returned := false;
      n := new ShardedNode(n.trace[if crash.value < |n.trace| then crash.value else 0]);
    }
    for i := 0 to |crashes|
      invariant fresh(n) && Safe(n.Now(), low, high)
    {
      var _ := n.RecoverTransactions(low, high);
      n := new ShardedNode(n.trace[if crashes[i] < |n.trace| then crashes[i] else 0]);
    }
    var done := n.RecoverTransactions(low, high);
    if !done {
      done := n.RecoverTransactions(low, high);
    }
    Clean(n.Now(), low, high);
    shards := n.shards;
  }
}
