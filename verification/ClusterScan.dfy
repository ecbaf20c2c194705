// Scans over all shards: the union of what they hold, the owner's value first.
module ClusterScan {
  import opened Keys
  import opened Shards
  import opened Routing
  import opened Txn
  import Cluster
  import opened Migration

  predicate Ranged(k: Bytes, start: Bytes, end: Bytes) {
    !Reserved(k) && !Less(k, start) && (end == [] || Less(k, end))
  }

  /** What the first n shards contribute for k: a later shard counts only if it is the owner. */
  function Gathered(env: Env, plan: Plan, shards: seq<Store>, n: nat, k: Bytes): Option<Bytes>
    requires n <= |shards|
  {
    if n == 0 then None
    else
      var before := Gathered(env, plan, shards, n - 1, k);
      if k in shards[n - 1] && (before.None? || RouteForKey(env, plan, k).primary == n - 1) then Some(shards[n - 1][k])
      else before
  }

  /** The map the scan builds before sorting. */
  method Gather(env: Env, plan: Plan, shards: seq<Store>, start: Bytes, end: Bytes) returns (all: map<Bytes, Bytes>)
    ensures forall k :: (if Ranged(k, start, end) then At(all, k) == Gathered(env, plan, shards, |shards|, k) else k !in all)
  {
    hide Ranged;
    all := map[];
    for i := 0 to |shards|
      invariant forall k :: (if Ranged(k, start, end) then At(all, k) == Gathered(env, plan, shards, i, k) else k !in all)
    {
      all := GatherShard(env, plan, shards, start, end, i, all);
    }
  }

  /** The items of one shard: a key already there is replaced only by its owner's. */
  method GatherShard(env: Env, plan: Plan, shards: seq<Store>, start: Bytes, end: Bytes, i: nat, was: map<Bytes, Bytes>)
      returns (all: map<Bytes, Bytes>)
    requires i < |shards|
    requires forall k :: (if Ranged(k, start, end) then At(was, k) == Gathered(env, plan, shards, i, k) else k !in was)
    ensures forall k :: (if Ranged(k, start, end) then At(all, k) == Gathered(env, plan, shards, i + 1, k) else k !in all)
  {
    hide Ranged, RouteForKey;
    all := was;
    var todo := set k | k in shards[i] && Ranged(k, start, end);
    ghost var items := todo;
    while todo != {}
      invariant todo <= items
      invariant forall k :: (if !Ranged(k, start, end) then k !in all
                             else At(all, k) == Gathered(env, plan, shards, if k in items && k !in todo then i + 1 else i, k))
      decreases todo
    {
      var k :| k in todo;
      todo := todo - {k};
      var primary := RouteForKey(env, plan, k).primary;
      if k !in all || i == primary {
        all := all[k := shards[i][k]];
      }
    }
    forall k | Ranged(k, start, end)
      ensures At(all, k) == Gathered(env, plan, shards, i + 1, k)
    {
      if k !in shards[i] {
        assert Gathered(env, plan, shards, i + 1, k) == Gathered(env, plan, shards, i, k);
      }
    }
  }

  ghost predicate Rising(ks: seq<Bytes>) {
    forall i, j :: 0 <= i < j < |ks| ==> Less(ks[i], ks[j])
  }

  method Least(ks: set<Bytes>) returns (m: Bytes)
    requires ks != {}
    ensures m in ks && forall k :: k in ks && k != m ==> Less(m, k)
  {
    hide Less;
    LessIsTotalOrder();
    m :| m in ks;
    var todo := ks - {m};
    while todo != {}
      invariant m in ks && m !in todo && todo <= ks
      invariant forall k :: k in ks && k !in todo && k != m ==> Less(m, k)
      decreases todo
    {
      var k :| k in todo;
      todo := todo - {k};
      if Less(k, m) { m := k; }
    }
  }

  method SortedKeys(ks: set<Bytes>) returns (r: seq<Bytes>)
    ensures Rising(r) && forall k :: k in r <==> k in ks
  {
    hide Less;
    r := [];
    var todo := ks;
    while todo != {}
      invariant todo <= ks && Rising(r) && (forall k :: k in r <==> k in ks && k !in todo)
      invariant forall a, b :: a in r && b in todo ==> Less(a, b)
      decreases todo
    {
      var m := Least(todo);
      r := r + [m];
      todo := todo - {m};
    }
  }

  /** The plan a scan goes by: the stored one, or the default when that cannot be read. */
  function ScanPlan(env: Env, shards: seq<Store>): (p: Plan)
    ensures shards != [] ==> Normal(p, |shards|)
  {
    if shards == [] then DefaultPlan(1, env.slots)
    else
      match LoadPlan(env, shards)
      case Some(p) => LoadedIsNormal(env, shards); p
      case None => DefaultIsNormal(|shards|, env.slots); DefaultPlan(|shards|, env.slots)
  }

  /** ScanWithConsistency: the gathered keys in order, cut to the limit. */
  method ScanShards(env: Env, shards: seq<Store>, start: Bytes, end: Bytes, limit: int)
      returns (results: seq<(Bytes, Bytes)>)
    ensures forall i, j :: 0 <= i < j < |results| ==> Less(results[i].0, results[j].0)
    ensures forall x :: x in results ==> Ranged(x.0, start, end) && Shown(env, shards, x.0) == Some(x.1)
    ensures limit > 0 ==> |results| <= limit
    ensures forall k :: Ranged(k, start, end) && Shown(env, shards, k).Some? ==>
              || (exists x :: x in results && x.0 == k)
              || (limit > 0 && |results| == limit && forall x :: x in results ==> Less(x.0, k))
  {
    hide LoadPlan, DefaultPlan;
    var plan := ScanPlan(env, shards);
    hide Less, Ranged, Gathered;
    var all := Gather(env, plan, shards, start, end);
    var keys := SortedKeys(all.Keys);
    var full := seq(|keys|, i requires 0 <= i < |keys| && keys[i] in all => (keys[i], all[keys[i]]));
    assert forall i :: 0 <= i < |keys| ==> full[i] == (keys[i], all[keys[i]]);
    results := if limit > 0 && |full| > limit then full[..limit] else full;
    forall x | x in results
      ensures Ranged(x.0, start, end) && Shown(env, shards, x.0) == Some(x.1)
    {
      var i :| 0 <= i < |results| && results[i] == x;
      assert keys[i] in all && x == (keys[i], all[keys[i]]);
    }
    forall k | Ranged(k, start, end) && Shown(env, shards, k).Some?
      ensures || (exists x :: x in results && x.0 == k)
              || (limit > 0 && |results| == limit && forall x :: x in results ==> Less(x.0, k))
    {
      assert k in all;
      var i :| 0 <= i < |keys| && keys[i] == k;
      if i < |results| {
        assert results[i] in results && results[i].0 == k;
      } else {
        forall x | x in results
          ensures Less(x.0, k)
        {
          var j :| 0 <= j < |results| && results[j] == x;
          assert x.0 == keys[j];
        }
      }
    }
  }

  /** What a scan shows of k. */
  function Shown(env: Env, shards: seq<Store>, k: Bytes): Option<Bytes> {
    Gathered(env, ScanPlan(env, shards), shards, |shards|, k)
  }

  lemma {:induction false} GatheredIs(env: Env, plan: Plan, shards: seq<Store>, n: nat, k: Bytes)
    requires n <= |shards|
    ensures Gathered(env, plan, shards, n, k).None? <==> forall i :: 0 <= i < n ==> k !in shards[i]
    ensures var o := RouteForKey(env, plan, k).primary;
            if 0 <= o < n && k in shards[o] then Gathered(env, plan, shards, n, k) == Some(shards[o][k])
            else forall i :: 0 <= i < n && k in shards[i] && (forall j :: 0 <= j < i ==> k !in shards[j]) ==>
                   Gathered(env, plan, shards, n, k) == Some(shards[i][k])
  {
    hide RouteForKey;
    if n > 0 { GatheredIs(env, plan, shards, n - 1, k); }
  }

  /** The shard a scan takes k from: the owner in its plan, or else the first that holds it. */
  ghost predicate Source(env: Env, shards: seq<Store>, k: Bytes, i: nat) {
    && i < |shards| && k in shards[i]
    && (i == RouteForKey(env, ScanPlan(env, shards), k).primary
        || (k !in shards[RouteForKey(env, ScanPlan(env, shards), k).primary] && forall j :: 0 <= j < i ==> k !in shards[j]))
  }

  /** A scan takes k from a shard that holds something else than the one a lookup reads. */
  ghost predicate Astray(env: Env, shards: seq<Store>, k: Bytes)
    requires shards != []
  {
    exists i: nat :: Source(env, shards, k, i) && !SameAt(shards[i], shards[RouteOf(env, shards, k).primary], k)
  }

  /** The scan shows a key as a lookup does exactly when the key is not astray; also without a readable plan. */
  lemma ScanAgreesWithLookup(env: Env, shards: seq<Store>, k: Bytes)
    requires shards != [] && !Reserved(k)
    ensures Shown(env, shards, k) == Lookup(env, shards, k) <==> !Astray(env, shards, k)
  {
    hide LoadPlan, RouteForKey, ScanPlan, RouteOf, Gathered;
    var plan := ScanPlan(env, shards);
    PlanRoutes(env, shards, k);
    GatheredIs(env, plan, shards, |shards|, k);
    if x :| 0 <= x < |shards| && k in shards[x] {
      var i := SourceOf(env, shards, k, x);
      assert Source(env, shards, k, i);
      forall j: nat | Source(env, shards, k, j)
        ensures shards[j][k] == shards[i][k]
      {
        assert Shown(env, shards, k) == Some(shards[i][k]) == Some(shards[j][k]);
      }
    }
  }

  lemma PlanRoutes(env: Env, shards: seq<Store>, k: Bytes)
    requires shards != []
    ensures 0 <= RouteForKey(env, ScanPlan(env, shards), k).primary < |shards|
  {
    hide ScanPlan, SlotForKey;
    assert Normal(ScanPlan(env, shards), |shards|);
  }

  lemma {:induction false} SourceOf(env: Env, shards: seq<Store>, k: Bytes, x: nat) returns (i: nat)
    requires shards != [] && x < |shards| && k in shards[x]
    ensures Source(env, shards, k, i)
  {
    hide RouteForKey, ScanPlan;
    PlanRoutes(env, shards, k);
    var o := RouteForKey(env, ScanPlan(env, shards), k).primary;
    if k in shards[o] {
      return o;
    }
    i := 0;
    while k !in shards[i]
      invariant i <= x && forall j :: 0 <= j < i ==> k !in shards[j]
      decreases x - i
    {
      i := i + 1;
    }
  }

  /** Some shard holds a key its owner does not. */
  ghost predicate Stray(env: Env, shards: seq<Store>, k: Bytes)
    requires shards != []
  {
    k !in shards[RouteOf(env, shards, k).primary] && exists i :: 0 <= i < |shards| && k in shards[i]
  }

  /** With a readable plan, where scan and lookup have the same owner, the keys astray are the strays. */
  lemma StrayIsAstray(env: Env, shards: seq<Store>, k: Bytes)
    requires shards != [] && LoadPlan(env, shards).Some?
    ensures Astray(env, shards, k) <==> Stray(env, shards, k)
  {
    hide LoadPlan, RouteForKey;
    SlotRoute(env, shards, k);
    if Stray(env, shards, k) {
      var x: nat :| x < |shards| && k in shards[x];
      var i := SourceOf(env, shards, k, x);
      assert Source(env, shards, k, i);
    }
  }

  lemma SlotRoute(env: Env, shards: seq<Store>, k: Bytes)
    requires shards != [] && LoadPlan(env, shards).Some?
    ensures RouteForKey(env, ScanPlan(env, shards), k).primary == RouteOf(env, shards, k).primary
  {
    hide LoadPlan;
    LoadedIsNormal(env, shards);
  }

  // ---- Migrations and strays ----

  /** A migration leaves no stray, wherever it is interrupted, if there was none before it. */
  lemma MigrationLeavesNoStray(env: Env, orig: seq<Store>, now: seq<Store>, k: Bytes)
    requires SameView(env, orig, now) && NoneNew(orig, now) && !Reserved(k) && !Stray(env, orig, k)
    ensures !Stray(env, now, k)
  {
    hide RouteOf;
    assert Lookup(env, now, k) == Lookup(env, orig, k);
  }

  /** A delete of a key that another shard still has a copy of, in a slot that is not moving. */
  lemma DeleteMakesStray(env: Env, shards: seq<Store>, k: Bytes, i: nat)
    requires shards != [] && !Reserved(k) && !RouteOf(env, shards, k).migrating
    requires i < |shards| && i != RouteOf(env, shards, k).primary && k in shards[i]
    ensures var now := Applied(shards, Cluster.Batches(env, shards, [Del(k)]));
            Lookup(env, now, k) == None && Stray(env, now, k)
  {
    hide RouteOf, ApplyBatch;
    var now := Applied(shards, Cluster.Batches(env, shards, [Del(k)]));
    Cluster.WriteIsOneMap(env, shards, [Del(k)], k);
    Cluster.PlanUntouched(env, shards, [Del(k)]);
    assert [Del(k)][..0] == [];
    assert Cluster.Routed(env, shards, [Del(k)], i) == [];
    NoOps(shards[i]);
  }

  /**
   * migrateSlot with its second copy failing at once, so that the slot goes back to its owner, then a
   * client's delete: the key is gone for lookups and comes back in scans.
   */
  method DeletedComesBack(n: ShardedNode, env: Env, plan: Plan, slot: int, target: int, k: Bytes, id: Id)
      returns (found: Option<Bytes>, listed: seq<(Bytes, Bytes)>)
    requires Faithful(env) && n.shards != [] && LoadPlan(env, n.shards) == Some(plan) && n.pending == map[] && n.done == map[]
    requires 0 <= slot < |plan.slots| && !plan.slots[slot].migrating && plan.slots[slot].owner != target
    requires 0 <= target < |n.shards| && InSlot(env, plan, slot, k) && k in n.shards[plan.slots[slot].owner]
    modifies n
    ensures found == None && exists x :: x in listed && x.0 == k
  {
    hide LoadPlan, RouteForKey, Lookup, Normalized, Normal, Replanned, Agree;
    ghost var orig := n.shards;
    n.trace := [n.Now()];
    var source := plan.slots[slot].owner;
    LoadedIsNormal(env, orig);
    SlotOwner(plan, slot, |orig|);
    var current := Normalize(WithSlot(plan, slot, Slot(source, true, target)), |n.shards|);
    WithSlotIs(plan, slot, Slot(source, true, target), |orig|);
    ReplannedShape(plan, current, slot, |orig|);
    Itself(env, plan, slot, n.shards[source]);
    var ok := Replan(n, env, plan, current, slot, false, orig);
    var next;
    ok, next := CopyStep(n, env, plan, slot, source, target, {}, 1, current, orig);
    OwnerHolds(env, orig, n.shards, plan, current, slot, k);
    AgreeAt(env, plan, slot, n.shards[target], n.shards[source], k);
    ghost var copied := n.shards;
    Revert(n, env, current, slot, source, false, orig);
    StillThere(copied, n.shards, target, k);
    ghost var p :| Seen(env, orig, p, n.shards, n.trace) && Settled(p, slot, source);
    SettledRoute(env, n.shards, plan, p, slot, source, k);
    ghost var reverted := n.shards;
    ok := Cluster.Write(n, env, [Del(k)], id, {});
    DeleteMakesStray(env, reverted, k, target);
    found := Lookup(env, n.shards, k);
    listed := ScanShards(env, n.shards, [], [], 0);
    HeldIsShown(env, n.shards, k);
  }

  lemma HeldIsShown(env: Env, shards: seq<Store>, k: Bytes)
    requires shards != [] && !Reserved(k) && Stray(env, shards, k)
    ensures Shown(env, shards, k).Some? && Ranged(k, [], [])
  {
    hide RouteForKey, ScanPlan, RouteOf, Reserved;
    GatheredIs(env, ScanPlan(env, shards), shards, |shards|, k);
  }

  /** While clients see the same, the owner holds a key it held. */
  lemma OwnerHolds(env: Env, orig: seq<Store>, now: seq<Store>, plan: Plan, p: Plan, slot: int, k: Bytes)
    requires orig != [] && LoadPlan(env, orig) == Some(plan) && SameView(env, orig, now) && LoadPlan(env, now) == Some(p)
    requires p.slotCount == plan.slotCount && 0 <= slot < |p.slots| && 0 <= slot < |plan.slots|
    requires InSlot(env, plan, slot, k) && 0 <= plan.slots[slot].owner < |orig| && k in orig[plan.slots[slot].owner]
    ensures 0 <= p.slots[slot].owner < |now| && k in now[p.slots[slot].owner]
  {
    hide LoadPlan, RouteForKey, Normal;
    RouteIsOwner(env, orig, plan, k);
    RouteIsOwner(env, now, p, k);
    SameSlots(env, plan, p, k);
    assert Lookup(env, now, k) == Lookup(env, orig, k);
  }

  lemma StillThere(was: seq<Store>, now: seq<Store>, i: nat, k: Bytes)
    requires was != [] && |now| == |was| && now[1..] == was[1..] && i < |was| && k in was[i] && !Reserved(k)
    requires forall x :: x != PLAN_KEY ==> SameAt(now[0], was[0], x)
    ensures k in now[i]
  {
    assert Reserved(PLAN_KEY) && k != PLAN_KEY;
    assert SameAt(now[0], was[0], k);
    assert i > 0 ==> now[i] == now[1..][i - 1] && was[i] == was[1..][i - 1];
  }

  lemma SettledRoute(env: Env, shards: seq<Store>, plan: Plan, p: Plan, slot: int, owner: int, k: Bytes)
    requires shards != [] && LoadPlan(env, shards) == Some(p) && p.slotCount == plan.slotCount
    requires Settled(p, slot, owner) && InSlot(env, plan, slot, k)
    ensures RouteOf(env, shards, k) == Route(owner, owner, false)
  {
    hide LoadPlan, RouteForKey, Normal;
    RouteIsOwner(env, shards, p, k);
    SameSlots(env, plan, p, k);
  }

  lemma AgreeAt(env: Env, plan: Plan, slot: int, a: Store, b: Store, k: Bytes)
    requires Agree(env, plan, slot, a, b) && InSlot(env, plan, slot, k)
    ensures SameAt(a, b, k)
  {
  }
}
