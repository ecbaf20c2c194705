// Moving a slot between shards: at every step, and on every way out, clients see the same map.
module Migration {
  import opened Keys
  import opened Shards
  import opened Routing
  import opened Txn

  const BATCH: nat := 128

  predicate InSlot(env: Env, plan: Plan, slot: int, k: Bytes) {
    !Reserved(k) && SlotForKey(env, plan, k) == slot
  }

  /** m is a with some of the slot's keys already as in b. */
  ghost predicate Between(env: Env, plan: Plan, slot: int, a: Store, b: Store, m: Store) {
    forall k :: (if InSlot(env, plan, slot, k) then SameAt(m, a, k) || SameAt(m, b, k) else SameAt(m, a, k))
  }

  /** Only shard i has changed, and only towards b's values of the slot. */
  ghost predicate Drifted(env: Env, plan: Plan, slot: int, i: int, b: Store, was: seq<Store>, now: seq<Store>) {
    0 <= i < |was| && |now| == |was| && now == was[i := now[i]] && Between(env, plan, slot, was[i], b, now[i])
  }

  ghost predicate Agree(env: Env, plan: Plan, slot: int, a: Store, b: Store) {
    forall k :: InSlot(env, plan, slot, k) ==> SameAt(a, b, k)
  }

  lemma BetweenSelf(env: Env, plan: Plan, slot: int, a: Store, b: Store)
    ensures Between(env, plan, slot, a, b, a)
  {
  }

  lemma BetweenPut(env: Env, plan: Plan, slot: int, a: Store, b: Store, m: Store, k: Bytes)
    requires Between(env, plan, slot, a, b, m) && InSlot(env, plan, slot, k) && k in b
    ensures Between(env, plan, slot, a, b, m[k := b[k]])
  {
    hide InSlot;
    var m' := m[k := b[k]];
    forall x
      ensures if InSlot(env, plan, slot, x) then SameAt(m', a, x) || SameAt(m', b, x) else SameAt(m', a, x)
    {
      assert if InSlot(env, plan, slot, x) then SameAt(m, a, x) || SameAt(m, b, x) else SameAt(m, a, x);
    }
  }

  lemma BetweenDel(env: Env, plan: Plan, slot: int, a: Store, b: Store, m: Store, k: Bytes)
    requires Between(env, plan, slot, a, b, m) && InSlot(env, plan, slot, k) && k !in b
    ensures Between(env, plan, slot, a, b, m - {k})
  {
    hide InSlot;
    var m' := m - {k};
    forall x
      ensures if InSlot(env, plan, slot, x) then SameAt(m', a, x) || SameAt(m', b, x) else SameAt(m', a, x)
    {
      assert if InSlot(env, plan, slot, x) then SameAt(m, a, x) || SameAt(m, b, x) else SameAt(m, a, x);
    }
  }

  lemma ApplyOne(m: Store, ops: seq<Op>, op: Op)
    ensures ApplyBatch(m, ops + [op]) == ApplyOp(ApplyBatch(m, ops), op)
    ensures ApplyBatch(m, []) == m
  {
    assert (ops + [op])[..|ops|] == ops;
  }

  // ---- What clients see ----

  ghost predicate SameView(env: Env, a: seq<Store>, b: seq<Store>) {
    a != [] && |b| == |a| && forall k :: Lookup(env, b, k) == Lookup(env, a, k)
  }

  /** The plan is under a reserved key, which no slot has. */
  lemma PlanSurvives(env: Env, plan: Plan, slot: int, i: int, b: Store, was: seq<Store>, now: seq<Store>)
    requires Drifted(env, plan, slot, i, b, was, now)
    ensures LoadPlan(env, now) == LoadPlan(env, was)
  {
    assert Reserved(PLAN_KEY) && !InSlot(env, plan, slot, PLAN_KEY);
    assert SameAt(now[0], was[0], PLAN_KEY);
  }

  /** A shard drifting towards b is as it was for every key it owns, if it does not own the slot or agrees with b. */
  lemma OwnedUntouched(env: Env, plan: Plan, p: Plan, slot: int, i: int, b: Store, was: seq<Store>, now: seq<Store>)
    requires Drifted(env, plan, slot, i, b, was, now) && LoadPlan(env, was) == Some(p)
    requires p.slotCount == plan.slotCount && 0 <= slot < |p.slots|
    requires p.slots[slot].owner != i || Agree(env, plan, slot, was[i], b)
    ensures LoadPlan(env, now) == Some(p) && SameView(env, was, now)
  {
    hide LoadPlan, RouteOf, Normal, SlotForKey;
    PlanSurvives(env, plan, slot, i, b, was, now);
    forall k
      ensures Lookup(env, now, k) == Lookup(env, was, k)
    {
      RouteIsOwner(env, was, p, k);
      RouteIsOwner(env, now, p, k);
      SameSlots(env, plan, p, k);
      assert InSlot(env, plan, slot, k) ==> SlotForKey(env, p, k) == slot;
      assert RouteOf(env, was, k).primary == i && !Reserved(k) ==> SameAt(now[i], was[i], k);
    }
  }

  /** p with one slot's entry replaced. */
  ghost predicate Replanned(p: Plan, q: Plan, slot: int, shards: int) {
    && Normal(p, shards) && Normal(q, shards) && q.slotCount == p.slotCount && 0 <= slot < |p.slots|
    && forall i :: 0 <= i < |p.slots| && i != slot ==> q.slots[i] == p.slots[i]
  }

  /** Changing one slot's entry changes nothing for clients when its old and new owners agree. */
  lemma PlanKeepsView(env: Env, was: seq<Store>, p: Plan, q: Plan, slot: int)
    requires Faithful(env) && was != [] && LoadPlan(env, was) == Some(p) && Replanned(p, q, slot, |was|)
    requires Agree(env, p, slot, was[p.slots[slot].owner], was[q.slots[slot].owner])
    ensures var now := was[0 := was[0][PLAN_KEY := env.encode(q)]];
            LoadPlan(env, now) == Some(q) && SameView(env, was, now)
  {
    hide LoadPlan, RouteOf, SlotForKey, Normalized;
    var now := was[0 := was[0][PLAN_KEY := env.encode(q)]];
    assert Normalized(q, |was|) == q by { NormalIsFixed(q, |was|); }
    PersistedIsLoaded(env, was, q);
    forall k
      ensures Lookup(env, now, k) == Lookup(env, was, k)
    {
      RouteIsOwner(env, was, p, k);
      RouteIsOwner(env, now, q, k);
      SameSlots(env, p, q, k);
      assert Reserved(PLAN_KEY);
      var s := SlotForKey(env, p, k);
      if s == slot && !Reserved(k) {
        assert InSlot(env, p, slot, k);
        assert SameAt(was[p.slots[slot].owner], was[q.slots[slot].owner], k);
      }
    }
  }

  lemma NormalIsFixed(p: Plan, shards: int)
    requires Normal(p, shards)
    ensures Normalized(p, shards) == p
  {
  }

  lemma SameSlots(env: Env, p: Plan, q: Plan, k: Bytes)
    requires q.slotCount == p.slotCount
    ensures SlotForKey(env, q, k) == SlotForKey(env, p, k)
  {
  }

  // ---- The steps ----

  /** Every state added to the trace since before has drifted no further than that. */
  ghost predicate Through(env: Env, plan: Plan, slot: int, i: int, b: Store, was: seq<Store>,
                          before: seq<Disk>, after: seq<Disk>) {
    before <= after && forall j :: |before| <= j < |after| ==> Drifted(env, plan, slot, i, b, was, after[j].shards)
  }

  /** With the pending batch written, shard i would agree with b on every key of the slot not left to do. */
  ghost predicate Going(env: Env, plan: Plan, slot: int, i: int, b: Store, was: seq<Store>, now: seq<Store>,
                        batch: seq<Op>, left: set<Bytes>) {
    && Drifted(env, plan, slot, i, b, was, now)
    && var m := ApplyBatch(now[i], batch);
       && Between(env, plan, slot, was[i], b, m)
       && forall k :: InSlot(env, plan, slot, k) && k !in left ==> SameAt(m, b, k)
  }

  lemma GoingStarts(env: Env, plan: Plan, slot: int, i: int, b: Store, was: seq<Store>, left: set<Bytes>, trace: seq<Disk>)
    requires 0 <= i < |was| && forall k :: InSlot(env, plan, slot, k) && (k in was[i] || k in b) ==> k in left
    ensures Going(env, plan, slot, i, b, was, was, [], left) && Through(env, plan, slot, i, b, was, trace, trace)
  {
    hide InSlot;
  }

  lemma GoingPut(env: Env, plan: Plan, slot: int, i: int, b: Store, was: seq<Store>, now: seq<Store>,
                 batch: seq<Op>, left: set<Bytes>, k: Bytes)
    requires Going(env, plan, slot, i, b, was, now, batch, left) && InSlot(env, plan, slot, k) && k in b
    ensures Going(env, plan, slot, i, b, was, now, batch + [Put(k, b[k])], left - {k})
  {
    hide InSlot, ApplyBatch, Between;
    ApplyOne(now[i], batch, Put(k, b[k]));
    BetweenPut(env, plan, slot, was[i], b, ApplyBatch(now[i], batch), k);
  }

  lemma GoingDel(env: Env, plan: Plan, slot: int, i: int, b: Store, was: seq<Store>, now: seq<Store>,
                 batch: seq<Op>, left: set<Bytes>, k: Bytes)
    requires Going(env, plan, slot, i, b, was, now, batch, left) && InSlot(env, plan, slot, k) && k !in b
    ensures Going(env, plan, slot, i, b, was, now, batch + [Del(k)], left - {k})
  {
    hide InSlot, ApplyBatch, Between;
    ApplyOne(now[i], batch, Del(k));
    BetweenDel(env, plan, slot, was[i], b, ApplyBatch(now[i], batch), k);
  }

  lemma GoingShape(env: Env, plan: Plan, slot: int, i: int, b: Store, was: seq<Store>, now: seq<Store>,
                   batch: seq<Op>, left: set<Bytes>)
    requires Going(env, plan, slot, i, b, was, now, batch, left)
    ensures Drifted(env, plan, slot, i, b, was, now)
    ensures batch == [] && left == {} ==> Agree(env, plan, slot, now[i], b)
  {
    hide InSlot;
  }

  /** Writes a full or final batch; a child that fails leaves the shard as it was. */
  method FlushBatch(n: ShardedNode, env: Env, plan: Plan, slot: int, i: int, batch: seq<Op>, fails: bool,
                    ghost b: Store, ghost was: seq<Store>, ghost left: set<Bytes>, ghost before: seq<Disk>) returns (ok: bool)
    requires Going(env, plan, slot, i, b, was, n.shards, batch, left)
    requires Through(env, plan, slot, i, b, was, before, n.trace)
    modifies n`shards, n`trace
    ensures Going(env, plan, slot, i, b, was, n.shards, if ok then [] else batch, left)
    ensures Through(env, plan, slot, i, b, was, before, n.trace)
    ensures ok <==> batch == [] || !fails
  {
    hide InSlot, ApplyBatch, Between;
    if batch == [] {
      return true;
    }
    if fails {
      return false;
    }
    n.WriteShard(i, batch);
    ApplyOne(n.shards[i], [], Del([]));
    return true;
  }

  /** copySlotKeys: the target ends up with exactly the source's keys of the slot. */
  method CopySlotKeys(n: ShardedNode, env: Env, plan: Plan, slot: int, source: int, target: int,
                      faults: set<nat>, at: nat) returns (ok: bool, next: nat)
    modifies n`shards, n`trace
    ensures |n.shards| == |old(n.shards)|
    ensures ok ==> 0 <= source < |n.shards| && 0 <= target < |n.shards|
    ensures faults == {} && 0 <= source < |n.shards| && 0 <= target < |n.shards| ==> ok
    ensures ok ==> Agree(env, plan, slot, n.shards[target], old(n.shards)[source])
    ensures 0 <= source < |n.shards| && 0 <= target < |n.shards| ==>
              && Drifted(env, plan, slot, target, old(n.shards)[source], old(n.shards), n.shards)
              && Through(env, plan, slot, target, old(n.shards)[source], old(n.shards), old(n.trace), n.trace)
    ensures !(0 <= source < |n.shards| && 0 <= target < |n.shards|) ==> n.shards == old(n.shards) && n.trace == old(n.trace)
  {
    hide InSlot, Going, Through, Between, Agree;
    next := at;
    if source < 0 || source >= |n.shards| || target < 0 || target >= |n.shards| {
      return false, next;
    }
    ghost var was, before, b := n.shards, n.trace, n.shards[source];
    GoingStarts(env, plan, slot, target, b, was, was[target].Keys + b.Keys, before);
    BetweenSelf(env, plan, slot, was[target], b);
    next := next + 2;
    if at in faults || at + 1 in faults {
      return false, next;
    }
    var values := map k | k in n.shards[source] && InSlot(env, plan, slot, k) :: n.shards[source][k];
    var present := set k | k in n.shards[target] && InSlot(env, plan, slot, k);
    var batch, todo := [], values.Keys;
    ghost var extra := present - values.Keys;
    ghost var left := values.Keys + extra;
    GoingStarts(env, plan, slot, target, b, was, left, before);
    while todo != {}
      invariant todo <= values.Keys && left == todo + extra
      invariant Going(env, plan, slot, target, b, was, n.shards, batch, left)
      invariant Through(env, plan, slot, target, b, was, before, n.trace)
      decreases todo
    {
      var k :| k in todo;
      GoingPut(env, plan, slot, target, b, was, n.shards, batch, left, k);
      batch := batch + [Put(k, values[k])];
      todo := todo - {k};
      left := left - {k};
      if |batch| >= BATCH {
        var flushed := FlushBatch(n, env, plan, slot, target, batch, next in faults, b, was, left, before);
        next := next + 1;
        if !flushed {
          GoingShape(env, plan, slot, target, b, was, n.shards, batch, left);
          return false, next;
        }
        batch := [];
      }
    }
    todo := present;
    while todo != {}
      invariant todo <= present && left == todo - values.Keys
      invariant Going(env, plan, slot, target, b, was, n.shards, batch, left)
      invariant Through(env, plan, slot, target, b, was, before, n.trace)
      decreases todo
    {
      var k :| k in todo;
      todo := todo - {k};
      if k in values {
        continue;
      }
      GoingDel(env, plan, slot, target, b, was, n.shards, batch, left, k);
      batch := batch + [Del(k)];
      left := left - {k};
      if |batch| >= BATCH {
        var flushed := FlushBatch(n, env, plan, slot, target, batch, next in faults, b, was, left, before);
        next := next + 1;
        if !flushed {
          GoingShape(env, plan, slot, target, b, was, n.shards, batch, left);
          return false, next;
        }
        batch := [];
      }
    }
    ok := FlushBatch(n, env, plan, slot, target, batch, next in faults, b, was, left, before);
    next := next + 1;
    GoingShape(env, plan, slot, target, b, was, n.shards, if ok then [] else batch, left);
  }

  /** deleteSlotKeys: the source keeps no key of the slot. */
  method DeleteSlotKeys(n: ShardedNode, env: Env, plan: Plan, slot: int, source: int, faults: set<nat>, at: nat)
      returns (ok: bool, next: nat)
    modifies n`shards, n`trace
    ensures |n.shards| == |old(n.shards)|
    ensures ok ==> 0 <= source < |n.shards| && Agree(env, plan, slot, n.shards[source], map[])
    ensures faults == {} && 0 <= source < |n.shards| ==> ok
    ensures 0 <= source < |n.shards| ==>
              && Drifted(env, plan, slot, source, map[], old(n.shards), n.shards)
              && Through(env, plan, slot, source, map[], old(n.shards), old(n.trace), n.trace)
    ensures !(0 <= source < |n.shards|) ==> n.shards == old(n.shards) && n.trace == old(n.trace)
  {
    hide InSlot, Going, Through, Between, Agree;
    next := at;
    if source < 0 || source >= |n.shards| {
      return false, next;
    }
    ghost var was, before := n.shards, n.trace;
    GoingStarts(env, plan, slot, source, map[], was, was[source].Keys, before);
    BetweenSelf(env, plan, slot, was[source], map[]);
    next := next + 1;
    if at in faults {
      return false, next;
    }
    var todo := set k | k in n.shards[source] && InSlot(env, plan, slot, k);
    var batch := [];
    GoingStarts(env, plan, slot, source, map[], was, todo, before);
    while todo != {}
      invariant todo <= set k | k in was[source] && InSlot(env, plan, slot, k)
      invariant Going(env, plan, slot, source, map[], was, n.shards, batch, todo)
      invariant Through(env, plan, slot, source, map[], was, before, n.trace)
      decreases todo
    {
      var k :| k in todo;
      GoingDel(env, plan, slot, source, map[], was, n.shards, batch, todo, k);
      batch := batch + [Del(k)];
      todo := todo - {k};
      if |batch| >= BATCH {
        var flushed := FlushBatch(n, env, plan, slot, source, batch, next in faults, map[], was, todo, before);
        next := next + 1;
        if !flushed {
          GoingShape(env, plan, slot, source, map[], was, n.shards, batch, todo);
          return false, next;
        }
        batch := [];
      }
    }
    ok := FlushBatch(n, env, plan, slot, source, batch, next in faults, map[], was, todo, before);
    next := next + 1;
    GoingShape(env, plan, slot, source, map[], was, n.shards, if ok then [] else batch, todo);
  }

  // ---- The migration ----

  ghost predicate Known(orig: seq<Store>, k: Bytes) {
    exists j :: 0 <= j < |orig| && k in orig[j]
  }

  /** Every client key on any shard is one that some shard had. */
  ghost predicate NoneNew(orig: seq<Store>, now: seq<Store>) {
    forall i, k :: 0 <= i < |now| && k in now[i] && !Reserved(k) ==> Known(orig, k)
  }

  ghost predicate AllView(env: Env, orig: seq<Store>, trace: seq<Disk>) {
    forall i :: 0 <= i < |trace| ==> SameView(env, orig, trace[i].shards) && NoneNew(orig, trace[i].shards)
  }

  /** Clients see orig, at every durable state so far and now, and the plan in force is p. */
  ghost predicate Seen(env: Env, orig: seq<Store>, p: Plan, shards: seq<Store>, trace: seq<Disk>) {
    && orig != [] && |shards| == |orig| && LoadPlan(env, shards) == Some(p)
    && SameView(env, orig, shards) && NoneNew(orig, shards) && AllView(env, orig, trace)
  }

  lemma DriftKnown(env: Env, plan: Plan, slot: int, i: int, b: Store, orig: seq<Store>, was: seq<Store>, now: seq<Store>)
    requires NoneNew(orig, was) && Drifted(env, plan, slot, i, b, was, now)
    requires forall k :: k in b && !Reserved(k) ==> Known(orig, k)
    ensures NoneNew(orig, now)
  {
    hide InSlot, Known, Reserved;
    forall j, k | 0 <= j < |now| && k in now[j] && !Reserved(k)
      ensures Known(orig, k)
    {
      if j == i {
        assert SameAt(now[i], was[i], k) || SameAt(now[i], b, k);
      } else {
        assert was[i := now[i]][j] == was[j];
      }
    }
  }

  lemma ViewOnward(env: Env, orig: seq<Store>, was: seq<Store>, now: seq<Store>)
    requires SameView(env, orig, was) && SameView(env, was, now)
    ensures SameView(env, orig, now)
  {
    hide Lookup;
    forall k
      ensures Lookup(env, now, k) == Lookup(env, orig, k)
    {
      assert Lookup(env, now, k) == Lookup(env, was, k);
    }
  }

  /** persistRoutingPlan. */
  method PersistPlan(n: ShardedNode, env: Env, plan: Plan, fails: bool) returns (ok: bool)
    requires n.shards != []
    modifies n`shards, n`trace
    ensures ok == !fails
    ensures !ok ==> n.shards == old(n.shards) && n.trace == old(n.trace)
    ensures ok ==> n.shards == old(n.shards)[0 := old(n.shards)[0][PLAN_KEY := env.encode(Normalized(plan, |old(n.shards)|))]]
    ensures ok ==> n.trace == old(n.trace) + [n.Now()]
  {
    hide Normalized;
    var r := Normalize(plan, |n.shards|);
    if fails {
      return false;
    }
    ApplyOne(n.shards[0], [], Put(PLAN_KEY, env.encode(r)));
    assert [] + [Put(PLAN_KEY, env.encode(r))] == [Put(PLAN_KEY, env.encode(r))];
    n.WriteShard(0, [Put(PLAN_KEY, env.encode(r))]);
    return true;
  }

  /** A step that replaces the plan and keeps the view. */
  method Replan(n: ShardedNode, env: Env, p: Plan, q: Plan, slot: int, fails: bool, ghost orig: seq<Store>)
      returns (ok: bool)
    requires Faithful(env) && Seen(env, orig, p, n.shards, n.trace) && Replanned(p, q, slot, |n.shards|)
    requires Agree(env, p, slot, n.shards[p.slots[slot].owner], n.shards[q.slots[slot].owner])
    modifies n`shards, n`trace
    ensures ok == !fails && |n.shards| == |old(n.shards)| && n.shards[1..] == old(n.shards)[1..]
    ensures forall k :: k != PLAN_KEY ==> SameAt(n.shards[0], old(n.shards)[0], k)
    ensures Seen(env, orig, if ok then q else p, n.shards, n.trace) && old(n.trace) <= n.trace
  {
    hide Normalized, LoadPlan, SameView, Agree, Normal, Known;
    ghost var was := n.shards;
    ok := PersistPlan(n, env, q, fails);
    if ok {
      assert Reserved(PLAN_KEY);
      NormalIsFixed(q, |was|);
      PlanKeepsView(env, was, p, q, slot);
      ViewOnward(env, orig, was, n.shards);
    }
  }

  /** A step that moves shard i towards b and keeps the view. */
  lemma DriftSeen(env: Env, plan: Plan, p: Plan, slot: int, i: int, b: Store, orig: seq<Store>,
                  was: seq<Store>, now: seq<Store>, before: seq<Disk>, after: seq<Disk>)
    requires Seen(env, orig, p, was, before) && p.slotCount == plan.slotCount && 0 <= slot < |p.slots|
    requires Drifted(env, plan, slot, i, b, was, now) && Through(env, plan, slot, i, b, was, before, after)
    requires p.slots[slot].owner != i || Agree(env, plan, slot, was[i], b)
    requires forall k :: k in b && !Reserved(k) ==> Known(orig, k)
    ensures Seen(env, orig, p, now, after)
  {
    hide LoadPlan, SameView, Agree, Drifted, NoneNew, Known, Reserved;
    DriftKnown(env, plan, slot, i, b, orig, was, now);
    assert |now| == |was| by { DriftSize(env, plan, slot, i, b, was, now); }
    OwnedUntouched(env, plan, p, slot, i, b, was, now);
    ViewOnward(env, orig, was, now);
    forall j | |before| <= j < |after|
      ensures SameView(env, orig, after[j].shards) && NoneNew(orig, after[j].shards)
    {
      DriftKnown(env, plan, slot, i, b, orig, was, after[j].shards);
      OwnedUntouched(env, plan, p, slot, i, b, was, after[j].shards);
      ViewOnward(env, orig, was, after[j].shards);
    }
  }

  lemma DriftSize(env: Env, plan: Plan, slot: int, i: int, b: Store, was: seq<Store>, now: seq<Store>)
    requires Drifted(env, plan, slot, i, b, was, now)
    ensures |now| == |was| && forall j :: 0 <= j < |was| && j != i ==> now[j] == was[j]
  {
    hide Between;
    assert forall j :: 0 <= j < |was| && j != i ==> was[i := now[i]][j] == was[j];
  }

  function WithSlot(p: Plan, slot: int, s: Slot): Plan
    requires 0 <= slot < |p.slots|
  {
    p.(version := p.version + 1, slots := p.slots[slot := s])
  }

  lemma WithSlotIs(p: Plan, slot: int, s: Slot, shards: int)
    requires Normal(p, shards) && 0 <= slot < |p.slots| && 0 <= s.owner < shards
    ensures var q := Normalized(WithSlot(p, slot, s), shards);
            Replanned(p, q, slot, shards) && q.slots[slot].owner == s.owner && q.slots[slot].migrating == s.migrating
  {
  }

  lemma Itself(env: Env, plan: Plan, slot: int, a: Store)
    ensures Agree(env, plan, slot, a, a)
  {
  }

  /** One copySlotKeys within a migration; after the flip source and target already agree. */
  method CopyStep(n: ShardedNode, env: Env, plan: Plan, slot: int, source: int, target: int, faults: set<nat>, at: nat,
                  ghost p: Plan, ghost orig: seq<Store>) returns (ok: bool, next: nat)
    requires Seen(env, orig, p, n.shards, n.trace) && p.slotCount == plan.slotCount && 0 <= slot < |p.slots|
    requires source != target && 0 <= source < |n.shards|
    requires p.slots[slot].owner == source
             || (0 <= target < |n.shards| && Agree(env, plan, slot, n.shards[target], n.shards[source]))
    modifies n`shards, n`trace
    ensures Seen(env, orig, p, n.shards, n.trace) && old(n.trace) <= n.trace
    ensures ok ==> 0 <= target < |n.shards| && Agree(env, plan, slot, n.shards[target], n.shards[source])
    ensures faults == {} && 0 <= target < |n.shards| ==> ok
  {
    hide LoadPlan, SameView, AllView, Agree, Drifted, Known;
    ghost var was, before := n.shards, n.trace;
    ok, next := CopySlotKeys(n, env, plan, slot, source, target, faults, at);
    if 0 <= target < |n.shards| {
      DriftSize(env, plan, slot, target, was[source], was, n.shards);
      DriftSeen(env, plan, p, slot, target, was[source], orig, was, n.shards, before, n.trace);
    }
  }

  ghost predicate Settled(p: Plan, slot: int, owner: int) {
    0 <= slot < |p.slots| && p.slots[slot].owner == owner && !p.slots[slot].migrating
  }

  /** Gives the slot back to its source; a failure to do so is ignored, and the slot stays marked as moving. */
  method Revert(n: ShardedNode, env: Env, current: Plan, slot: int, source: int, fails: bool, ghost orig: seq<Store>)
    requires Faithful(env) && Seen(env, orig, current, n.shards, n.trace) && 0 <= slot < |current.slots|
    requires Normal(current, |n.shards|) && current.slots[slot].owner == source
    modifies n`shards, n`trace
    ensures old(n.trace) <= n.trace && |n.shards| == |old(n.shards)| && n.shards[1..] == old(n.shards)[1..]
    ensures forall k :: k != PLAN_KEY ==> SameAt(n.shards[0], old(n.shards)[0], k)
    ensures exists p :: Seen(env, orig, p, n.shards, n.trace)
              && p.slotCount == current.slotCount && if fails then p == current else Settled(p, slot, source)
  {
    hide Seen, Agree, Normalized, Normal, Replanned;
    var revert := Normalize(WithSlot(current, slot, Slot(source, false, 0)), |n.shards|);
    SlotOwner(current, slot, |n.shards|);
    WithSlotIs(current, slot, Slot(source, false, 0), |n.shards|);
    ReplannedShape(current, revert, slot, |n.shards|);
    Itself(env, current, slot, n.shards[source]);
    var _ := Replan(n, env, current, revert, slot, fails, orig);
  }

  lemma SlotOwner(p: Plan, slot: int, shards: int)
    requires Normal(p, shards) && 0 <= slot < |p.slots|
    ensures 0 <= p.slots[slot].owner < shards
  {
  }

  lemma ReplannedShape(p: Plan, q: Plan, slot: int, shards: int)
    requires Replanned(p, q, slot, shards)
    ensures q.slotCount == p.slotCount && |q.slots| == |p.slots| && 0 <= q.slots[slot].owner < shards && Normal(q, shards)
    ensures 0 <= slot < |p.slots| && 0 <= p.slots[slot].owner < shards
  {
  }

  /**
   * migrateSlot, from a slot that is not moving and whose owner is source, with no client write in
   * between: whichever child operation or wait fails, clients see the same map at every durable state;
   * on success the target owns the slot and the source has none of its keys.
   */
  method MigrateSlot(n: ShardedNode, env: Env, plan: Plan, slot: int, source: int, target: int, faults: set<nat>)
      returns (ok: bool)
    requires Faithful(env) && n.shards != [] && LoadPlan(env, n.shards) == Some(plan)
    requires 0 <= slot < |plan.slots| ==> plan.slots[slot].owner == source && !plan.slots[slot].migrating
    modifies n
    ensures |n.shards| == |old(n.shards)| && n.trace != []
    ensures SameView(env, old(n.shards), n.shards) && AllView(env, old(n.shards), n.trace)
    ensures NoneNew(old(n.shards), n.shards)
    ensures ok ==> 0 <= slot < |plan.slots|
    ensures faults == {} && 0 <= slot < |plan.slots| && (source == target || 0 <= target < |n.shards|) ==> ok
    ensures ok && source != target ==>
              && 0 <= source < |n.shards| && (forall k :: InSlot(env, plan, slot, k) ==> k !in n.shards[source])
              && LoadPlan(env, n.shards).Some? && slot < |LoadPlan(env, n.shards).value.slots|
              && LoadPlan(env, n.shards).value.slots[slot].owner == target
  {
    hide LoadPlan, Lookup, Normalized, Normal, Replanned, Agree, InSlot;
    ghost var orig := n.shards;
    n.trace := [n.Now()];
    assert NoneNew(orig, orig);
    if slot < 0 || slot >= |plan.slots| {
      return false;
    }
    if source == target {
      return true;
    }
    LoadedIsNormal(env, orig);
    SlotOwner(plan, slot, |orig|);
    var current := Normalize(WithSlot(plan, slot, Slot(source, true, target)), |n.shards|);
    WithSlotIs(plan, slot, Slot(source, true, target), |orig|);
    ReplannedShape(plan, current, slot, |orig|);
    Itself(env, plan, slot, n.shards[source]);
    ok := Replan(n, env, plan, current, slot, 0 in faults, orig);
    if !ok {
      return;
    }
    var at := 1;
    for i := 0 to 3
      invariant Seen(env, orig, current, n.shards, n.trace) && n.trace != []
      invariant i > 0 ==> 0 <= target < |n.shards| && Agree(env, plan, slot, n.shards[target], n.shards[source])
    {
      ok, at := CopyStep(n, env, plan, slot, source, target, faults, at, current, orig);
      if !ok {
        Revert(n, env, current, slot, source, at in faults, orig);
        return;
      }
      if at in faults {
        return false;
      }
      at := at + 1;
    }
    var final := Normalize(WithSlot(current, slot, Slot(target, false, 0)), |n.shards|);
    WithSlotIs(current, slot, Slot(target, false, 0), |orig|);
    ReplannedShape(current, final, slot, |orig|);
    AgreeTurned(env, plan, current, slot, n.shards[target], n.shards[source]);
    ghost var was := n.shards;
    ok := Replan(n, env, current, final, slot, at in faults, orig);
    at := at + 1;
    if !ok {
      Revert(n, env, current, slot, source, at in faults, orig);
      return;
    }
    AgreeStays(env, plan, slot, was, n.shards, target, source);
    if at in faults {
      return false;
    }
    ok, at := CopyStep(n, env, plan, slot, source, target, faults, at + 1, final, orig);
    if !ok {
      return;
    }
    ghost var before := n.trace;
    was := n.shards;
    ok, at := DeleteSlotKeys(n, env, plan, slot, source, faults, at);
    DriftSeen(env, plan, final, slot, source, map[], orig, was, n.shards, before, n.trace);
    if ok {
      NoKeys(env, plan, slot, n.shards[source]);
    }
  }

  lemma AgreeTurned(env: Env, plan: Plan, p: Plan, slot: int, a: Store, b: Store)
    requires Agree(env, plan, slot, a, b) && p.slotCount == plan.slotCount
    ensures Agree(env, p, slot, b, a)
  {
    hide SlotForKey, Reserved;
    forall k | InSlot(env, p, slot, k)
      ensures SameAt(b, a, k)
    {
      SameSlots(env, p, plan, k);
      assert InSlot(env, plan, slot, k);
    }
  }

  /** Rewriting the plan leaves the agreement of two shards alone. */
  lemma AgreeStays(env: Env, plan: Plan, slot: int, was: seq<Store>, now: seq<Store>, i: int, j: int)
    requires 0 <= i < |was| && 0 <= j < |was| && |now| == |was| && now[1..] == was[1..]
    requires (forall k :: k != PLAN_KEY ==> SameAt(now[0], was[0], k)) && Agree(env, plan, slot, was[i], was[j])
    ensures Agree(env, plan, slot, now[i], now[j])
  {
    hide SlotForKey;
    assert forall h :: 0 < h < |was| ==> now[h] == now[1..][h - 1] && was[h] == was[1..][h - 1];
    forall k | InSlot(env, plan, slot, k)
      ensures SameAt(now[i], now[j], k)
    {
      assert Reserved(PLAN_KEY);
      assert SameAt(was[i], was[j], k) && SameAt(now[0], was[0], k);
    }
  }

  lemma NoKeys(env: Env, plan: Plan, slot: int, m: Store)
    requires Agree(env, plan, slot, m, map[])
    ensures forall k :: InSlot(env, plan, slot, k) ==> k !in m
  {
    hide InSlot;
  }
}
