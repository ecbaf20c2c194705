// The slot map: which shard owns a key, and where a moving slot is going.
module Routing {
  import opened Keys
  import opened Shards

  const DEFAULT_SLOTS: nat := 256

  /** "__lsm_cluster__/" and the plan's own key under it. */
  const RESERVED: Bytes := [95, 95, 108, 115, 109, 95, 99, 108, 117, 115, 116, 101, 114, 95, 95, 47]
  const PLAN_KEY: Bytes := RESERVED + [114, 111, 117, 116, 105, 110, 103, 95, 112, 108, 97, 110]

  predicate Reserved(k: Bytes) {
    RESERVED <= k
  }

  datatype Slot = Slot(owner: int, migrating: bool, target: int)

  datatype Plan = Plan(version: nat, slotCount: int, shardCount: int, slots: seq<Slot>)

  datatype Route = Route(primary: int, secondary: int, migrating: bool)

  /** What the code takes from elsewhere: the key hash, and the plan's JSON form. */
  datatype Env = Env(hash: Bytes -> nat, encode: Plan -> Bytes, decode: Bytes -> Option<Plan>, slots: int)

  ghost predicate Faithful(env: Env) {
    forall p :: env.decode(env.encode(p)) == Some(p)
  }

  // ---- Plans ----

  method NewRoutingPlan(shardCount: int, slotCount: int) returns (p: Plan)
    ensures p == DefaultPlan(shardCount, slotCount)
    ensures Normal(p, if shardCount <= 0 then 1 else shardCount)
  {
    var n, count: int := if shardCount <= 0 then 1 else shardCount, if slotCount <= 0 then DEFAULT_SLOTS else slotCount;
    var slots := [];
    for i := 0 to count
      invariant |slots| == i && forall j :: 0 <= j < i ==> slots[j] == Slot(j % n, false, 0)
    {
      slots := slots + [Slot(i % n, false, 0)];
    }
    p := Plan(1, count, n, slots);
  }

  predicate SlotOk(s: Slot, shards: int) {
    0 <= s.owner < shards && 0 <= s.target < shards
  }

  /** A plan as normalize leaves it. */
  predicate Normal(p: Plan, shards: int) {
    && shards > 0 && p.shardCount == shards && p.slotCount > 0 && |p.slots| == p.slotCount
    && forall i :: 0 <= i < |p.slots| ==> SlotOk(p.slots[i], shards)
  }

  function FixSlot(s: Slot, i: nat, shards: nat): (r: Slot)
    requires shards > 0
    ensures SlotOk(r, shards) && (SlotOk(s, shards) ==> r == s)
  {
    var owner := if s.owner < 0 || s.owner >= shards then i % shards else s.owner;
    Slot(owner, s.migrating, if s.target < 0 || s.target >= shards then owner else s.target)
  }

  function Padded(slots: seq<Slot>, count: nat): (r: seq<Slot>)
    ensures |r| == count && (|slots| == count ==> r == slots)
  {
    seq(count, i requires 0 <= i < count => if i < |slots| then slots[i] else Slot(0, false, 0))
  }

  function FixSlots(slots: seq<Slot>, shards: nat): (r: seq<Slot>)
    requires shards > 0
    ensures |r| == |slots| && forall i :: 0 <= i < |slots| ==> r[i] == FixSlot(slots[i], i, shards)
  {
    seq(|slots|, i requires 0 <= i < |slots| => FixSlot(slots[i], i, shards))
  }

  /** normalize: every owner and target names a shard, and what already did is kept. */
  function Normalized(p: Plan, shards: int): (r: Plan)
    ensures shards > 0 ==> Normal(r, shards)
    ensures Normal(p, shards) ==> r == p
  {
    if shards <= 0 then p
    else
      var count: int := if p.slotCount <= 0 then DEFAULT_SLOTS else p.slotCount;
      Plan(p.version, count, shards, FixSlots(Padded(p.slots, count), shards))
  }

  method Normalize(p: Plan, shards: int) returns (r: Plan)
    ensures r == Normalized(p, shards)
  {
    if shards <= 0 {
      return p;
    }
    var count: int := if p.slotCount <= 0 then DEFAULT_SLOTS else p.slotCount;
    var slots := p.slots;
    if |slots| != count {
      slots := Padded(slots, count);
    }
    var raw := slots;
    for i := 0 to count
      invariant |slots| == count
      invariant forall j :: 0 <= j < i ==> slots[j] == FixSlot(raw[j], j, shards)
      invariant forall j :: i <= j < count ==> slots[j] == raw[j]
    {
      if slots[i].owner < 0 || slots[i].owner >= shards {
        slots := slots[i := slots[i].(owner := i % shards)];
      }
      if slots[i].target < 0 || slots[i].target >= shards {
        slots := slots[i := slots[i].(target := slots[i].owner)];
      }
    }
    r := Plan(p.version, count, shards, slots);
  }

  function SlotForKey(env: Env, p: Plan, k: Bytes): (s: nat)
    ensures p.slotCount > 0 ==> s < p.slotCount
  {
    if p.slotCount <= 0 then 0 else env.hash(k) % p.slotCount
  }

  function RouteForKey(env: Env, p: Plan, k: Bytes): (r: Route)
    ensures forall shards :: Normal(p, shards) ==>
              0 <= r.primary < shards && 0 <= r.secondary < shards
              && r == (var s := p.slots[SlotForKey(env, p, k)];
                       Route(s.owner, if s.migrating then s.target else s.owner, s.migrating))
  {
    var slot := SlotForKey(env, p, k);
    if slot >= |p.slots| then Route(0, 0, false)
    else
      var s, n := p.slots[slot], if p.shardCount > 0 then p.shardCount else 1;
      var owner := if s.owner < 0 then 0 else if s.owner >= n then s.owner % n else s.owner;
      if s.migrating then Route(owner, if s.target < 0 then owner else if s.target >= n then s.target % n else s.target, true)
      else Route(owner, owner, false)
  }

  // ---- The plan in force ----

  function DefaultPlan(shards: int, slotCount: int): Plan {
    var n, count: int := if shards <= 0 then 1 else shards, if slotCount <= 0 then DEFAULT_SLOTS else slotCount;
    Plan(1, count, n, seq(count, i requires 0 <= i < count => Slot(i % n, false, 0)))
  }

  /** The plan is a value of shard 0, so persisting it is one atomic write. */
  function LoadPlan(env: Env, shards: seq<Store>): Option<Plan>
    requires shards != []
  {
    if PLAN_KEY !in shards[0] then Some(DefaultPlan(|shards|, env.slots))
    else
      match env.decode(shards[0][PLAN_KEY])
      case None => None
      case Some(p) => if p.slotCount <= 0 || |p.slots| != p.slotCount then None else Some(Normalized(p, |shards|))
  }

  /** ShardedNode.routeForKey: without a readable plan it falls back to hashing over the shards. */
  function RouteOf(env: Env, shards: seq<Store>, k: Bytes): (r: Route)
    requires shards != []
    ensures 0 <= r.primary < |shards| && 0 <= r.secondary < |shards|
  {
    var legacy := env.hash(k) % |shards|;
    match LoadPlan(env, shards)
    case None => Route(legacy, legacy, false)
    case Some(p) =>
      var r := RouteForKey(env, p, k);
      var primary := if 0 <= r.primary < |shards| then r.primary else legacy;
      Route(primary, if 0 <= r.secondary < |shards| then r.secondary else primary, r.migrating)
  }

  /** The map a client sees. */
  function Lookup(env: Env, shards: seq<Store>, k: Bytes): Option<Bytes>
    requires shards != []
  {
    var s := shards[RouteOf(env, shards, k).primary];
    if Reserved(k) || k !in s then None else Some(s[k])
  }

  lemma DefaultIsNormal(shards: int, slotCount: int)
    requires shards > 0
    ensures Normal(DefaultPlan(shards, slotCount), shards)
  {
  }

  lemma LoadedIsNormal(env: Env, shards: seq<Store>)
    requires shards != []
    ensures LoadPlan(env, shards).Some? ==> Normal(LoadPlan(env, shards).value, |shards|)
  {
    hide Normalized, Normal;
    DefaultIsNormal(|shards|, env.slots);
  }

  /** What persistRoutingPlan writes is what loadRoutingPlan reads. */
  lemma PersistedIsLoaded(env: Env, shards: seq<Store>, p: Plan)
    requires Faithful(env) && shards != []
    ensures LoadPlan(env, shards[0 := shards[0][PLAN_KEY := env.encode(Normalized(p, |shards|))]]) == Some(Normalized(p, |shards|))
  {
    var r := Normalized(p, |shards|);
    assert env.decode(env.encode(r)) == Some(r);
  }

  /** With the plan readable every key goes to its slot's owner. */
  lemma RouteIsOwner(env: Env, shards: seq<Store>, p: Plan, k: Bytes)
    requires shards != [] && LoadPlan(env, shards) == Some(p)
    ensures Normal(p, |shards|)
    ensures var s := p.slots[SlotForKey(env, p, k)];
            RouteOf(env, shards, k) == Route(s.owner, if s.migrating then s.target else s.owner, s.migrating)
  {
    hide RouteForKey, LoadPlan;
    LoadedIsNormal(env, shards);
  }
}
