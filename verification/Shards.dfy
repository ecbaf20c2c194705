// What a shard holds and what one atomic child write does to it.
module Shards {
  import opened Keys

  type Store = map<Bytes, Bytes>

  function ApplyOp(m: Store, op: Op): Store {
    match op
    case Put(k, v) => m[k := v]
    case Del(k) => m - {k}
  }

  /** A child shard applies a batch as a whole. */
  function ApplyBatch(m: Store, ops: seq<Op>): Store {
    if ops == [] then m else ApplyOp(ApplyBatch(m, ops[..|ops| - 1]), ops[|ops| - 1])
  }

  function At(m: Store, k: Bytes): Option<Bytes> {
    if k in m then Some(m[k]) else None
  }

  predicate SameAt(a: Store, b: Store, k: Bytes) {
    (k in a <==> k in b) && (k in a && k in b ==> a[k] == b[k])
  }

  predicate Touches(ops: seq<Op>, k: Bytes) {
    exists i :: 0 <= i < |ops| && ops[i].key == k
  }

  lemma {:induction false} UntouchedKey(m: Store, ops: seq<Op>, k: Bytes)
    requires !Touches(ops, k)
    ensures SameAt(ApplyBatch(m, ops), m, k)
  {
    if ops != [] {
      var n := |ops| - 1;
      assert forall i :: 0 <= i < n ==> ops[..n][i] == ops[i];
      UntouchedKey(m, ops[..n], k);
      assert ops[n].key != k;
    }
  }

  lemma SameEverywhere(a: Store, b: Store)
    requires forall k :: SameAt(a, b, k)
    ensures a == b
  {
    assert forall k :: k in a ==> SameAt(a, b, k);
    assert forall k :: k in b ==> SameAt(a, b, k);
  }
}
