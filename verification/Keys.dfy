// Byte strings, the order of bytes.Compare, and the entries every table holds.
module Keys {
  type byte = i: int | 0 <= i < 256
  type Bytes = seq<byte>

  datatype Option<+T> = None | Some(value: T)

  /** bytes.Compare(a, b) < 0 */
  predicate Less(a: Bytes, b: Bytes) {
    if b == [] then false
    else if a == [] then true
    else if a[0] != b[0] then a[0] < b[0]
    else Less(a[1..], b[1..])
  }

  lemma {:induction false} LessTransitive(a: Bytes, b: Bytes, c: Bytes)
    requires Less(a, b) && Less(b, c)
    ensures Less(a, c)
  {
    if a != [] && a[0] == b[0] == c[0] {
      LessTransitive(a[1..], b[1..], c[1..]);
    }
  }

  lemma {:induction false} LessConnected(a: Bytes, b: Bytes)
    ensures Less(a, b) || a == b || Less(b, a)
    ensures !(Less(a, b) && Less(b, a))
    ensures !Less(a, a)
  {
    if a != [] {
      LessConnected(a[1..], a[1..]);
    }
    if a != [] && b != [] && a[0] == b[0] {
      LessConnected(a[1..], b[1..]);
      assert a == [a[0]] + a[1..] && b == [b[0]] + b[1..];
    }
  }

  /** bytes.Compare is a strict total order; lemmas that only need that hide the definition of Less. */
  lemma LessIsTotalOrder()
    ensures forall a: Bytes :: !Less(a, a)
    ensures forall a: Bytes, b: Bytes :: Less(a, b) || a == b || Less(b, a)
    ensures forall a: Bytes, b: Bytes, c: Bytes :: Less(a, b) && Less(b, c) ==> Less(a, c)
  {
    forall a: Bytes, b: Bytes
      ensures Less(a, b) || a == b || Less(b, a)
      ensures !Less(a, a)
    {
      LessConnected(a, b);
    }
    forall a: Bytes, b: Bytes, c: Bytes | Less(a, b) && Less(b, c)
      ensures Less(a, c)
    {
      LessTransitive(a, b, c);
    }
  }

  /** One operation of a WriteBatch. */
  datatype Op = Put(key: Bytes, value: Bytes) | Del(key: Bytes)

  datatype Kind = Value | Deletion

  /** An InternalKey together with the value stored under it. */
  datatype Entry = Entry(key: Bytes, seqno: nat, kind: Kind, value: Bytes)

  /** InternalKey.Less: user key ascending, then sequence number descending. */
  predicate Before(a: Entry, b: Entry) {
    Less(a.key, b.key) || (a.key == b.key && a.seqno > b.seqno)
  }

  /** The order every memtable and every table file keeps. */
  ghost predicate Sorted(es: seq<Entry>) {
    forall i, j :: 0 <= i < j < |es| ==> Before(es[i], es[j])
  }

  /** One version per user key, user keys ascending: what a level below L0 keeps. */
  ghost predicate Ascending(es: seq<Entry>) {
    forall i, j :: 0 <= i < j < |es| ==> Less(es[i].key, es[j].key)
  }

  /** The first entry for k: in a sorted table, its newest version. */
  function Find(es: seq<Entry>, k: Bytes): Option<Entry> {
    if es == [] then None
    else if es[0].key == k then Some(es[0])
    else Find(es[1..], k)
  }

  lemma {:induction false} FindIndex(es: seq<Entry>, k: Bytes)
    ensures Find(es, k).None? <==> forall e :: e in es ==> e.key != k
    ensures Find(es, k).Some? ==>
              exists i :: 0 <= i < |es| && es[i] == Find(es, k).value && es[i].key == k
                       && forall j :: 0 <= j < i ==> es[j].key != k
  {
    if es != [] {
      FindIndex(es[1..], k);
      if es[0].key != k && Find(es[1..], k).Some? {
        var i :| 0 <= i < |es[1..]| && es[1..][i] == Find(es[1..], k).value && es[1..][i].key == k
                 && forall j :: 0 <= j < i ==> es[1..][j].key != k;
        assert es[i + 1] == es[1..][i];
        assert forall j :: 0 < j < i + 1 ==> es[j] == es[1..][j - 1];
      }
    }
  }

  /** In a sorted table the first entry for k is the one with the highest sequence number. */
  lemma FindIsNewest(es: seq<Entry>, k: Bytes)
    requires Sorted(es)
    ensures Find(es, k).Some? ==> Find(es, k).value in es && Find(es, k).value.key == k
    ensures forall e :: e in es && e.key == k ==>
              Find(es, k).Some? && e.seqno <= Find(es, k).value.seqno
  {
    hide Less;
    LessIsTotalOrder();
    FindIndex(es, k);
    if Find(es, k).Some? {
      var i :| 0 <= i < |es| && es[i] == Find(es, k).value && es[i].key == k
               && forall j :: 0 <= j < i ==> es[j].key != k;
      forall e | e in es && e.key == k
        ensures e.seqno <= es[i].seqno
      {
        var j :| 0 <= j < |es| && es[j] == e;
        assert i == j || Before(es[i], es[j]);
      }
    }
  }

  lemma {:induction false} FindConcat(a: seq<Entry>, b: seq<Entry>, k: Bytes)
    ensures Find(a + b, k) == if Find(a, k).Some? then Find(a, k) else Find(b, k)
  {
    if a == [] {
      assert a + b == b;
    } else {
      assert (a + b)[1..] == a[1..] + b;
      FindConcat(a[1..], b, k);
    }
  }

  // ---- Lists of tables ----

  function Flatten(cs: seq<seq<Entry>>): seq<Entry> {
    if cs == [] then [] else cs[0] + Flatten(cs[1..])
  }

  lemma FlattenEmpty()
    ensures Flatten([]) == []
  {
  }

  lemma {:induction false} FlattenAppend(cs: seq<seq<Entry>>, c: seq<Entry>)
    ensures Flatten(cs + [c]) == Flatten(cs) + c
  {
    if cs == [] {
      assert cs + [c] == [c];
      assert [c][1..] == [] && Flatten([]) == [];
      assert Flatten([c]) == c + Flatten([c][1..]);
    } else {
      assert (cs + [c])[1..] == cs[1..] + [c];
      FlattenAppend(cs[1..], c);
    }
  }

  lemma {:induction false} FlattenMember(cs: seq<seq<Entry>>, e: Entry)
    ensures e in Flatten(cs) <==> exists i :: 0 <= i < |cs| && e in cs[i]
  {
    if cs != [] {
      FlattenMember(cs[1..], e);
      assert forall i :: 0 < i < |cs| ==> cs[i] == cs[1..][i - 1];
      if e in Flatten(cs[1..]) {
        var i :| 0 <= i < |cs[1..]| && e in cs[1..][i];
        assert e in cs[i + 1];
      }
    }
  }
}
