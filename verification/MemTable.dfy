// The memtable: a skip list of versions, read at the newest or at a given sequence number.
module MemTable {
  import opened Keys
  import opened Codec
  import opened Table
  import opened SkipList

  /** math.MaxUint64 */
  const MAX_SEQ: nat := U64 - 1

  /** The newest version of k numbered at most s. */
  ghost predicate IsNewestAt(es: seq<Entry>, k: Bytes, s: nat, r: Option<Entry>) {
    match r
    case None => forall e :: e in es && e.key == k ==> e.seqno > s
    case Some(x) => x in es && x.key == k && x.seqno <= s && forall e :: e in es && e.key == k && e.seqno <= s ==> e.seqno <= x.seqno
  }

  lemma {:induction false} SoughtIsNewest(es: seq<Entry>, k: Bytes, s: nat, kind: Kind)
    requires Sorted(es)
    ensures IsNewestAt(es, k, s, Sought(es, Entry(k, s, kind, [])))
  {
    hide Less;
    LessIsTotalOrder();
    if es != [] {
      var search, tail := Entry(k, s, kind, []), es[1..];
      assert forall e :: e in es <==> e == es[0] || e in tail;
      if Before(es[0], search) {
        SoughtIsNewest(tail, k, s, kind);
      } else {
        forall e | e in es && e.key == k && e.seqno <= s
          ensures es[0].key == k && e.seqno <= es[0].seqno
        {
          var i :| 0 <= i < |es| && es[i] == e;
          assert i == 0 || Before(es[0], es[i]);
        }
      }
    }
  }

  class MemTable {
    const sl: SkipList
    const maxSize: nat
    var size: nat
    var walSeq: nat

    /** Sequence numbers are 64 bits wide. */
    ghost predicate Valid()
      reads this, sl, sl.spine
    {
      && sl.Valid() && Sorted(sl.Contents()) && forall e :: e in sl.Contents() ==> e.seqno < U64 && e.seqno <= walSeq
    }

    ghost function Contents(): seq<Entry>
      reads this, sl, sl.spine
      requires Valid()
    {
      sl.Contents()
    }

    constructor (maxSize: nat)
      ensures Valid() && fresh(sl) && fresh(sl.spine) && Contents() == [] && size == 0 && this.maxSize == maxSize
    {
      sl := new SkipList();
      this.maxSize := maxSize;
      size, walSeq := 0, 0;
    }

    method Add(e: Entry, bytes: nat, drawn: nat)
      requires Valid() && e.seqno < U64 && 1 <= drawn <= MAX_LEVEL
      modifies this, sl, sl.spine
      ensures Valid() && Contents() == Insert(old(Contents()), e) && size == old(size) + bytes
      ensures walSeq == if e.seqno > old(walSeq) then e.seqno else old(walSeq)
      ensures forall n :: n in sl.spine ==> n in old(sl.spine) || fresh(n)
    {
      hide Less, Sorted, Linked, Shaped, Listed, Insert;
      InsertSorted(sl.Contents(), e);
      sl.Insert(e, drawn);
      size := size + bytes;
      if e.seqno > walSeq {
        walSeq := e.seqno;
      }
    }

    method Put(key: Bytes, value: Bytes, seqNo: nat, drawn: nat)
      requires Valid() && seqNo < U64 && 1 <= drawn <= MAX_LEVEL
      modifies this, sl, sl.spine
      ensures Valid() && Contents() == Insert(old(Contents()), Entry(key, seqNo, Value, value))
      ensures size == old(size) + |key| + |value| + 16
      ensures forall n :: n in sl.spine ==> n in old(sl.spine) || fresh(n)
    {
      Add(Entry(key, seqNo, Value, value), |key| + |value| + 16, drawn);
    }

    method Delete(key: Bytes, seqNo: nat, drawn: nat)
      requires Valid() && seqNo < U64 && 1 <= drawn <= MAX_LEVEL
      modifies this, sl, sl.spine
      ensures Valid() && Contents() == Insert(old(Contents()), Entry(key, seqNo, Deletion, []))
      ensures size == old(size) + |key| + 16
      ensures forall n :: n in sl.spine ==> n in old(sl.spine) || fresh(n)
    {
      Add(Entry(key, seqNo, Deletion, []), |key| + 16, drawn);
    }

    method GetAtSeqNo(key: Bytes, seqNo: nat) returns (value: Bytes, found: bool, deleted: bool)
      requires Valid()
      ensures found <==> exists e :: e in Contents() && e.key == key && e.seqno <= seqNo
      ensures found ==> exists e :: IsNewestAt(Contents(), key, seqNo, Some(e)) && (deleted <==> e.kind.Deletion?)
                                    && value == if deleted then [] else e.value
      ensures !found ==> !deleted && value == []
    {
      hide Less, Sorted, Sought;
      var node := sl.FindLE(Entry(key, seqNo, Deletion, []));
      SoughtIsNewest(sl.Contents(), key, seqNo, Deletion);
      if node == null {
        return [], false, false;
      }
      ghost var e := node.At();
      assert IsNewestAt(Contents(), key, seqNo, Some(e));
      if node.kind == Deletion {
        return [], true, true;
      }
      return node.value, true, false;
    }

    /** The newest version: what reading the list in order meets first. */
    method Get(key: Bytes) returns (value: Bytes, found: bool, deleted: bool)
      requires Valid()
      ensures found <==> Find(Contents(), key).Some?
      ensures found ==> (deleted <==> Find(Contents(), key).value.kind.Deletion?)
      ensures found && !deleted ==> value == Find(Contents(), key).value.value
      ensures !found ==> !deleted
    {
      hide Less, Sorted, Sought, Find;
      var node := sl.FindLE(Entry(key, MAX_SEQ, Value, []));
      SoughtIsNewest(sl.Contents(), key, MAX_SEQ, Value);
      NewestIsFirst(sl.Contents(), key, Sought(sl.Contents(), Entry(key, MAX_SEQ, Value, [])));
      if node == null {
        return [], false, false;
      }
      if node.kind == Deletion {
        return [], true, true;
      }
      return node.value, true, false;
    }

  }

  /** Read at the highest number there is, the newest version is the first of its key. */
  lemma NewestIsFirst(es: seq<Entry>, k: Bytes, r: Option<Entry>)
    requires Sorted(es) && (forall e :: e in es ==> e.seqno < U64) && IsNewestAt(es, k, MAX_SEQ, r)
    ensures r == Find(es, k)
  {
    hide Less;
    FindIsNewest(es, k);
    FindIndex(es, k);
    if r.Some? {
      SameVersion(es, r.value, Find(es, k).value);
    }
  }

  lemma SameVersion(es: seq<Entry>, a: Entry, b: Entry)
    requires Sorted(es) && a in es && b in es && a.key == b.key && a.seqno == b.seqno
    ensures a == b
  {
    hide Sorted;
    var i :| 0 <= i < |es| && es[i] == a;
    var j :| 0 <= j < |es| && es[j] == b;
    if i != j {
      NumberedApart(es, if i < j then i else j, if i < j then j else i);
    }
  }

  lemma NumberedApart(es: seq<Entry>, i: nat, j: nat)
    requires Sorted(es) && i < j < |es|
    ensures es[i].key != es[j].key || es[i].seqno != es[j].seqno
  {
    hide Less;
    LessIsTotalOrder();
    assert Before(es[i], es[j]);
  }
}
