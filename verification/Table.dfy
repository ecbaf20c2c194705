// A memtable as a value: a list of entries in internal-key order.
module Table {
  import opened Keys

  /** SkipList.Insert: a new entry goes to its place; an equal internal key only has its value replaced. */
  function Insert(es: seq<Entry>, e: Entry): seq<Entry> {
    if es == [] then [e]
    else if Before(es[0], e) then [es[0]] + Insert(es[1..], e)
    else if es[0].key == e.key && es[0].seqno == e.seqno then [es[0].(value := e.value)] + es[1..]
    else [e] + es
  }

  function InsertAll(es: seq<Entry>, batch: seq<Entry>): seq<Entry> {
    if batch == [] then es
    else Insert(InsertAll(es, batch[..|batch| - 1]), batch[|batch| - 1])
  }

  lemma {:induction false} InsertSorted(es: seq<Entry>, e: Entry)
    requires Sorted(es)
    ensures Sorted(Insert(es, e))
    ensures forall x :: x in Insert(es, e) ==> x in es || (x.key == e.key && x.seqno == e.seqno)
  {
    hide Less;
    LessIsTotalOrder();
    if es != [] {
      var tail := es[1..];
      assert forall x :: x in tail ==> Before(es[0], x);
      if Before(es[0], e) {
        InsertSorted(tail, e);
        var r := Insert(tail, e);
        forall x | x in r
          ensures Before(es[0], x)
        {
        }
      } else if es[0].key == e.key && es[0].seqno == e.seqno {
        assert forall x :: x in tail ==> Before(es[0].(value := e.value), x);
      } else {
        assert Before(e, es[0]);
        assert forall x :: x in es ==> Before(e, x);
      }
    }
  }

  /** When no other entry carries e's sequence number, inserting adds exactly e. */
  lemma {:induction false} InsertMember(es: seq<Entry>, e: Entry)
    requires forall x :: x in es && x.seqno == e.seqno ==> x == e
    ensures forall x :: x in Insert(es, e) <==> x in es || x == e
  {
    hide Less;
    if es != [] {
      InsertMember(es[1..], e);
    }
  }

  ghost predicate SeqnosIdentify(es: seq<Entry>) {
    forall a, b :: a in es && b in es && a.seqno == b.seqno ==> a == b
  }

  lemma {:induction false} InsertAllMember(es: seq<Entry>, batch: seq<Entry>)
    requires Sorted(es) && SeqnosIdentify(es + batch)
    ensures Sorted(InsertAll(es, batch))
    ensures forall x :: x in InsertAll(es, batch) <==> x in es || x in batch
  {
    if batch != [] {
      var n := |batch| - 1;
      var front, e := batch[..n], batch[n];
      assert forall x :: x in es + front ==> x in es + batch;
      InsertAllMember(es, front);
      var r := InsertAll(es, front);
      InsertSorted(r, e);
      assert e in es + batch && forall x :: x in r ==> x in es + batch;
      InsertMember(r, e);
      assert batch == front + [e];
    }
  }
}
