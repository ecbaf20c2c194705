// The skip list behind a memtable: linked nodes that refine a sorted list, whatever levels are drawn.
module SkipList {
  import opened Keys
  import opened Table

  const MAX_LEVEL: nat := 12

  class Node {
    const key: Bytes
    const seqno: nat
    const kind: Kind
    const level: nat
    var value: Bytes
    var forward: seq<Node?>

    constructor (e: Entry, level: nat)
      ensures key == e.key && seqno == e.seqno && kind == e.kind && value == e.value && this.level == level
      ensures forward == seq(MAX_LEVEL, i => null)
    {
      key, seqno, kind, value := e.key, e.seqno, e.kind, e.value;
      this.level := level;
      forward := seq(MAX_LEVEL, i => null);
    }

    function At(): Entry
      reads this`value
    {
      Entry(key, seqno, kind, value)
    }
  }

  /** n sorts before e: the value and the type play no part. */
  predicate Precedes(n: Node, e: Entry) {
    Less(n.key, e.key) || (n.key == e.key && n.seqno > e.seqno)
  }

  // ---- The shape, over the nodes in order with the head in front ----

  /** The first node after i that reaches level h. */
  function Next(spine: seq<Node>, i: nat, h: nat): (j: nat)
    requires i < |spine|
    ensures i < j <= |spine| && (j < |spine| ==> spine[j].level > h)
    ensures forall m :: i < m < j ==> spine[m].level <= h
    decreases |spine| - i
  {
    if i + 1 == |spine| || spine[i + 1].level > h then i + 1 else Next(spine, i + 1, h)
  }

  function Link(spine: seq<Node>, i: nat, h: nat): Node?
    requires i < |spine|
  {
    if h >= spine[i].level || Next(spine, i, h) == |spine| then null else spine[Next(spine, i, h)]
  }

  ghost predicate Linked(spine: seq<Node>)
    reads spine
  {
    forall m :: 0 <= m < |spine| ==>
      |spine[m].forward| == MAX_LEVEL && forall h :: 0 <= h < MAX_LEVEL ==> spine[m].forward[h] == Link(spine, m, h)
  }

  ghost predicate Ordered(spine: seq<Node>) {
    forall i, j {:trigger spine[i], spine[j]} :: 1 <= i < j < |spine| ==>
      Less(spine[i].key, spine[j].key) || (spine[i].key == spine[j].key && spine[i].seqno > spine[j].seqno)
  }

  ghost predicate Shaped(spine: seq<Node>, level: nat) {
    && spine != [] && spine[0].level == MAX_LEVEL && 1 <= level <= MAX_LEVEL
    && (forall i :: 1 <= i < |spine| ==> 1 <= spine[i].level <= level)
    && (forall i, j :: 0 <= i < j < |spine| ==> spine[i] != spine[j])
    && Ordered(spine)
  }

  /** The entries of the nodes after the head. */
  function Listed(spine: seq<Node>): (es: seq<Entry>)
    reads spine
    requires spine != []
    ensures |es| == |spine| - 1 && forall i :: 0 <= i < |es| ==> es[i] == spine[i + 1].At()
  {
    seq(|spine| - 1, i requires 0 <= i < |spine| - 1 reads spine => spine[i + 1].At())
  }

  /** Nodes before p sort before e, the others do not. */
  ghost predicate SplitAt(spine: seq<Node>, e: Entry, p: nat) {
    && 1 <= p <= |spine|
    && (forall i :: 1 <= i < p ==> Precedes(spine[i], e))
    && (forall i :: p <= i < |spine| ==> !Precedes(spine[i], e))
  }

  lemma NextIs(spine: seq<Node>, i: nat, h: nat, j: nat)
    requires i < j <= |spine| && (j < |spine| ==> spine[j].level > h)
    requires forall m :: i < m < j ==> spine[m].level <= h
    ensures Next(spine, i, h) == j
  {
  }

  function Spliced(spine: seq<Node>, p: nat, node: Node): (r: seq<Node>)
    requires p <= |spine|
    ensures |r| == |spine| + 1 && r[p] == node
    ensures forall i :: 0 <= i < p ==> r[i] == spine[i]
    ensures forall i :: p < i < |r| ==> r[i] == spine[i - 1]
  {
    spine[..p] + [node] + spine[p..]
  }

  /** Where the nodes of a level are after a splice. */
  lemma NextAfter(spine: seq<Node>, p: nat, node: Node, m: nat, h: nat)
    requires 1 <= p <= m < |spine|
    ensures Next(Spliced(spine, p, node), m + 1, h) == Next(spine, m, h) + 1
  {
    hide Spliced;
    var r, j := Spliced(spine, p, node), Next(spine, m, h);
    assert j < |spine| ==> r[j + 1] == spine[j];
    assert forall x :: m + 1 < x < j + 1 ==> r[x] == spine[x - 1];
    NextIs(r, m + 1, h, j + 1);
  }

  lemma NextWithin(spine: seq<Node>, p: nat, node: Node, m: nat, h: nat)
    requires 1 <= p <= |spine| && m < |spine| && Next(spine, m, h) < p
    ensures Next(Spliced(spine, p, node), m, h) == Next(spine, m, h)
  {
    hide Spliced;
    NextIs(Spliced(spine, p, node), m, h, Next(spine, m, h));
  }

  lemma NextAcross(spine: seq<Node>, p: nat, node: Node, m: nat, h: nat)
    requires 1 <= p <= |spine| && m < p <= Next(spine, m, h)
    ensures var r, j := Spliced(spine, p, node), Next(spine, m, h);
            Next(r, m, h) == (if node.level > h then p else j + 1) && Next(r, p, h) == j + 1
  {
    hide Spliced;
    var r, j := Spliced(spine, p, node), Next(spine, m, h);
    assert j < |spine| ==> r[j + 1] == spine[j];
    assert forall x :: p < x < j + 1 ==> r[x] == spine[x - 1];
    NextIs(r, p, h, j + 1);
    NextIs(r, m, h, if node.level > h then p else j + 1);
  }

  lemma SplitExists(spine: seq<Node>, e: Entry) returns (p: nat)
    requires Ordered(spine) && spine != []
    ensures SplitAt(spine, e, p)
  {
    hide Less;
    LessIsTotalOrder();
    p := 1;
    while p < |spine| && Precedes(spine[p], e)
      invariant 1 <= p <= |spine| && forall i :: 1 <= i < p ==> Precedes(spine[i], e)
    {
      p := p + 1;
    }
  }

  /** x, at position q, is the last node before position p that reaches level h. */
  ghost predicate IsLast(spine: seq<Node>, x: Node, q: nat, p: nat, h: nat) {
    q < p <= |spine| && spine[q] == x && x.level > h && p <= Next(spine, q, h)
  }

  lemma LastIs(spine: seq<Node>, x: Node, q: nat, p: nat, h: nat)
    requires IsLast(spine, x, q, p, h)
    ensures q < p <= |spine| && spine[q] == x && x.level > h && p <= Next(spine, q, h)
  {
  }

  class SkipList {
    const head: Node
    var level: nat
    var length: nat
    ghost var spine: seq<Node>

    ghost predicate Valid()
      reads this, spine
    {
      && Shaped(spine, level) && spine[0] == head && length == |spine| - 1 && Linked(spine)
    }

    ghost function Contents(): seq<Entry>
      reads this, spine
      requires Valid()
    {
      Listed(spine)
    }

    constructor ()
      ensures Valid() && fresh(spine) && Contents() == []
    {
      var h := new Node(Entry([], 0, Value, []), MAX_LEVEL);
      head := h;
      level := 1;
      length := 0;
      spine := [h];
    }

    /** The walk shared by Insert and FindLE: down the levels, along each while the next node sorts before e. */
    method Search(e: Entry, ghost p: nat) returns (update: seq<Node>, ghost at: seq<nat>)
      requires Valid() && SplitAt(spine, e, p)
      ensures |update| == |at| == MAX_LEVEL
      ensures forall h :: 0 <= h < level ==> IsLast(spine, update[h], at[h], p, h)
    {
      hide Less;
      var x: Node := head;
      ghost var q: nat := 0;
      update, at := seq(MAX_LEVEL, i => x), seq(MAX_LEVEL, i => 0);
      var i := level;
      while i > 0
        invariant 0 <= i <= level && |update| == |at| == MAX_LEVEL
        invariant q < p && spine[q] == x && (i > 0 ==> x.level > i - 1)
        invariant forall h :: i <= h < level ==> IsLast(spine, update[h], at[h], p, h)
      {
        i := i - 1;
        while x.forward[i] != null && Precedes(x.forward[i], e)
          invariant q < p && spine[q] == x && x.level > i
          decreases |spine| - q
        {
          q := Next(spine, q, i);
          x := x.forward[i];
        }
        update, at := update[i := x], at[i := q];
      }
    }

    /** Insert, with the level drawn for a new node as a parameter. */
    method Insert(e: Entry, drawn: nat)
      requires Valid() && 1 <= drawn <= MAX_LEVEL
      modifies this, spine
      ensures Valid() && forall n :: n in spine ==> n in old(spine) || (fresh(n) && n.level == drawn)
      ensures Contents() == Table.Insert(old(Contents()), e)
    {
      hide Less;
      ghost var p := SplitExists(spine, e);
      ghost var at: seq<nat>;
      var update: seq<Node>;
      update, at := Search(e, p);
      var x := update[0].forward[0];
      assert Next(spine, at[0], 0) == at[0] + 1 == p;
      ghost var was := Contents();
      InsertAt(was, e, p - 1);
      if x != null && x.key == e.key && x.seqno == e.seqno {
        Overwrite(x, p, e.value);
        return;
      }
      assert p < |spine| ==> spine[p].key != e.key || spine[p].seqno != e.seqno;
      AddNode(e, drawn, update, at, p);
    }

    method Overwrite(x: Node, ghost p: nat, value: Bytes)
      requires Valid() && 1 <= p < |spine| && spine[p] == x
      modifies x`value
      ensures Valid() && Contents() == old(Contents())[p - 1 := old(Contents())[p - 1].(value := value)]
    {
      hide Link, Ordered;
      x.value := value;
    }

    method AddNode(e: Entry, newLevel: nat, searched: seq<Node>, ghost found: seq<nat>, ghost p: nat)
      requires Valid() && 1 <= newLevel <= MAX_LEVEL && SplitAt(spine, e, p) && |searched| == |found| == MAX_LEVEL
      requires forall h :: 0 <= h < level ==> IsLast(spine, searched[h], found[h], p, h)
      requires p < |spine| ==> spine[p].key != e.key || spine[p].seqno != e.seqno
      modifies this, spine
      ensures Valid() && forall n :: n in spine ==> n in old(spine) || (fresh(n) && n.level == newLevel)
      ensures Contents() == old(Contents())[..p - 1] + [e] + old(Contents())[p - 1..]
    {
      hide Shaped, Linked, IsLast, Precedes, Listed, Spliced;
      assert 1 <= p <= |spine|;
      hide SplitAt;
      var update: seq<Node>;
      ghost var at, was := found, level;
      ShapeBasics(spine, level);
      update, at := FromHead(newLevel, searched, found, p);
      if newLevel > level {
        level := newLevel;
      }
      Splice(e, newLevel, update, at, p, was);
    }

    /** A node of the given level takes position p. */
    method Splice(e: Entry, newLevel: nat, update: seq<Node>, ghost at: seq<nat>, ghost p: nat, ghost was: nat)
      requires Shaped(spine, was) && was <= level <= MAX_LEVEL && spine[0] == head && length == |spine| - 1 && Linked(spine)
      requires 1 <= newLevel <= level && SplitAt(spine, e, p) && |update| == |at| == MAX_LEVEL
      requires forall h :: 0 <= h < newLevel ==> IsLast(spine, update[h], at[h], p, h)
      requires p < |spine| ==> spine[p].key != e.key || spine[p].seqno != e.seqno
      modifies `length, `spine, spine`forward
      ensures Valid() && forall n :: n in spine ==> n in old(spine) || (fresh(n) && n.level == newLevel)
      ensures Contents() == old(Contents())[..p - 1] + [e] + old(Contents())[p - 1..]
    {
      assert 1 <= p <= |spine|;
      hide Shaped, Linked, IsLast, Precedes, Listed, Spliced, SplitAt;
      var node := Attach(e, newLevel, update, at, p, was);
      SplicedFacts(spine, p, node, e, was, level);
      length, spine := length + 1, Spliced(spine, p, node);
    }

    method Attach(e: Entry, newLevel: nat, update: seq<Node>, ghost at: seq<nat>, ghost p: nat, ghost was: nat)
        returns (node: Node)
      requires Shaped(spine, was) && Linked(spine) && 1 <= newLevel <= MAX_LEVEL && |update| == |at| == MAX_LEVEL
      requires 1 <= p <= |spine| && forall h :: 0 <= h < newLevel ==> IsLast(spine, update[h], at[h], p, h)
      modifies spine`forward
      ensures fresh(node) && node !in spine && node.level == newLevel && node.At() == e
      ensures Linked(Spliced(spine, p, node)) && Listed(spine) == old(Listed(spine))
    {
      hide Shaped, Linked, IsLast, Listed, Spliced;
      ShapeBasics(spine, was);
      node := new Node(e, newLevel);
      assert node !in spine;
      LinkIn(node, update, at, p);
    }

    /** On levels not used so far the head comes before the new node. */
    method FromHead(newLevel: nat, searched: seq<Node>, ghost found: seq<nat>, ghost p: nat)
        returns (update: seq<Node>, ghost at: seq<nat>)
      requires Valid() && newLevel <= MAX_LEVEL && |searched| == |found| == MAX_LEVEL && 1 <= p <= |spine|
      requires forall h :: 0 <= h < level ==> IsLast(spine, searched[h], found[h], p, h)
      ensures |update| == |at| == MAX_LEVEL && forall h :: 0 <= h < newLevel ==> IsLast(spine, update[h], at[h], p, h)
    {
      update, at := searched, found;
      for i := level to if newLevel > level then newLevel else level
        invariant |update| == |at| == MAX_LEVEL && forall h :: 0 <= h < i ==> IsLast(spine, update[h], at[h], p, h)
      {
        NextIs(spine, 0, i, |spine|);
        update, at := update[i := head], at[i := 0];
      }
    }

    /** Threads a new node into every list of its level. */
    method LinkIn(node: Node, update: seq<Node>, ghost at: seq<nat>, ghost p: nat)
      requires spine != [] && Linked(spine) && node !in spine && |update| == |at| == MAX_LEVEL && 1 <= node.level <= MAX_LEVEL
      requires |node.forward| == MAX_LEVEL && forall h :: 0 <= h < MAX_LEVEL ==> node.forward[h] == null
      requires 1 <= p <= |spine| && forall h :: 0 <= h < node.level ==> IsLast(spine, update[h], at[h], p, h)
      requires forall i, j :: 0 <= i < j < |spine| ==> spine[i] != spine[j]
      modifies node`forward, spine`forward
      ensures Linked(Spliced(spine, p, node)) && Listed(spine) == old(Listed(spine))
    {
      hide Link, IsLast, Linked, Threaded, Next, Spliced;
      LinkedIsThreaded(spine, node, at);
      for i := 0 to node.level
        invariant Threaded(spine, node, at, i)
      {
        LastIs(spine, update[i], at[i], p, i);
        Thread(node, update[i], at, i);
      }
      forall h | 0 <= h < node.level
        ensures at[h] < p <= |spine| && spine[at[h]].level > h && p <= Next(spine, at[h], h)
      {
        LastIs(spine, update[h], at[h], p, h);
      }
      ThreadedLinks(spine, node, at, p);
    }

    method Thread(node: Node, u: Node, ghost at: seq<nat>, i: nat)
      requires Threaded(spine, node, at, i) && node !in spine && i < MAX_LEVEL
      requires at[i] < |spine| && spine[at[i]] == u
      requires forall i, j :: 0 <= i < j < |spine| ==> spine[i] != spine[j]
      modifies node`forward, u`forward
      ensures Threaded(spine, node, at, i + 1)
    {
      hide Link;
      assert u in spine;
      node.forward := node.forward[i := u.forward[i]];
      u.forward := u.forward[i := node];
    }

    /** FindLE: the first node not before the search key, if it has the same user key. */
    method FindLE(search: Entry) returns (r: Node?)
      requires Valid()
      ensures r == null ==> Sought(Contents(), search) == None
      ensures r != null ==> r in spine && Sought(Contents(), search) == Some(r.At())
    {
      hide Less;
      ghost var p := SplitExists(spine, search);
      ghost var at: seq<nat>;
      var update: seq<Node>;
      update, at := Search(search, p);
      var x := update[0].forward[0];
      assert Next(spine, at[0], 0) == at[0] + 1 == p;
      SoughtAt(Contents(), search, p - 1);
      if x == null || x.key != search.key {
        return null;
      }
      return x;
    }

    /** The bottom links visit every entry in order. */
    method Entries() returns (es: seq<Entry>)
      requires Valid()
      ensures es == Contents()
    {
      es := [];
      var current := head.forward[0];
      ghost var q := 0;
      assert |spine| > 1 ==> spine[1].level > 0;
      while current != null
        invariant q < |spine| && es == Contents()[..q]
        invariant current == Link(spine, q, 0) && spine[q].level > 0
        decreases |spine| - q
      {
        assert Next(spine, q, 0) == q + 1;
        es := es + [current.At()];
        q := q + 1;
        current := current.forward[0];
      }
      assert q == |spine| - 1;
    }
  }

  /** In a spliced list the last node before p to reach level h leads to the new node, the others lead where they did. */
  lemma LinkBefore(spine: seq<Node>, p: nat, node: Node, h: nat, u: nat, m: nat)
    requires 1 <= p <= |spine| && m < p
    requires h < node.level ==> u < p && spine[u].level > h && p <= Next(spine, u, h)
    ensures Link(Spliced(spine, p, node), m, h) == if h < node.level && u == m then node else Link(spine, m, h)
  {
    hide Spliced;
    var r, j := Spliced(spine, p, node), Next(spine, m, h);
    assert r[m] == spine[m];
    if j < p {
      NextWithin(spine, p, node, m, h);
    } else {
      NextAcross(spine, p, node, m, h);
    }
    if h < spine[m].level && j >= p {
      assert j < |spine| ==> r[j + 1] == spine[j];
      if h < node.level {
        NextBounds(spine, u, h);
        NextBounds(spine, m, h);
        assert m == u;
      }
    }
  }

  lemma LinkAfter(spine: seq<Node>, p: nat, node: Node, h: nat, m: nat)
    requires 1 <= p <= |spine| && p <= m < |spine|
    ensures Link(Spliced(spine, p, node), m + 1, h) == Link(spine, m, h)
  {
    hide Spliced;
    var r, j := Spliced(spine, p, node), Next(spine, m, h);
    NextAfter(spine, p, node, m, h);
    assert r[m + 1] == spine[m] && (j < |spine| ==> r[j + 1] == spine[j]);
  }

  lemma LinkHere(spine: seq<Node>, p: nat, node: Node, h: nat, u: nat)
    requires 1 <= p <= |spine|
    requires h < node.level ==> u < p && spine[u].level > h && p <= Next(spine, u, h)
    ensures Link(Spliced(spine, p, node), p, h) == if h < node.level then Link(spine, u, h) else null
  {
    hide Spliced;
    var r := Spliced(spine, p, node);
    if h < node.level {
      var j := Next(spine, u, h);
      NextAcross(spine, p, node, u, h);
      assert j < |spine| ==> r[j + 1] == spine[j];
    }
  }

  lemma NextBounds(spine: seq<Node>, i: nat, h: nat)
    requires i < |spine|
    ensures i < Next(spine, i, h)
    ensures forall m :: i < m < |spine| && spine[m].level > h ==> Next(spine, i, h) <= m
  {
  }

  /** The lists below level i go through node after the nodes in at; the others are as the spine has them. */
  ghost predicate Threaded(spine: seq<Node>, node: Node, at: seq<nat>, i: nat)
    reads spine, node
  {
    && |at| == MAX_LEVEL && |node.forward| == MAX_LEVEL && i <= MAX_LEVEL
    && (forall m :: 0 <= m < |spine| ==> ThreadedAt(spine, spine[m], node, at, i, m))
    && (forall h :: 0 <= h < i && at[h] < |spine| ==> node.forward[h] == Link(spine, at[h], h))
    && (forall h :: i <= h < MAX_LEVEL ==> node.forward[h] == null)
  }

  ghost predicate ThreadedAt(spine: seq<Node>, n: Node, node: Node, at: seq<nat>, i: nat, m: nat)
    requires m < |spine| && |at| == MAX_LEVEL
    reads n
  {
    && |n.forward| == MAX_LEVEL
    && forall h :: 0 <= h < MAX_LEVEL ==> n.forward[h] == if h < i && at[h] == m then node else Link(spine, m, h)
  }

  lemma LinkedIsThreaded(spine: seq<Node>, node: Node, at: seq<nat>)
    requires Linked(spine) && |at| == MAX_LEVEL && |node.forward| == MAX_LEVEL
    requires forall h :: 0 <= h < MAX_LEVEL ==> node.forward[h] == null
    ensures Threaded(spine, node, at, 0)
  {
    hide Link;
  }

  lemma ThreadedLink(spine: seq<Node>, node: Node, at: seq<nat>, p: nat, m: nat, h: nat)
    requires 1 <= p <= |spine| && node.level <= MAX_LEVEL && Threaded(spine, node, at, node.level)
    requires h < node.level ==> at[h] < p && spine[at[h]].level > h && p <= Next(spine, at[h], h)
    requires m <= |spine| && h < MAX_LEVEL
    ensures var r := Spliced(spine, p, node); |r[m].forward| == MAX_LEVEL && r[m].forward[h] == Link(r, m, h)
  {
    hide Link, Next, Spliced;
    var r := Spliced(spine, p, node);
    var i := if m < p then m else m - 1;
    if m != p {
      assert r[m] == spine[i] && ThreadedAt(spine, spine[i], node, at, node.level, i);
    }
    if m < p {
      LinkBefore(spine, p, node, h, at[h], m);
    } else if m == p {
      LinkHere(spine, p, node, h, at[h]);
    } else {
      LinkAfter(spine, p, node, h, i);
    }
  }

  lemma ThreadedRow(spine: seq<Node>, node: Node, at: seq<nat>, p: nat, m: nat)
    requires 1 <= p <= |spine| && node.level <= MAX_LEVEL && Threaded(spine, node, at, node.level) && m <= |spine|
    requires forall h :: 0 <= h < node.level ==> at[h] < p && spine[at[h]].level > h && p <= Next(spine, at[h], h)
    ensures var r := Spliced(spine, p, node);
            |r[m].forward| == MAX_LEVEL && forall h :: 0 <= h < MAX_LEVEL ==> r[m].forward[h] == Link(r, m, h)
  {
    hide Link, Next, Threaded, Spliced;
    var r := Spliced(spine, p, node);
    ThreadedLink(spine, node, at, p, m, 0);
    forall h | 0 <= h < MAX_LEVEL
      ensures r[m].forward[h] == Link(r, m, h)
    {
      ThreadedLink(spine, node, at, p, m, h);
    }
  }

  lemma ThreadedLinks(spine: seq<Node>, node: Node, at: seq<nat>, p: nat)
    requires 1 <= p <= |spine| && node.level <= MAX_LEVEL && Threaded(spine, node, at, node.level)
    requires forall h :: 0 <= h < node.level ==> at[h] < p && spine[at[h]].level > h && p <= Next(spine, at[h], h)
    ensures Linked(Spliced(spine, p, node))
  {
    hide Link, Next, Threaded, Spliced;
    var r := Spliced(spine, p, node);
    forall m | 0 <= m < |r|
      ensures |r[m].forward| == MAX_LEVEL && forall h :: 0 <= h < MAX_LEVEL ==> r[m].forward[h] == Link(r, m, h)
    {
      ThreadedRow(spine, node, at, p, m);
    }
  }

  lemma ShapeBasics(spine: seq<Node>, level: nat)
    requires Shaped(spine, level)
    ensures spine != [] && 1 <= level <= MAX_LEVEL && forall i, j :: 0 <= i < j < |spine| ==> spine[i] != spine[j]
  {
  }

  lemma SplicedShape(spine: seq<Node>, p: nat, node: Node, e: Entry, was: nat, level: nat)
    requires Shaped(spine, was) && was <= level <= MAX_LEVEL && SplitAt(spine, e, p)
    requires 1 <= node.level <= level && node !in spine
    requires node.key == e.key && node.seqno == e.seqno
    requires p < |spine| ==> spine[p].key != e.key || spine[p].seqno != e.seqno
    ensures Shaped(Spliced(spine, p, node), level)
  {
    hide Less, Spliced, Ordered;
    var r := Spliced(spine, p, node);
    assert forall i :: 0 <= i < |spine| ==> spine[i] in spine;
    assert forall i :: 0 <= i < |r| ==> r[i] == if i < p then spine[i] else if i == p then node else spine[i - 1];
    forall i, j | 0 <= i < j < |r|
      ensures r[i] != r[j]
    {
      assert i != p ==> r[i] in spine;
      assert j != p ==> r[j] in spine;
    }
    SplicedOrder(spine, p, node, e);
  }

  lemma SplicedOrder(spine: seq<Node>, p: nat, node: Node, e: Entry)
    requires spine != [] && Ordered(spine) && SplitAt(spine, e, p) && node.key == e.key && node.seqno == e.seqno
    requires p < |spine| ==> spine[p].key != e.key || spine[p].seqno != e.seqno
    ensures Ordered(Spliced(spine, p, node))
  {
    hide Less, Spliced;
    LessIsTotalOrder();
    var r := Spliced(spine, p, node);
    forall i, j | 1 <= i < j < |r|
      ensures Less(r[i].key, r[j].key) || (r[i].key == r[j].key && r[i].seqno > r[j].seqno)
    {
      var a, b := if i <= p then i else i - 1, if j <= p then j else j - 1;
      if i == p {
        assert r[j] == spine[b] && !Precedes(spine[p], e) && !Precedes(spine[b], e);
        assert p < b ==> Less(spine[p].key, spine[b].key) || (spine[p].key == spine[b].key && spine[p].seqno > spine[b].seqno);
      } else if j == p {
        assert r[i] == spine[a] && Precedes(spine[a], e);
      } else {
        assert r[i] == spine[a] && r[j] == spine[b] && a < b;
      }
    }
  }

  lemma SplicedMembers(spine: seq<Node>, p: nat, node: Node)
    requires p <= |spine|
    ensures forall n :: n in Spliced(spine, p, node) <==> n == node || n in spine
  {
    assert spine == spine[..p] + spine[p..];
  }

  lemma SplicedListed(spine: seq<Node>, p: nat, node: Node)
    requires spine != [] && 1 <= p <= |spine|
    ensures Listed(Spliced(spine, p, node)) == Listed(spine)[..p - 1] + [node.At()] + Listed(spine)[p - 1..]
  {
  }

  lemma SplicedFacts(spine: seq<Node>, p: nat, node: Node, e: Entry, was: nat, level: nat)
    requires Shaped(spine, was) && was <= level <= MAX_LEVEL && SplitAt(spine, e, p)
    requires 1 <= node.level <= level && node !in spine && node.At() == e
    requires p < |spine| ==> spine[p].key != e.key || spine[p].seqno != e.seqno
    ensures Shaped(Spliced(spine, p, node), level) && Spliced(spine, p, node)[0] == spine[0]
    ensures forall n :: n in Spliced(spine, p, node) <==> n == node || n in spine
    ensures Listed(Spliced(spine, p, node)) == Listed(spine)[..p - 1] + [e] + Listed(spine)[p - 1..]
  {
    hide Shaped, Spliced;
    SplicedShape(spine, p, node, e, was, level);
    SplicedMembers(spine, p, node);
    SplicedListed(spine, p, node);
  }

  /** Every level is a sorted sublist of the one below it. */
  lemma LevelsNest(spine: seq<Node>, level: nat, i: nat, h: nat)
    requires Shaped(spine, level) && Linked(spine) && i < |spine| && 0 < h < MAX_LEVEL && spine[i].forward[h] != null
    ensures exists j :: i < j < |spine| && spine[i].forward[h] == spine[j] && spine[j].level > h && spine[i].level > h
              && (i > 0 ==> Precedes(spine[i], spine[j].At()))
              && Next(spine, i, h - 1) <= j && spine[i].forward[h - 1] == spine[Next(spine, i, h - 1)]
  {
    hide Less;
    var j := Next(spine, i, h);
    NextBounds(spine, i, h - 1);
    assert spine[i].forward[h] == spine[j];
  }

  /** Insert at its place in a sorted list, or the new value where the key is already there. */
  lemma {:induction false} InsertAt(es: seq<Entry>, e: Entry, p: nat)
    requires p <= |es| && (forall i :: 0 <= i < p ==> Before(es[i], e)) && (p < |es| ==> !Before(es[p], e))
    ensures Insert(es, e) == if p < |es| && es[p].key == e.key && es[p].seqno == e.seqno then es[p := es[p].(value := e.value)]
                             else es[..p] + [e] + es[p..]
  {
    hide Before;
    if p > 0 {
      var tail := es[1..];
      InsertStep(es, e);
      InsertAt(tail, e, p - 1);
      hide Insert;
      assert p < |es| ==> tail[p - 1] == es[p];
      if p < |es| && es[p].key == e.key && es[p].seqno == e.seqno {
        assert [es[0]] + tail[p - 1 := es[p].(value := e.value)] == es[p := es[p].(value := e.value)];
      } else {
        InsertFront(es, e, p);
      }
    } else {
      assert es[..0] + [e] + es[0..] == [e] + es;
    }
  }

  lemma InsertStep(es: seq<Entry>, e: Entry)
    requires es != [] && Before(es[0], e)
    ensures Insert(es, e) == [es[0]] + Insert(es[1..], e)
  {
  }

  lemma InsertFront(es: seq<Entry>, e: Entry, p: nat)
    requires 0 < p <= |es|
    ensures [es[0]] + (es[1..][..p - 1] + [e] + es[1..][p - 1..]) == es[..p] + [e] + es[p..]
  {
    assert es[..p] == [es[0]] + es[1..][..p - 1];
    assert es[p..] == es[1..][p - 1..];
  }

  /** What FindLE finds in a sorted list. */
  function Sought(es: seq<Entry>, search: Entry): Option<Entry> {
    if es == [] then None
    else if Before(es[0], search) then Sought(es[1..], search)
    else if es[0].key == search.key then Some(es[0])
    else None
  }

  lemma {:induction false} SoughtAt(es: seq<Entry>, search: Entry, p: nat)
    requires p <= |es| && (forall i :: 0 <= i < p ==> Before(es[i], search)) && (p < |es| ==> !Before(es[p], search))
    ensures Sought(es, search) == if p < |es| && es[p].key == search.key then Some(es[p]) else None
  {
    hide Less;
    if p > 0 { SoughtAt(es[1..], search, p - 1); }
  }
}
