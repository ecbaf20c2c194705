// Writing a table file entry by entry, and reading it through moving iterators.
module TableFile {
  import opened Keys
  import opened Codec
  import opened Varint
  import opened Block
  import opened SSTable
  import opened Bloom

  /** Internal keys in order encode to block keys in order. */
  lemma OrderedKeys(a: Entry, b: Entry)
    requires Before(a, b) && a.seqno < U64 && b.seqno < U64
    ensures InOrder(EncodeKey(a), EncodeKey(b))
  {
    hide Less, EncodeKey, DecodeKey;
    LessIsTotalOrder();
    KeyRoundTrip(a);
    KeyRoundTrip(b);
  }

  lemma FirstInBlock(e: Entry)
    requires e.seqno < U64
    ensures InOrder([], EncodeKey(e))
  {
    hide EncodeKey;
    KeyRoundTrip(e);
  }

  lemma BuiltLast(ps: seq<Pair>, interval: nat)
    ensures Built(ps, interval).last == if ps == [] then [] else ps[|ps| - 1].key
  {
    hide Chunk, Shared;
  }

  lemma BlocksGrow(blocks: seq<seq<Entry>>, b: seq<Entry>)
    requires NoneEmpty(blocks) && b != []
    ensures NoneEmpty(blocks + [b]) && IndexPairs(blocks + [b])[..|blocks|] == IndexPairs(blocks)
    ensures DataBytes(blocks + [b]) == DataBytes(blocks) + BlockBytes(b)
    ensures Flatten(blocks + [b]) == Flatten(blocks) + b
    ensures HandleOf(blocks + [b], |blocks|) == BlockHandle(|DataBytes(blocks)|, |BlockBytes(b)|)
  {
    hide BlockBytes, EncodeKey, EncodeHandle, DataBytes;
    var all := blocks + [b];
    assert all[..|blocks|] == blocks && all[|blocks|] == b;
    forall i | 0 <= i < |blocks|
      ensures all[i] == blocks[i] && all[..i] == blocks[..i]
    {
    }
    DataNext(blocks, b);
    FlattenAppend(blocks, b);
    assert forall i :: 0 <= i < |all| ==> all[i] != [];
    forall i | 0 <= i < |blocks|
      ensures IndexPairs(all)[..|blocks|][i] == IndexPairs(blocks)[i]
    {
      assert HandleOf(all, i) == HandleOf(blocks, i);
    }
  }

  lemma DataNext(blocks: seq<seq<Entry>>, b: seq<Entry>)
    ensures DataBytes(blocks + [b]) == DataBytes(blocks) + BlockBytes(b)
  {
    hide BlockBytes;
    assert (blocks + [b])[..|blocks|] == blocks;
  }

  // ---- Where the blocks of a table end ----

  /** The blocks that are full after the entries es, and the entries of the one under way. */
  ghost function Cut(es: seq<Entry>, size: nat): (c: (seq<seq<Entry>>, seq<Entry>))
    ensures NoneEmpty(c.0) && Flatten(c.0) + c.1 == es
  {
    if es == [] then
      FlattenEmpty();
      ([], [])
    else
      hide Flatten, Built, Pairs;
      var n := |es| - 1;
      var c := Cut(es[..n], size);
      var o := c.1 + [es[n]];
      FlattenAppend(c.0, o);
      assert Flatten(c.0) + o == es;
      if |Built(Pairs(o), RESTART_INTERVAL).buf| >= size then (c.0 + [o], []) else (c.0, o)
  }

  ghost function Blocked(es: seq<Entry>, size: nat): (bs: seq<seq<Entry>>)
    ensures NoneEmpty(bs) && Flatten(bs) == es
  {
    var c := Cut(es, size);
    FlattenAppend(c.0, c.1);
    if c.1 == [] then c.0 else c.0 + [c.1]
  }

  lemma BlockedIs(es: seq<Entry>, size: nat, bs: seq<seq<Entry>>, os: seq<Entry>)
    requires Cut(es, size) == (bs, os)
    ensures Blocked(es, size) == if os == [] then bs else bs + [os]
  {
  }

  lemma CutNext(es: seq<Entry>, e: Entry, size: nat)
    ensures var c := Cut(es, size);
            var o := c.1 + [e];
            Cut(es + [e], size)
            == if |Built(Pairs(o), RESTART_INTERVAL).buf| >= size then (c.0 + [o], []) else (c.0, o)
  {
    hide Built, Pairs;
    assert (es + [e])[..|es|] == es && (es + [e])[|es|] == e;
  }

  ghost predicate JustFull(b: seq<Entry>, size: nat) {
    && b != [] && |Built(Pairs(b), RESTART_INTERVAL).buf| >= size
    && |Built(Pairs(b[..|b| - 1]), RESTART_INTERVAL).buf| < size
  }

  /** Every block but the last reaches the block size, and only with its last entry. */
  lemma {:induction false} CutIsFull(es: seq<Entry>, size: nat)
    requires size > 0
    ensures forall b :: b in Cut(es, size).0 ==> JustFull(b, size)
    ensures |Built(Pairs(Cut(es, size).1), RESTART_INTERVAL).buf| < size
  {
    hide Built, Pairs;
    NoPairs();
    EmptyBuilt();
    if es != [] {
      var n := |es| - 1;
      CutIsFull(es[..n], size);
      assert (Cut(es[..n], size).1 + [es[n]])[..|Cut(es[..n], size).1|] == Cut(es[..n], size).1;
    }
  }

  lemma NoPairs()
    ensures Pairs([]) == []
  {
  }

  lemma BlockedIsFull(es: seq<Entry>, size: nat, i: nat)
    requires size > 0 && i < |Blocked(es, size)|
    ensures i < |Blocked(es, size)| - 1 ==> JustFull(Blocked(es, size)[i], size)
  {
    hide JustFull, Flatten;
    CutIsFull(es, size);
    assert i < |Cut(es, size).0| ==> Cut(es, size).0[i] in Cut(es, size).0;
  }

  /** The defaults of NewSSTableBuilder. */
  function SizeOf(blockSize: int): nat {
    if blockSize <= 0 then 4096 else blockSize
  }

  function BitsOf(bitsPerKey: int): nat {
    if bitsPerKey <= 0 then 10 else bitsPerKey
  }

  /** The filter of a table: none when it is empty. */
  function FilterOf(hash: Bytes -> nat, keys: seq<Bytes>, bitsPerKey: nat): Bytes
    requires BitCount(|keys|, AtLeastOne(bitsPerKey)) % U32 != 0
  {
    if keys == [] then [] else ToBytes(FilterBits(hash, keys, bitsPerKey))
  }

  lemma FilterOfAdmits(hash: Bytes -> nat, es: seq<Entry>, bitsPerKey: nat)
    requires BitCount(|es|, AtLeastOne(bitsPerKey)) % U32 != 0
    ensures var filter := FilterOf(hash, KeysOf(es), bitsPerKey);
            (filter == [] <==> es == []) && Askable(filter) && forall e :: e in es ==> LetsThrough(filter, hash(e.key))
  {
    hide BitCount, LetsThrough, FilterBits;
    if es != [] {
      var keys := KeysOf(es);
      WrittenFilterAdmits(hash, keys, bitsPerKey);
      forall e | e in es
        ensures e.key in keys
      {
        var i :| 0 <= i < |es| && es[i] == e;
        assert keys[i] == e.key;
      }
    }
  }

  class SSTableBuilder {
    var file: Bytes
    const dataBlock: BlockBuilder
    const indexBlock: BlockBuilder
    var bloomKeys: seq<Bytes>
    const blockSize: nat
    const bitsPerKey: nat
    var firstKey: Option<Bytes>
    var lastKey: Bytes
    var lastIKey: Entry
    var numEntries: nat
    var pendingIndex: bool
    var lastHandle: BlockHandle
    var lastBlockIKey: Entry
    /** The blocks written so far, and the entries of the one under way. */
    ghost var blocks: seq<seq<Entry>>
    ghost var open: seq<Entry>

    ghost function Added(): seq<Entry>
      reads `blocks, `open
    {
      Flatten(blocks) + open
    }

    ghost predicate EntriesOk()
      reads this
    {
      var es := Added();
      && Sorted(es) && (forall e :: e in es ==> e.seqno < U64)
      && numEntries == |es| && bloomKeys == KeysOf(es) && (es == [] <==> firstKey.None?)
      && (es != [] ==> firstKey == Some(es[0].key) && lastKey == es[|es| - 1].key && lastIKey == es[|es| - 1])
    }

    /** The file holds the blocks, the data block the open entries, the index the first n blocks. */
    ghost predicate Laid(n: int)
      reads `file, `blocks, `open, dataBlock, indexBlock
    {
      && dataBlock != indexBlock && dataBlock.Valid() && indexBlock.Valid() && blockSize > 0
      && dataBlock.restartInterval == RESTART_INTERVAL && indexBlock.restartInterval == 1
      && NoneEmpty(blocks) && file == DataBytes(blocks) && dataBlock.pairs == Pairs(open)
      && 0 <= n <= |blocks| && indexBlock.pairs == IndexPairs(blocks)[..n]
    }

    ghost predicate PendingOk()
      reads `pendingIndex, `blocks, `open, `lastHandle, `lastBlockIKey
    {
      pendingIndex ==>
        && blocks != [] && open == [] && blocks[|blocks| - 1] != [] && lastHandle == HandleOf(blocks, |blocks| - 1)
        && lastBlockIKey == blocks[|blocks| - 1][|blocks[|blocks| - 1]| - 1]
    }

    ghost predicate BlocksOk()
      reads `file, `blocks, `open, `pendingIndex, `lastHandle, `lastBlockIKey, dataBlock, indexBlock
    {
      && Laid(if pendingIndex then |blocks| - 1 else |blocks|) && PendingOk()
      && |dataBlock.buf| < blockSize && (blocks != [] && open == [] ==> pendingIndex)
      && Cut(Added(), blockSize) == (blocks, open)
    }

    ghost predicate Valid()
      reads this, dataBlock, indexBlock
    {
      EntriesOk() && BlocksOk()
    }

    constructor (blockSize: int, bitsPerKey: int)
      ensures Valid() && fresh(dataBlock) && fresh(indexBlock) && Added() == []
      ensures this.blockSize == SizeOf(blockSize) && this.bitsPerKey == BitsOf(bitsPerKey)
    {
      file, bloomKeys, firstKey, lastKey, numEntries, pendingIndex := [], [], None, [], 0, false;
      lastIKey, lastBlockIKey := Entry([], 0, Value, []), Entry([], 0, Value, []);
      lastHandle := BlockHandle(0, 0);
      this.blockSize := if blockSize <= 0 then 4096 else blockSize;
      this.bitsPerKey := if bitsPerKey <= 0 then 10 else bitsPerKey;
      dataBlock := new BlockBuilder(RESTART_INTERVAL);
      indexBlock := new BlockBuilder(1);
      blocks, open := [], [];
      new;
      FlattenEmpty();
      assert Pairs([]) == [] && IndexPairs([]) == [];
    }

    lemma IndexInOrder()
      requires Laid(|blocks| - 1) && pendingIndex && PendingOk()
      requires Sorted(Flatten(blocks)) && forall e :: e in Flatten(blocks) ==> e.seqno < U64
      ensures indexBlock.lastKey.Some? ==> InOrder(indexBlock.lastKey.value, EncodeKey(lastBlockIKey))
    {
      hide Sorted, EncodeKey, InOrder, DataBytes, BlockBytes, Built;
      var n := |blocks| - 1;
      LastEntry(blocks, n);
      BuiltLast(indexBlock.pairs, 1);
      if n > 0 {
        BlocksInOrder(blocks, n);
      } else {
        FirstInBlock(lastBlockIKey);
      }
    }

    /** Writes the index entry of the last block, now that another entry follows or the table ends. */
    method IndexPending()
      requires Laid(|blocks| - 1) && pendingIndex && PendingOk()
      requires Sorted(Flatten(blocks)) && forall e :: e in Flatten(blocks) ==> e.seqno < U64
      modifies this`pendingIndex, indexBlock
      ensures Laid(|blocks|) && !pendingIndex
    {
      hide EncodeKey, InOrder, DataBytes, BlockBytes, Built;
      ghost var n := |blocks| - 1;
      IndexInOrder();
      indexBlock.Add(EncodeKey(lastBlockIKey), EncodeHandle(lastHandle));
      pendingIndex := false;
      assert IndexPairs(blocks)[..n] + [IndexPairs(blocks)[n]] == IndexPairs(blocks)[..n + 1];
    }

    method AppendEntry(e: Entry)
      requires Laid(|blocks|) && Sorted(open + [e]) && forall x :: x in open + [e] ==> x.seqno < U64
      modifies this`open, dataBlock
      ensures Laid(|blocks|) && open == old(open) + [e]
    {
      hide Sorted, EncodeKey, InOrder, DataBytes, BlockBytes, Built, IndexPairs;
      assert e in open + [e];
      if dataBlock.lastKey.Some? {
        BuiltLast(dataBlock.pairs, RESTART_INTERVAL);
        if open == [] {
          FirstInBlock(e);
        } else {
          SortedParts(open, [e]);
          assert open[|open| - 1] in open && open[|open| - 1] in open + [e];
          OrderedKeys(open[|open| - 1], e);
        }
      }
      dataBlock.Add(EncodeKey(e), e.value);
      assert Pairs(open + [e]) == Pairs(open) + [PairOf(e)];
      open := open + [e];
    }

    method FlushDataBlock()
      requires Laid(|blocks|) && open != []
      modifies this`file, this`lastHandle, this`pendingIndex, this`blocks, this`open, dataBlock
      ensures blocks == old(blocks) + [old(open)] && open == [] && pendingIndex && dataBlock.buf == []
      ensures Laid(|blocks| - 1) && lastHandle == HandleOf(blocks, |blocks| - 1)
    {
      hide EncodeKey, DataBytes, Built, IndexPairs, HandleOf;
      BlocksGrow(blocks, open);
      var data := dataBlock.Finish();
      lastHandle := BlockHandle(|file|, |data|);
      file := file + data;
      pendingIndex := true;
      dataBlock.Reset();
      EmptyBuilt();
      blocks, open := blocks + [open], [];
      assert Pairs([]) == [];
    }

    /** Puts an entry into the file's structure: a pending index entry first, a full block out last. */
    method Place(e: Entry)
      requires BlocksOk() && Sorted(Added() + [e]) && forall x :: x in Added() + [e] ==> x.seqno < U64
      modifies `file, `blocks, `open, `pendingIndex, `lastHandle, `lastBlockIKey, dataBlock, indexBlock
      ensures BlocksOk() && Added() == old(Added()) + [e]
    {
      hide Sorted, Flatten, Laid, HandleOf, Cut, Built, Pairs;
      ghost var es, bs, os := Added(), blocks, open;
      assert Flatten(bs) + (os + [e]) == es + [e];
      SortedParts(Flatten(bs), os + [e]);
      assert forall x :: x in os + [e] || x in Flatten(bs) ==> x in es + [e];
      if pendingIndex {
        IndexPending();
      }
      AppendEntry(e);
      CutNext(es, e, blockSize);
      LaidSize(|blocks|);
      FlushIfFull(e);
    }

    method FlushIfFull(e: Entry)
      requires Laid(|blocks|) && !pendingIndex && open != [] && open[|open| - 1] == e
      requires Cut(Added(), blockSize) == if |dataBlock.buf| >= blockSize then (blocks + [open], []) else (blocks, open)
      modifies `file, `blocks, `open, `pendingIndex, `lastHandle, `lastBlockIKey, dataBlock
      ensures BlocksOk() && Added() == old(Added())
    {
      hide Flatten, Laid, HandleOf, Cut;
      ghost var bs, os := blocks, open;
      LaidSize(|blocks|);
      if |dataBlock.buf| >= blockSize {
        lastBlockIKey := e;
        FlushDataBlock();
        FlattenAppend(bs, os);
        LaidSize(|blocks| - 1);
      }
    }

    lemma LaidSize(n: int)
      requires Laid(n)
      ensures blockSize > 0 && NoneEmpty(blocks) && dataBlock.buf == Built(Pairs(open), RESTART_INTERVAL).buf
    {
    }

    method Add(e: Entry)
      requires Valid() && Sorted(Added() + [e]) && e.seqno < U64
      modifies this, dataBlock, indexBlock
      ensures Valid() && Added() == old(Added()) + [e]
    {
      hide Sorted, BlocksOk;
      ghost var es := Added();
      if firstKey.None? {
        firstKey := Some(e.key);
      }
      lastKey := e.key;
      lastIKey := e;
      bloomKeys := bloomKeys + [e.key];
      KeysNext(es, e);
      Place(e);
      numEntries := numEntries + 1;
    }

    /** The last block out and indexed. */
    method CloseBlocks()
      requires Valid()
      modifies `file, `blocks, `open, `pendingIndex, `lastHandle, `lastBlockIKey, dataBlock, indexBlock
      ensures Laid(|blocks|) && open == [] && blocks == Blocked(old(Added()), blockSize)
    {
      hide Sorted, Flatten, Laid, KeysOf, Cut, Blocked, HandleOf;
      ghost var es, bs, os := Added(), blocks, open;
      BlockedIs(es, blockSize, bs, os);
      OpenSize();
      if |dataBlock.buf| > 0 {
        lastBlockIKey := lastIKey;
        FlushDataBlock();
        LaidSize(|blocks| - 1);
      } else {
        assert es == Flatten(blocks);
      }
      assert Flatten(blocks) == es;
      if pendingIndex {
        IndexPending();
      }
    }

    lemma OpenSize()
      requires BlocksOk()
      ensures |dataBlock.buf| > 0 <==> open != []
    {
      hide Shared;
    }

    lemma KeyCount()
      requires Valid()
      ensures bloomKeys == KeysOf(Added()) && |bloomKeys| == |Added()|
    {
    }

    lemma LaidOut()
      requires Laid(|blocks|)
      ensures NoneEmpty(blocks) && file == DataBytes(blocks) && indexBlock.Valid()
      ensures indexBlock.pairs == IndexPairs(blocks) && indexBlock.restartInterval == 1
    {
      IndexIsWhole(blocks);
    }

    /** The filter over the user keys; an empty table has none. */
    method BuildFilter(hash: Bytes -> nat) returns (filter: Bytes)
      requires BitCount(|bloomKeys|, AtLeastOne(bitsPerKey)) % U32 != 0
      ensures filter == FilterOf(hash, bloomKeys, bitsPerKey)
    {
      hide BitCount, FilterBits;
      filter := [];
      if |bloomKeys| > 0 {
        filter := FilterBytes(hash, bloomKeys, bitsPerKey);
      }
    }

    /** Finish: filter, index and footer after the blocks. */
    method Finish(hash: Bytes -> nat) returns (size: nat)
      requires Valid() && BitCount(|bloomKeys|, AtLeastOne(bitsPerKey)) % U32 != 0
      modifies this, dataBlock, indexBlock
      ensures BitCount(|old(Added())|, AtLeastOne(bitsPerKey)) % U32 != 0
      ensures file == TableBytes(Blocked(old(Added()), blockSize), FilterOf(hash, KeysOf(old(Added())), bitsPerKey))
      ensures size == |file| && firstKey == old(firstKey) && lastKey == old(lastKey) && numEntries == old(numEntries)
    {
      hide Sorted, Flatten, BitCount, Built, DataBytes, FooterOf, KeysOf, Finished, IndexPairs, Blocked, FilterOf;
      hide Valid, Laid;
      ghost var es := Added();
      KeyCount();
      var filterData := BuildFilter(hash);
      CloseBlocks();
      LaidOut();
      var filterHandle := if filterData == [] then BlockHandle(0, 0) else BlockHandle(|file|, |filterData|);
      file := file + filterData;
      var indexData := indexBlock.Finish();
      var indexHandle := BlockHandle(|file|, |indexData|);
      file := file + indexData;
      file := file + FooterOf(filterHandle, indexHandle);
      size := |file|;
    }
  }

  lemma IndexIsWhole(blocks: seq<seq<Entry>>)
    requires NoneEmpty(blocks)
    ensures IndexPairs(blocks)[..|blocks|] == IndexPairs(blocks)
  {
  }

  ghost function KeysOf(es: seq<Entry>): (ks: seq<Bytes>)
    ensures |ks| == |es| && forall i :: 0 <= i < |es| ==> ks[i] == es[i].key
  {
    seq(|es|, i requires 0 <= i < |es| => es[i].key)
  }

  lemma KeysNext(es: seq<Entry>, e: Entry)
    ensures KeysOf(es + [e]) == KeysOf(es) + [e.key]
  {
  }

  lemma EmptyBuilt()
    ensures Built([], RESTART_INTERVAL).buf == []
  {
  }

  lemma LastEntry(blocks: seq<seq<Entry>>, i: nat)
    requires NoneEmpty(blocks) && i < |blocks|
    ensures blocks[i][|blocks[i]| - 1] in Flatten(blocks)
  {
    FlattenMember(blocks, blocks[i][|blocks[i]| - 1]);
  }

  /** The last entries of consecutive blocks are in order. */
  lemma BlocksInOrder(blocks: seq<seq<Entry>>, n: nat)
    requires NoneEmpty(blocks) && 0 < n < |blocks| && Sorted(Flatten(blocks)) && forall e :: e in Flatten(blocks) ==> e.seqno < U64
    ensures InOrder(EncodeKey(blocks[n - 1][|blocks[n - 1]| - 1]), EncodeKey(blocks[n][|blocks[n]| - 1]))
  {
    hide Sorted, EncodeKey, InOrder;
    var a, b := blocks[n - 1][|blocks[n - 1]| - 1], blocks[n][|blocks[n]| - 1];
    LastEntry(blocks, n - 1);
    LastEntry(blocks, n);
    FlattenParted(blocks, n);
    SortedParts(Flatten(blocks[..n]), Flatten(blocks[n..]));
    assert NoneEmpty(blocks[..n]) && NoneEmpty(blocks[n..]);
    LastEntry(blocks[..n], n - 1);
    LastEntry(blocks[n..], 0);
    OrderedKeys(a, b);
  }

  lemma {:induction false} FlattenParted(cs: seq<seq<Entry>>, n: nat)
    requires n <= |cs|
    ensures Flatten(cs) == Flatten(cs[..n]) + Flatten(cs[n..])
  {
    if n == 0 {
      assert cs[0..] == cs && cs[..0] == [];
    } else {
      FlattenParted(cs[1..], n - 1);
      assert cs[1..][..n - 1] == cs[..n][1..] && cs[1..][n - 1..] == cs[n..];
    }
  }

  // ---- Reading ----

  /** findDataBlock, with a moving iterator over the index. */
  method FindDataBlock(r: Reader, k: Bytes) returns (p: Option<Pair>)
    ensures p == Indexed(Walk(r.index.data, []), k)
  {
    hide Walk, DecodeKey, Less;
    var it := new BlockIterator(r.index);
    while it.valid
      invariant fresh(it) && it.Steady()
      invariant Indexed(it.Remaining(), k) == Indexed(Walk(r.index.data, []), k)
      decreases |it.Remaining()|
    {
      if !Less(DecodeKey(it.lastKey).0, k) {
        return Some(Pair(it.lastKey, it.value));
      }
      it.Next();
    }
    return None;
  }

  /** SSTableReader.Get. */
  method Get(hash: Bytes -> nat, r: Reader, k: Bytes, readSeq: nat) returns (a: Answer)
    requires r.filter.Some? ==> Askable(r.filter.value)
    ensures a == if r.filter.Some? && !LetsThrough(r.filter.value, hash(k)) then NotFound else Fetched(r, k, readSeq)
  {
    hide Walk, DecodeKey, Less, LetsThrough, Indexed, LoadedBlock;
    if r.filter.Some? {
      var may := AskFilter(hash, r.filter.value, k);
      if !may {
        return NotFound;
      }
    }
    var p := FindDataBlock(r, k);
    if p.None? {
      return NotFound;
    }
    var block := LoadedBlock(r.file, p.value.value);
    if block.None? {
      return Failed;
    }
    var it := new BlockIterator(block.value);
    while it.valid
      invariant fresh(it) && it.Steady()
      invariant Scanned(it.Remaining(), k, readSeq) == Scanned(Walk(block.value.data, []), k, readSeq)
      decreases |it.Remaining()|
    {
      var (user, seqno, kind) := DecodeKey(it.lastKey);
      if Less(k, user) {
        return NotFound;
      }
      if user == k && seqno <= readSeq {
        if kind == 2 {
          return Tombstone;
        }
        return Got(it.value);
      }
      it.Next();
    }
    return NotFound;
  }

  /** Every pair of the blocks an index lists; a block that does not load is passed over. */
  function AllPairs(file: Bytes, index: seq<Pair>): seq<Pair> {
    if index == [] then []
    else
      (match LoadedBlock(file, index[0].value) case None => [] case Some(b) => Walk(b.data, [])) + AllPairs(file, index[1..])
  }

  class SSTableIterator {
    const reader: Reader
    var indexIter: BlockIterator
    var dataIter: BlockIterator?

    ghost function Rest(): seq<Pair>
      reads this, indexIter, dataIter
    {
      (if dataIter == null then [] else dataIter.Remaining()) + AllPairs(reader.file, indexIter.Remaining())
    }

    /** On an entry, or past the last one. */
    ghost predicate Positioned()
      reads this, indexIter, dataIter
    {
      && indexIter != dataIter && indexIter.Steady() && (dataIter != null ==> dataIter.valid && dataIter.Steady())
      && (dataIter == null ==> Rest() == [])
    }

    /** SeekToFirst. */
    constructor (reader: Reader)
      ensures this.reader == reader && Positioned() && fresh(indexIter) && (dataIter != null ==> fresh(dataIter))
      ensures Rest() == AllPairs(reader.file, Walk(reader.index.data, []))
    {
      hide Walk, LoadedBlock, AllPairs;
      this.reader := reader;
      indexIter := new BlockIterator(reader.index);
      dataIter := null;
      new;
      AdvanceToNextDataBlock();
    }

    method AdvanceToNextDataBlock()
      requires indexIter.Steady()
      modifies this`dataIter, indexIter
      ensures indexIter == old(indexIter) && Positioned() && (dataIter != null ==> fresh(dataIter))
      ensures Rest() == old(AllPairs(reader.file, indexIter.Remaining()))
    {
      hide Walk, LoadedBlock;
      while indexIter.valid
        invariant indexIter == old(indexIter) && indexIter.Steady()
        invariant AllPairs(reader.file, indexIter.Remaining()) == old(AllPairs(reader.file, indexIter.Remaining()))
        decreases |indexIter.Remaining()|
      {
        var block := LoadedBlock(reader.file, indexIter.value);
        if block.None? {
          indexIter.Next();
          continue;
        }
        var it := new BlockIterator(block.value);
        if it.valid {
          dataIter := it;
          indexIter.Next();
          return;
        }
        indexIter.Next();
      }
      dataIter := null;
    }

    lemma Current()
      requires Positioned() && dataIter != null
      ensures Rest() != [] && Rest()[0] == Pair(dataIter.lastKey, dataIter.value)
    {
      hide Walk, AllPairs;
    }

    lemma Ended()
      requires Positioned() && dataIter == null
      ensures Rest() == []
    {
    }

    method Next()
      requires Positioned()
      modifies this`dataIter, indexIter, dataIter
      ensures Positioned() && indexIter == old(indexIter) && (dataIter != null ==> dataIter == old(dataIter) || fresh(dataIter))
      ensures Rest() == if old(Rest()) == [] then [] else old(Rest())[1..]
    {
      hide Walk, AllPairs;
      if dataIter == null {
        return;
      }
      dataIter.Next();
      if !dataIter.valid {
        AdvanceToNextDataBlock();
      }
    }
  }

  /** A whole pass with the table iterator. */
  method ReadAll(r: Reader) returns (ps: seq<Pair>)
    ensures ps == AllPairs(r.file, Walk(r.index.data, []))
  {
    hide Walk, AllPairs;
    hide SSTableIterator.Positioned, SSTableIterator.Rest;
    var it := new SSTableIterator(r);
    ps := [];
    ghost var all := it.Rest();
    while it.dataIter != null
      invariant fresh(it) && fresh(it.indexIter) && (it.dataIter != null ==> fresh(it.dataIter)) && it.Positioned()
      invariant ps + it.Rest() == all
      decreases |it.Rest()|
    {
      it.Current();
      ps := ps + [Pair(it.dataIter.lastKey, it.dataIter.value)];
      it.Next();
    }
    it.Ended();
  }

  lemma {:induction false} AllPairsFrom(blocks: seq<seq<Entry>>, filter: Bytes, i: nat)
    requires NoneEmpty(blocks) && Sized(blocks, filter) && i <= |blocks|
    ensures AllPairs(TableBytes(blocks, filter), IndexPairs(blocks)[i..]) == Pairs(Flatten(blocks[i..]))
    decreases |blocks| - i
  {
    hide Walk, LoadedBlock, TableBytes, Sized, IndexPair;
    if i < |blocks| {
      AllPairsFrom(blocks, filter, i + 1);
      LoadsBuilt(blocks, filter, i);
      assert blocks[i..][1..] == blocks[i + 1..] && blocks[i..][0] == blocks[i];
      assert IndexPairs(blocks)[i..][1..] == IndexPairs(blocks)[i + 1..];
      assert Pairs(blocks[i] + Flatten(blocks[i + 1..])) == Pairs(blocks[i]) + Pairs(Flatten(blocks[i + 1..]));
    } else {
      assert blocks[i..] == [] && Pairs(Flatten([])) == [];
    }
  }

  /** The table iterator yields exactly the entries the table was built from. */
  lemma IteratorYieldsAll(blocks: seq<seq<Entry>>, filter: Bytes)
    requires NoneEmpty(blocks) && Sized(blocks, filter)
    ensures Opened(TableBytes(blocks, filter)).Some?
    ensures var r := Opened(TableBytes(blocks, filter)).value;
            AllPairs(r.file, Walk(r.index.data, [])) == Pairs(Flatten(blocks))
  {
    hide Walk, AllPairs, TableBytes, Sized, Opened, IndexPairs;
    OpensBuilt(blocks, filter);
    ReaderFile(blocks, filter);
    AllPairsFrom(blocks, filter, 0);
    assert IndexPairs(blocks)[0..] == IndexPairs(blocks) && blocks[0..] == blocks;
  }

  /** The filter included: Get answers from the newest version, and says nothing of a key the table lacks. */
  lemma GetIsFind(hash: Bytes -> nat, blocks: seq<seq<Entry>>, filter: Bytes, k: Bytes, readSeq: nat)
    requires NoneEmpty(blocks) && Sized(blocks, filter) && Sorted(Flatten(blocks)) && Askable(filter)
    requires forall e :: e in Flatten(blocks) ==> LetsThrough(filter, hash(e.key))
    requires Find(Flatten(blocks), k).Some? ==> Find(Flatten(blocks), k).value.seqno <= readSeq
    ensures var r := OpenedReader(blocks, filter);
            (if r.filter.Some? && !LetsThrough(filter, hash(k)) then NotFound else Fetched(r, k, readSeq))
            == Expected(Find(Flatten(blocks), k))
  {
    hide Fetched, LetsThrough, TableBytes, Sized, Sorted, Find, Built;
    GetFindsNewest(blocks, filter, k, readSeq);
    FindIndex(Flatten(blocks), k);
  }

  /** A table written from a list. */
  method Build(hash: Bytes -> nat, es: seq<Entry>, blockSize: int, bitsPerKey: int) returns (file: Bytes)
    requires Sorted(es) && (forall e :: e in es ==> e.seqno < U64)
    requires BitCount(|es|, AtLeastOne(BitsOf(bitsPerKey))) % U32 != 0
    ensures file == TableBytes(Blocked(es, SizeOf(blockSize)), FilterOf(hash, KeysOf(es), BitsOf(bitsPerKey)))
  {
    hide Sorted, Flatten, BitCount, TableBytes, Blocked, FilterOf;
    hide SSTableBuilder.Valid, SSTableBuilder.Added;
    var b := new SSTableBuilder(blockSize, bitsPerKey);
    for i := 0 to |es|
      invariant fresh(b) && fresh(b.dataBlock) && fresh(b.indexBlock) && b.Valid() && b.Added() == es[..i]
    {
      assert es[..i + 1] == es[..i] + [es[i]];
      SortedPrefix(es, i + 1);
      b.Add(es[i]);
    }
    assert es[..|es|] == es;
    b.KeyCount();
    var size := b.Finish(hash);
    file := b.file;
  }

  /** A table written from a list, opened and asked: the answer is the list's own. */
  method BuildAndGet(hash: Bytes -> nat, es: seq<Entry>, blockSize: int, bitsPerKey: int, k: Bytes, readSeq: nat)
      returns (a: Option<Answer>)
    requires Sorted(es) && (forall e :: e in es ==> e.seqno < U64)
    requires BitCount(|es|, AtLeastOne(BitsOf(bitsPerKey))) % U32 != 0
    requires Find(es, k).Some? ==> Find(es, k).value.seqno <= readSeq
    ensures Sized(Blocked(es, SizeOf(blockSize)), FilterOf(hash, KeysOf(es), BitsOf(bitsPerKey)))
            ==> a == Some(Expected(Find(es, k)))
  {
    hide Sorted, Find, LetsThrough, Askable, BitCount, Sized, Fetched, Opened, TableBytes, Built, Flatten, Blocked, FilterOf;
    var file := Build(hash, es, blockSize, bitsPerKey);
    ghost var blocks, filter := Blocked(es, SizeOf(blockSize)), FilterOf(hash, KeysOf(es), BitsOf(bitsPerKey));
    FilterOfAdmits(hash, es, BitsOf(bitsPerKey));
    var r := Opened(file);
    if Sized(blocks, filter) {
      OpensBuilt(blocks, filter);
      GetIsFind(hash, blocks, filter, k, readSeq);
    }
    if r.None? || (r.value.filter.Some? && !Askable(r.value.filter.value)) {
      return None;
    }
    var x := Get(hash, r.value, k, readSeq);
    return Some(x);
  }

  lemma SortedPrefix(es: seq<Entry>, n: nat)
    requires Sorted(es) && n <= |es|
    ensures Sorted(es[..n])
  {
    hide Less;
  }
}
