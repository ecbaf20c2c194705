// The table file as a value: data blocks, filter, index and footer, and what a reader finds in them.
module SSTable {
  import opened Keys
  import opened Codec
  import opened Varint
  import opened Block

  const RESTART_INTERVAL: nat := 16
  const MAX_FILE: nat := 0x100_0000_0000_0000

  // ---- The file a list of blocks makes ----

  function PairOf(e: Entry): Pair {
    Pair(EncodeKey(e), e.value)
  }

  function Pairs(es: seq<Entry>): (ps: seq<Pair>)
    ensures |ps| == |es| && forall i :: 0 <= i < |es| ==> ps[i] == PairOf(es[i])
  {
    seq(|es|, i requires 0 <= i < |es| => PairOf(es[i]))
  }

  function BlockBytes(es: seq<Entry>): Bytes {
    Finished(Built(Pairs(es), RESTART_INTERVAL))
  }

  function DataBytes(blocks: seq<seq<Entry>>): Bytes {
    if blocks == [] then [] else DataBytes(blocks[..|blocks| - 1]) + BlockBytes(blocks[|blocks| - 1])
  }

  function HandleOf(blocks: seq<seq<Entry>>, i: nat): BlockHandle
    requires i < |blocks|
  {
    BlockHandle(|DataBytes(blocks[..i])|, |BlockBytes(blocks[i])|)
  }

  /** The index entry of a block: its last internal key and where it is. */
  function IndexPair(blocks: seq<seq<Entry>>, i: nat): Pair
    requires i < |blocks| && blocks[i] != []
  {
    Pair(EncodeKey(blocks[i][|blocks[i]| - 1]), EncodeHandle(HandleOf(blocks, i)))
  }

  ghost predicate NoneEmpty(blocks: seq<seq<Entry>>) {
    forall i :: 0 <= i < |blocks| ==> blocks[i] != []
  }

  function IndexPairs(blocks: seq<seq<Entry>>): (ps: seq<Pair>)
    requires NoneEmpty(blocks)
    ensures |ps| == |blocks| && forall i :: 0 <= i < |blocks| ==> ps[i] == IndexPair(blocks, i)
  {
    seq(|blocks|, i requires 0 <= i < |blocks| && NoneEmpty(blocks) => IndexPair(blocks, i))
  }

  function IndexBytes(blocks: seq<seq<Entry>>): Bytes
    requires NoneEmpty(blocks)
  {
    Finished(Built(IndexPairs(blocks), 1))
  }

  /** A table without entries has no filter block. */
  function FilterHandle(blocks: seq<seq<Entry>>, filter: Bytes): BlockHandle {
    if filter == [] then BlockHandle(0, 0) else BlockHandle(|DataBytes(blocks)|, |filter|)
  }

  function IndexHandle(blocks: seq<seq<Entry>>, filter: Bytes): BlockHandle
    requires NoneEmpty(blocks)
  {
    BlockHandle(|DataBytes(blocks)| + |filter|, |IndexBytes(blocks)|)
  }

  function TableBytes(blocks: seq<seq<Entry>>, filter: Bytes): Bytes
    requires NoneEmpty(blocks)
  {
    DataBytes(blocks) + filter + IndexBytes(blocks) + FooterOf(FilterHandle(blocks, filter), IndexHandle(blocks, filter))
  }

  // ---- What a reader makes of a file ----

  datatype Reader = Reader(file: Bytes, index: Decoded, filter: Option<Bytes>)

  /** readBlockAt */
  function Slice(file: Bytes, h: BlockHandle): Option<Bytes> {
    if h.size == 0 || h.offset + h.size > |file| then None else Some(file[h.offset..h.offset + h.size])
  }

  /** NewSSTableReader */
  function Opened(file: Bytes): Option<Reader> {
    if |file| < FOOTER then None
    else
      match ReadFooter(file[|file| - FOOTER..])
      case Handles(filter, index) =>
        if filter.size > 0 && Slice(file, filter).None? then None
        else if Slice(file, index).None? || DecodedBlock(Slice(file, index).value).None? then None
        else
          Some(Reader(file, DecodedBlock(Slice(file, index).value).value, if filter.size > 0 then Slice(file, filter) else None))
      case _ => None
  }

  /** loadBlock on the handle an index entry holds. */
  function LoadedBlock(file: Bytes, value: Bytes): Option<Decoded> {
    match DecodeHandle(value)
    case None => None
    case Some(h) => if Slice(file, h.0).None? then None else DecodedBlock(Slice(file, h.0).value)
  }

  /** findDataBlock: the first index entry whose user key is not below k. */
  function Indexed(index: seq<Pair>, k: Bytes): Option<Pair> {
    if index == [] then None
    else if !Less(DecodeKey(index[0].key).0, k) then Some(index[0])
    else Indexed(index[1..], k)
  }

  /** The scan within a block: the first version of k not above readSeq, before any greater key. */
  function Scanned(ps: seq<Pair>, k: Bytes, readSeq: nat): Option<Pair> {
    if ps == [] then None
    else
      var (user, seqno, _) := DecodeKey(ps[0].key);
      if Less(k, user) then None
      else if user == k && seqno <= readSeq then Some(ps[0])
      else Scanned(ps[1..], k, readSeq)
  }

  datatype Answer = Got(value: Bytes) | Tombstone | NotFound | Failed

  function Reply(p: Option<Pair>): Answer {
    match p
    case None => NotFound
    case Some(x) => if DecodeKey(x.key).2 == 2 then Tombstone else Got(x.value)
  }

  /** SSTableReader.Get once the filter has let the key through. */
  function Fetched(r: Reader, k: Bytes, readSeq: nat): Answer {
    match Indexed(Walk(r.index.data, []), k)
    case None => NotFound
    case Some(p) =>
      match LoadedBlock(r.file, p.value)
      case None => Failed
      case Some(b) => Reply(Scanned(Walk(b.data, []), k, readSeq))
  }

  // ---- Opening what was built ----

  /** Numbers fit their fields: sequence numbers and lengths 64 bits, blocks 32 bits, the file 56 bits. */
  ghost predicate Sized(blocks: seq<seq<Entry>>, filter: Bytes)
    requires NoneEmpty(blocks)
  {
    && |TableBytes(blocks, filter)| < MAX_FILE && |IndexBytes(blocks)| < U32
    && (forall i :: 0 <= i < |blocks| ==> |BlockBytes(blocks[i])| < U32)
    && (forall i, e :: 0 <= i < |blocks| && e in blocks[i] ==> e.seqno < U64)
  }

  lemma {:induction false} FewRestarts(ps: seq<Pair>, interval: nat)
    ensures |Built(ps, interval).restarts| <= |Built(ps, interval).buf|
  {
    hide Chunk, Shared;
    if ps != [] { FewRestarts(ps[..|ps| - 1], interval); }
  }

  /** Keys and values are no longer than the block that holds them. */
  lemma {:induction false} PairsWithin(ps: seq<Pair>, interval: nat)
    ensures var s := Built(ps, interval);
            |s.last| <= |s.buf| && forall p :: p in ps ==> |p.key| <= |s.buf| && |p.value| <= |s.buf|
  {
    hide Shared, PutUvarint;
    if ps != [] {
      var n := |ps| - 1;
      PairsWithin(ps[..n], interval);
      BuiltPrefix(ps, interval, n);
      assert forall p :: p in ps ==> p == ps[n] || p in ps[..n];
    }
  }

  /** A finished block of less than 2^32 bytes reads back. */
  lemma BlockReads(ps: seq<Pair>, interval: nat)
    requires |Finished(Built(ps, interval))| < U32
    ensures DecodedBlock(Finished(Built(ps, interval))) == Some(Decoded(Built(ps, interval).buf, Built(ps, interval).restarts))
    ensures Walk(Built(ps, interval).buf, []) == ps
  {
    hide Built, DecodedBlock, Walk;
    FewRestarts(ps, interval);
    PairsWithin(ps, interval);
    BlockDecodes(ps, interval);
    WalkBuilt(ps, interval);
  }

  lemma Region(a: Bytes, b: Bytes, c: Bytes)
    requires b != []
    ensures Slice(a + b + c, BlockHandle(|a|, |b|)) == Some(b)
  {
    SliceMiddle(a, b, c);
  }

  function OpenedReader(blocks: seq<seq<Entry>>, filter: Bytes): Reader
    requires NoneEmpty(blocks)
  {
    var s := Built(IndexPairs(blocks), 1);
    Reader(TableBytes(blocks, filter), Decoded(s.buf, s.restarts), if filter == [] then None else Some(filter))
  }

  /** A reader opens what the builder wrote, and has its index and its filter. */
  lemma OpensBuilt(blocks: seq<seq<Entry>>, filter: Bytes)
    requires NoneEmpty(blocks) && Sized(blocks, filter)
    ensures Opened(TableBytes(blocks, filter)) == Some(OpenedReader(blocks, filter))
    ensures Walk(OpenedReader(blocks, filter).index.data, []) == IndexPairs(blocks)
  {
    hide DataBytes, Built, Finished, FooterOf, ReadFooter, DecodedBlock, Slice, BlockBytes, Walk, IndexPairs;
    var data, index := DataBytes(blocks), IndexBytes(blocks);
    var fh, ih := FilterHandle(blocks, filter), IndexHandle(blocks, filter);
    var foot := FooterOf(fh, ih);
    var file := TableBytes(blocks, filter);
    BlockReads(IndexPairs(blocks), 1);
    FooterRoundTrip(fh, ih);
    assert file[|file| - FOOTER..] == foot;
    assert index != [] by { FinishedLength(Built(IndexPairs(blocks), 1)); }
    assert file == (data + filter) + index + foot;
    Region(data + filter, index, foot);
    if filter != [] {
      assert file == data + filter + (index + foot);
      Region(data, filter, index + foot);
    }
  }

  lemma FinishedLength(s: State)
    ensures |Finished(s)| >= 4
  {
  }

  lemma {:induction false} DataParts(blocks: seq<seq<Entry>>, i: nat)
    requires i < |blocks|
    ensures exists tail :: DataBytes(blocks) == DataBytes(blocks[..i]) + BlockBytes(blocks[i]) + tail
  {
    hide BlockBytes;
    var n := |blocks| - 1;
    if i == n {
      assert DataBytes(blocks) == DataBytes(blocks[..i]) + BlockBytes(blocks[i]) + [];
    } else {
      DataParts(blocks[..n], i);
      assert blocks[..n][..i] == blocks[..i];
      var tail :| DataBytes(blocks[..n]) == DataBytes(blocks[..i]) + BlockBytes(blocks[i]) + tail;
      assert DataBytes(blocks) == DataBytes(blocks[..i]) + BlockBytes(blocks[i]) + (tail + BlockBytes(blocks[n]));
    }
  }

  /** The handle in an index entry leads to its block, and the block yields its entries. */
  lemma LoadsBuilt(blocks: seq<seq<Entry>>, filter: Bytes, i: nat)
    requires NoneEmpty(blocks) && Sized(blocks, filter) && i < |blocks|
    ensures LoadedBlock(TableBytes(blocks, filter), IndexPair(blocks, i).value).Some?
    ensures Walk(LoadedBlock(TableBytes(blocks, filter), IndexPair(blocks, i).value).value.data, []) == Pairs(blocks[i])
  {
    hide Built, Finished, FooterOf, DecodedBlock, Walk, DecodeHandle, EncodeHandle, IndexBytes, DataBytes, Pairs;
    var file, b, h := TableBytes(blocks, filter), BlockBytes(blocks[i]), HandleOf(blocks, i);
    BlockReads(Pairs(blocks[i]), RESTART_INTERVAL);
    DataParts(blocks, i);
    var tail :| DataBytes(blocks) == DataBytes(blocks[..i]) + b + tail;
    var foot := FooterOf(FilterHandle(blocks, filter), IndexHandle(blocks, filter));
    assert file == DataBytes(blocks[..i]) + b + (tail + filter + IndexBytes(blocks) + foot);
    FinishedLength(Built(Pairs(blocks[i]), RESTART_INTERVAL));
    Region(DataBytes(blocks[..i]), b, tail + filter + IndexBytes(blocks) + foot);
    assert h.offset < MAX_FILE && h.size < MAX_FILE;
    HandleRoundTrip(h, []);
    assert EncodeHandle(h) + [] == EncodeHandle(h);
  }

  // ---- Lookup ----

  /** The first block whose last user key is not below k. */
  function BlockFor(blocks: seq<seq<Entry>>, k: Bytes): (i: nat)
    requires NoneEmpty(blocks)
    ensures i <= |blocks|
  {
    if blocks == [] || !Less(blocks[0][|blocks[0]| - 1].key, k) then 0 else 1 + BlockFor(blocks[1..], k)
  }

  lemma SortedParts(a: seq<Entry>, b: seq<Entry>)
    requires Sorted(a + b)
    ensures Sorted(a) && Sorted(b) && forall x, y :: x in a && y in b ==> Before(x, y)
  {
    hide Less;
    var s := a + b;
    assert forall i :: 0 <= i < |a| ==> s[i] == a[i];
    assert forall i :: 0 <= i < |b| ==> s[|a| + i] == b[i];
    forall i, j | 0 <= i < j < |a|
      ensures Before(a[i], a[j])
    {
      assert Before(s[i], s[j]);
    }
    forall x, y | x in a && y in b
      ensures Before(x, y)
    {
      var i :| 0 <= i < |a| && a[i] == x;
      var j :| 0 <= j < |b| && b[j] == y;
      assert Before(s[i], s[|a| + j]);
    }
  }

  lemma LastIsGreatest(b: seq<Entry>, e: Entry)
    requires Sorted(b) && e in b
    ensures e == b[|b| - 1] || Before(e, b[|b| - 1])
  {
    hide Less;
  }

  /** That block, and no other, decides what the table says of k. */
  lemma {:induction false} BlockDecides(blocks: seq<seq<Entry>>, k: Bytes)
    requires NoneEmpty(blocks) && Sorted(Flatten(blocks))
    ensures var i := BlockFor(blocks, k);
            Find(Flatten(blocks), k) == (if i < |blocks| then Find(blocks[i], k) else None)
            && (i < |blocks| ==> Sorted(blocks[i]))
  {
    hide Less, Find, Sorted;
    LessIsTotalOrder();
    if blocks == [] {
      FindIndex([], k);
    } else {
      var b, rest := blocks[0], Flatten(blocks[1..]);
      var last := b[|b| - 1];
      SortedParts(b, rest);
      FindConcat(b, rest, k);
      FindIndex(b, k);
      FindIndex(rest, k);
      if Less(last.key, k) {
        forall e | e in b
          ensures e.key != k
        {
          LastIsGreatest(b, e);
        }
        assert NoneEmpty(blocks[1..]);
        BlockDecides(blocks[1..], k);
      } else if Find(b, k).None? {
        assert last in b;
        forall e | e in rest
          ensures e.key != k
        {
          assert Before(last, e);
        }
      }
    }
  }

  lemma {:induction false} IndexedIs(blocks: seq<seq<Entry>>, ps: seq<Pair>, k: Bytes)
    requires NoneEmpty(blocks) && |ps| == |blocks|
    requires forall i :: 0 <= i < |blocks| ==> DecodeKey(ps[i].key).0 == blocks[i][|blocks[i]| - 1].key
    ensures var i := BlockFor(blocks, k); Indexed(ps, k) == if i < |blocks| then Some(ps[i]) else None
  {
    hide Less, DecodeKey;
    if blocks != [] && Less(blocks[0][|blocks[0]| - 1].key, k) {
      assert NoneEmpty(blocks[1..]);
      IndexedIs(blocks[1..], ps[1..], k);
    }
  }

  lemma {:induction false} ScannedIs(b: seq<Entry>, k: Bytes, readSeq: nat)
    requires Sorted(b) && (forall e :: e in b ==> e.seqno < U64)
    requires Find(b, k).Some? ==> Find(b, k).value.seqno <= readSeq
    ensures Scanned(Pairs(b), k, readSeq) == if Find(b, k).Some? then Some(PairOf(Find(b, k).value)) else None
  {
    hide Less, EncodeKey, DecodeKey;
    LessIsTotalOrder();
    if b != [] {
      assert b[0] in b;
      KeyRoundTrip(b[0]);
      if Less(k, b[0].key) {
        FindIndex(b, k);
        forall e | e in b
          ensures e.key != k
        {
          var i :| 0 <= i < |b| && b[i] == e;
          assert i == 0 || Before(b[0], b[i]);
        }
      } else if b[0].key != k {
        assert Pairs(b)[1..] == Pairs(b[1..]);
        ScannedIs(b[1..], k, readSeq);
      }
    }
  }

  function Expected(e: Option<Entry>): Answer {
    match e
    case None => NotFound
    case Some(x) => if x.kind.Deletion? then Tombstone else Got(x.value)
  }

  /**
   * Get on the file built from a sorted list finds the newest version of k, and nothing for an absent
   * key, even when the versions of k straddle blocks.
   */
  lemma GetFindsNewest(blocks: seq<seq<Entry>>, filter: Bytes, k: Bytes, readSeq: nat)
    requires NoneEmpty(blocks) && Sized(blocks, filter) && Sorted(Flatten(blocks))
    requires Find(Flatten(blocks), k).Some? ==> Find(Flatten(blocks), k).value.seqno <= readSeq
    ensures Fetched(OpenedReader(blocks, filter), k, readSeq) == Expected(Find(Flatten(blocks), k))
  {
    hide OpenedReader, TableBytes, Walk, Sized, Find, Sorted, Scanned, LoadedBlock, IndexPair, Indexed, IndexPairs, DecodeKey, EncodeKey;
    var r, i := OpenedReader(blocks, filter), BlockFor(blocks, k);
    OpensBuilt(blocks, filter);
    BlockDecides(blocks, k);
    SizedSeqnos(blocks, filter);
    IndexKeys(blocks);
    IndexedIs(blocks, IndexPairs(blocks), k);
    assert r.file == TableBytes(blocks, filter) by { ReaderFile(blocks, filter); }
    if i < |blocks| {
      LoadsBuilt(blocks, filter, i);
      ScannedIs(blocks[i], k, readSeq);
      if Find(blocks[i], k).Some? {
        FindIndex(blocks[i], k);
        KeyRoundTrip(Find(blocks[i], k).value);
      }
    }
  }

  lemma SizedSeqnos(blocks: seq<seq<Entry>>, filter: Bytes)
    requires NoneEmpty(blocks) && Sized(blocks, filter)
    ensures forall i, e :: 0 <= i < |blocks| && e in blocks[i] ==> e.seqno < U64
  {
  }

  lemma ReaderFile(blocks: seq<seq<Entry>>, filter: Bytes)
    requires NoneEmpty(blocks)
    ensures OpenedReader(blocks, filter).file == TableBytes(blocks, filter)
  {
  }

  lemma IndexKeys(blocks: seq<seq<Entry>>)
    requires NoneEmpty(blocks) && forall i, e :: 0 <= i < |blocks| && e in blocks[i] ==> e.seqno < U64
    ensures |IndexPairs(blocks)| == |blocks|
    ensures forall i :: 0 <= i < |blocks| ==>
              IndexPairs(blocks)[i] == IndexPair(blocks, i) && DecodeKey(IndexPairs(blocks)[i].key).0 == blocks[i][|blocks[i]| - 1].key
  {
    hide EncodeKey, DecodeKey, HandleOf;
    forall i | 0 <= i < |blocks|
      ensures DecodeKey(IndexPairs(blocks)[i].key).0 == blocks[i][|blocks[i]| - 1].key
    {
      assert blocks[i][|blocks[i]| - 1] in blocks[i];
      KeyRoundTrip(blocks[i][|blocks[i]| - 1]);
    }
  }
}
