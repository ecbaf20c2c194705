// Bloom filters: a key the filter was built from is never reported absent.
module Bloom {
  import opened Keys
  import opened Codec

  /** The bit of a byte at position i. */
  function Mask(i: nat): bv8
    requires i < 8
  {
    if i == 0 then 1 else if i == 1 then 2 else if i == 2 then 4 else if i == 3 then 8
    else if i == 4 then 16 else if i == 5 then 32 else if i == 6 then 64 else 128
  }

  predicate BitAt(bits: seq<bv8>, pos: nat)
    requires pos / 8 < |bits|
  {
    bits[pos / 8] & Mask(pos % 8) != 0
  }

  lemma MasksApart(i: nat, j: nat)
    requires i < 8 && j < 8
    ensures Mask(i) & Mask(j) != 0 <==> i == j
  {
  }

  lemma OrSets(b: bv8, x: bv8, m: bv8)
    ensures (b | x) & m != 0 <==> b & m != 0 || x & m != 0
  {
  }

  function SetBit(bits: seq<bv8>, pos: nat): (r: seq<bv8>)
    requires pos / 8 < |bits|
    ensures |r| == |bits|
  {
    bits[pos / 8 := bits[pos / 8] | Mask(pos % 8)]
  }

  lemma SetBitExact(bits: seq<bv8>, pos: nat, p: nat)
    requires pos / 8 < |bits| && p / 8 < |bits|
    ensures BitAt(SetBit(bits, pos), p) <==> BitAt(bits, p) || p == pos
  {
    hide Mask;
    SamePosition(p, pos);
    var b, c, i, j := p / 8, pos / 8, p % 8, pos % 8;
    if b == c {
      OrSets(bits[c], Mask(j), Mask(i));
      MasksApart(j, i);
    }
  }

  lemma SamePosition(p: nat, q: nat)
    ensures p == q <==> p / 8 == q / 8 && p % 8 == q % 8
  {
  }

  /** rotl by 15 of a 32-bit hash. */
  function Delta(h: nat): nat {
    h / 0x2_0000 + (h * 0x8000) % U32
  }

  /** The hash after j additions of delta, with 32-bit wrap-around. */
  function Probe(h: nat, j: nat): nat {
    if j == 0 then h else (Probe(h, j - 1) + Delta(h)) % U32
  }

  /** The bit the j-th probe looks at; both ends truncate the bit count to 32 bits. */
  function Position(h: nat, j: nat, nBits: nat): (p: nat)
    requires nBits % U32 != 0
    ensures p < nBits
  {
    Probe(h, j) % (nBits % U32)
  }

  /** Every bit probed for the hash is set. */
  ghost predicate Marked(bits: seq<bv8>, nBits: nat, h: nat, k: nat)
    requires nBits % U32 != 0 && nBits <= 8 * |bits|
  {
    forall j :: 0 <= j < k ==> BitAt(bits, Position(h, j, nBits))
  }

  /** What MayContain answers. */
  ghost predicate Admits(bits: seq<bv8>, h: nat)
    requires |bits| >= 2 ==> (8 * (|bits| - 1)) % U32 != 0
  {
    |bits| >= 2 && (bits[|bits| - 1] as nat > 30 || Marked(bits, 8 * (|bits| - 1), h, bits[|bits| - 1] as nat))
  }

  const LN2: real := 0.6931471805599453

  function Rounds(bitsPerKey: nat): (k: nat)
    ensures 1 <= k <= 30
  {
    var k := (bitsPerKey as real * LN2).Floor;
    if k < 1 then 1 else if k > 30 then 30 else k
  }

  /** The number of bits: rounded up to whole bytes, and at least 64. */
  function BitCount(keys: nat, bitsPerKey: nat): (n: nat)
    ensures n % 8 == 0 && n >= 64 && n >= keys * bitsPerKey
  {
    var n := (keys * bitsPerKey + 7) / 8 * 8;
    if n < 64 then 64 else n
  }

  // ---- The bits of a filter ----

  /** The bits after the first k probes of one hash have been set. */
  function MarkedBy(bits: seq<bv8>, nBits: nat, h: nat, k: nat): (r: seq<bv8>)
    requires nBits % U32 != 0 && nBits <= 8 * |bits|
    ensures |r| == |bits|
  {
    if k == 0 then bits else SetBit(MarkedBy(bits, nBits, h, k - 1), Position(h, k - 1, nBits))
  }

  function MarkedByAll(bits: seq<bv8>, nBits: nat, hash: Bytes -> nat, keys: seq<Bytes>, k: nat): (r: seq<bv8>)
    requires nBits % U32 != 0 && nBits <= 8 * |bits|
    ensures |r| == |bits|
  {
    if keys == [] then bits
    else
      var n := |keys| - 1;
      MarkedBy(MarkedByAll(bits, nBits, hash, keys[..n], k), nBits, hash(keys[n]), k)
  }

  function Blank(n: nat): (r: seq<bv8>)
    ensures |r| == n && forall i :: 0 <= i < n ==> r[i] == 0
  {
    seq(n, _ => 0)
  }

  function AtLeastOne(bitsPerKey: int): nat {
    if bitsPerKey < 1 then 1 else bitsPerKey
  }

  /** NewBloomFilter: the marked bits, and the number of rounds in the last byte. */
  function FilterBits(hash: Bytes -> nat, keys: seq<Bytes>, bitsPerKey: int): (r: seq<bv8>)
    requires BitCount(|keys|, AtLeastOne(bitsPerKey)) % U32 != 0
    ensures |r| == BitCount(|keys|, AtLeastOne(bitsPerKey)) / 8 + 1
  {
    var k, nBits := Rounds(AtLeastOne(bitsPerKey)), BitCount(|keys|, AtLeastOne(bitsPerKey));
    MarkedByAll(Blank(nBits / 8 + 1), nBits, hash, keys, k)[nBits / 8 := k as bv8]
  }

  /** Position p is looked at for one of the keys. */
  ghost predicate Probed(nBits: nat, hash: Bytes -> nat, keys: seq<Bytes>, k: nat, p: nat)
    requires nBits % U32 != 0
  {
    exists a :: 0 <= a < |keys| && ProbedFor(nBits, hash(keys[a]), k, p)
  }

  ghost predicate ProbedFor(nBits: nat, h: nat, k: nat, p: nat)
    requires nBits % U32 != 0
  {
    exists j :: 0 <= j < k && Position(h, j, nBits) == p
  }

  lemma {:induction false} MarkedByExact(bits: seq<bv8>, nBits: nat, h: nat, k: nat, p: nat)
    requires nBits % U32 != 0 && nBits <= 8 * |bits| && p / 8 < |bits|
    ensures BitAt(MarkedBy(bits, nBits, h, k), p) <==> BitAt(bits, p) || ProbedFor(nBits, h, k, p)
  {
    hide BitAt, Position, SetBit;
    if k > 0 {
      MarkedByExact(bits, nBits, h, k - 1, p);
      SetBitExact(MarkedBy(bits, nBits, h, k - 1), Position(h, k - 1, nBits), p);
    }
  }

  lemma {:induction false} MarkedByAllExact(bits: seq<bv8>, nBits: nat, hash: Bytes -> nat, keys: seq<Bytes>, k: nat, p: nat)
    requires nBits % U32 != 0 && nBits <= 8 * |bits| && p / 8 < |bits|
    ensures BitAt(MarkedByAll(bits, nBits, hash, keys, k), p) <==> BitAt(bits, p) || Probed(nBits, hash, keys, k, p)
  {
    hide BitAt, ProbedFor, MarkedBy;
    if keys != [] {
      var n := |keys| - 1;
      var front := keys[..n];
      MarkedByAllExact(bits, nBits, hash, front, k, p);
      MarkedByExact(MarkedByAll(bits, nBits, hash, front, k), nBits, hash(keys[n]), k, p);
      assert forall a :: 0 <= a < n ==> front[a] == keys[a];
      if Probed(nBits, hash, front, k, p) {
        var a :| 0 <= a < n && ProbedFor(nBits, hash(front[a]), k, p);
        assert ProbedFor(nBits, hash(keys[a]), k, p);
      }
    }
  }

  /** A bit of a new filter is set if and only if some key looks at it. */
  lemma FilterExact(hash: Bytes -> nat, keys: seq<Bytes>, bitsPerKey: int, p: nat)
    requires BitCount(|keys|, AtLeastOne(bitsPerKey)) % U32 != 0 && p < BitCount(|keys|, AtLeastOne(bitsPerKey))
    ensures BitAt(FilterBits(hash, keys, bitsPerKey), p)
            <==> Probed(BitCount(|keys|, AtLeastOne(bitsPerKey)), hash, keys, Rounds(AtLeastOne(bitsPerKey)), p)
  {
    hide Rounds, Probed, BitCount, MarkedByAll, Mask;
    var k, nBits := Rounds(AtLeastOne(bitsPerKey)), BitCount(|keys|, AtLeastOne(bitsPerKey));
    MarkedByAllExact(Blank(nBits / 8 + 1), nBits, hash, keys, k, p);
    assert p / 8 < nBits / 8;
    assert !BitAt(Blank(nBits / 8 + 1), p);
  }

  /** A key the filter was built from is never reported absent. */
  lemma FilterAdmits(hash: Bytes -> nat, keys: seq<Bytes>, bitsPerKey: int, key: Bytes)
    requires BitCount(|keys|, AtLeastOne(bitsPerKey)) % U32 != 0 && key in keys
    ensures (8 * (|FilterBits(hash, keys, bitsPerKey)| - 1)) % U32 != 0
    ensures Admits(FilterBits(hash, keys, bitsPerKey), hash(key))
  {
    hide Rounds, BitCount, FilterBits, BitAt, Position;
    var k, nBits := Rounds(AtLeastOne(bitsPerKey)), BitCount(|keys|, AtLeastOne(bitsPerKey));
    var bits := FilterBits(hash, keys, bitsPerKey);
    var a :| 0 <= a < |keys| && keys[a] == key;
    RoundsStored(hash, keys, bitsPerKey);
    forall j | 0 <= j < k
      ensures BitAt(bits, Position(hash(key), j, nBits))
    {
      var p := Position(hash(key), j, nBits);
      assert ProbedFor(nBits, hash(keys[a]), k, p);
      FilterExact(hash, keys, bitsPerKey, p);
    }
  }

  lemma RoundsStored(hash: Bytes -> nat, keys: seq<Bytes>, bitsPerKey: int)
    requires BitCount(|keys|, AtLeastOne(bitsPerKey)) % U32 != 0
    ensures var bits := FilterBits(hash, keys, bitsPerKey);
            |bits| >= 2 && bits[|bits| - 1] as nat == Rounds(AtLeastOne(bitsPerKey))
            && 8 * (|bits| - 1) == BitCount(|keys|, AtLeastOne(bitsPerKey))
  {
    hide Rounds, BitCount, MarkedByAll;
  }

  class BloomFilter {
    const bits: array<bv8>

    /** NewBloomFilter; a bit count that is a multiple of 2^32 divides by zero. */
    constructor (hash: Bytes -> nat, keys: seq<Bytes>, bitsPerKey: int)
      requires BitCount(|keys|, AtLeastOne(bitsPerKey)) % U32 != 0
      ensures fresh(bits) && bits[..] == FilterBits(hash, keys, bitsPerKey)
    {
      hide Rounds, BitCount, MarkedByAll;
      var per := AtLeastOne(bitsPerKey);
      var k, nBits := Rounds(per), BitCount(|keys|, per);
      var bs := new bv8[nBits / 8 + 1](_ => 0);
      assert bs[..] == Blank(nBits / 8 + 1);
      MarkAll(bs, nBits, hash, keys, k);
      bs[bs.Length - 1] := k as bv8;
      bits := bs;
    }

    constructor Deserialize(filter: Bytes)
      ensures fresh(bits) && bits[..] == FromBytes(filter)
    {
      var data := FromBytes(filter);
      bits := new bv8[|data|](i requires 0 <= i < |data| => data[i]);
    }

    method MayContain(hash: Bytes -> nat, key: Bytes) returns (r: bool)
      requires bits.Length >= 2 ==> (8 * (bits.Length - 1)) % U32 != 0
      ensures r <==> Admits(bits[..], hash(key))
    {
      if bits.Length < 2 {
        return false;
      }
      var k := bits[bits.Length - 1] as nat;
      if k > 30 {
        return true;
      }
      var nBits := (bits.Length - 1) * 8;
      var h, start := hash(key), hash(key);
      var delta := Delta(start);
      for j := 0 to k
        invariant h == Probe(start, j)
        invariant Marked(bits[..], nBits, start, j)
      {
        var pos := h % (nBits % U32);
        assert pos == Position(start, j, nBits);
        if bits[pos / 8] & Mask(pos % 8) == 0 {
          assert !BitAt(bits[..], pos);
          return false;
        }
        h := (h + delta) % U32;
      }
      return true;
    }
  }

  /** The inner loop: set k bits for one hash. */
  method Mark(bs: array<bv8>, nBits: nat, start: nat, k: nat)
    requires nBits % U32 != 0 && nBits <= 8 * bs.Length
    modifies bs
    ensures bs[..] == MarkedBy(old(bs[..]), nBits, start, k)
  {
    hide Mask;
    var h, delta := start, Delta(start);
    for j := 0 to k
      invariant h == Probe(start, j)
      invariant bs[..] == MarkedBy(old(bs[..]), nBits, start, j)
    {
      var pos := h % (nBits % U32);
      assert pos == Position(start, j, nBits);
      bs[pos / 8] := bs[pos / 8] | Mask(pos % 8);
      h := (h + delta) % U32;
    }
  }

  method MarkAll(bs: array<bv8>, nBits: nat, hash: Bytes -> nat, keys: seq<Bytes>, k: nat)
    requires nBits % U32 != 0 && nBits <= 8 * bs.Length
    modifies bs
    ensures bs[..] == MarkedByAll(old(bs[..]), nBits, hash, keys, k)
  {
    hide MarkedBy;
    for i := 0 to |keys|
      invariant bs[..] == MarkedByAll(old(bs[..]), nBits, hash, keys[..i], k)
    {
      assert keys[..i + 1][..i] == keys[..i];
      Mark(bs, nBits, hash(keys[i]), k);
    }
    assert keys[..|keys|] == keys;
  }

  // ---- The filter as bytes of a file ----

  function ToBytes(bits: seq<bv8>): (b: Bytes)
    ensures |b| == |bits|
  {
    seq(|bits|, i requires 0 <= i < |bits| => bits[i] as int)
  }

  function FromBytes(b: Bytes): (bits: seq<bv8>)
    ensures |bits| == |b|
  {
    seq(|b|, i requires 0 <= i < |b| => b[i] as bv8)
  }

  lemma FilterRoundTrip(bits: seq<bv8>)
    ensures FromBytes(ToBytes(bits)) == bits
  {
    forall i | 0 <= i < |bits|
      ensures FromBytes(ToBytes(bits))[i] == bits[i]
    {
      ByteRoundTrip(bits[i]);
    }
  }

  lemma ByteRoundTrip(b: bv8)
    ensures (b as int) as bv8 == b
  {
  }

  /** A serialized filter that can be asked: the bit count has a remainder modulo 2^32. */
  predicate Askable(filter: Bytes) {
    |filter| >= 2 ==> (8 * (|filter| - 1)) % U32 != 0
  }

  ghost predicate LetsThrough(filter: Bytes, h: nat)
    requires Askable(filter)
  {
    Admits(FromBytes(filter), h)
  }

  /** NewBloomFilter and Serialize, as the table builder uses them. */
  method FilterBytes(hash: Bytes -> nat, keys: seq<Bytes>, bitsPerKey: int) returns (filter: Bytes)
    requires BitCount(|keys|, AtLeastOne(bitsPerKey)) % U32 != 0
    ensures filter == ToBytes(FilterBits(hash, keys, bitsPerKey))
  {
    hide BitCount, FilterBits;
    var f := new BloomFilter(hash, keys, bitsPerKey);
    filter := ToBytes(f.bits[..]);
  }

  /** A filter written and read back lets every key it was built from through. */
  lemma WrittenFilterAdmits(hash: Bytes -> nat, keys: seq<Bytes>, bitsPerKey: int)
    requires BitCount(|keys|, AtLeastOne(bitsPerKey)) % U32 != 0
    ensures var filter := ToBytes(FilterBits(hash, keys, bitsPerKey));
            |filter| >= 2 && Askable(filter) && forall key :: key in keys ==> LetsThrough(filter, hash(key))
  {
    hide BitCount, FilterBits, Admits;
    FilterRoundTrip(FilterBits(hash, keys, bitsPerKey));
    RoundsStored(hash, keys, bitsPerKey);
    forall key | key in keys
      ensures Admits(FilterBits(hash, keys, bitsPerKey), hash(key))
    {
      FilterAdmits(hash, keys, bitsPerKey, key);
    }
  }

  /** DeserializeBloomFilter and MayContain, as the table reader uses them. */
  method AskFilter(hash: Bytes -> nat, filter: Bytes, key: Bytes) returns (r: bool)
    requires Askable(filter)
    ensures r <==> LetsThrough(filter, hash(key))
  {
    hide Admits;
    var f := new BloomFilter.Deserialize(filter);
    r := f.MayContain(hash, key);
  }
}
