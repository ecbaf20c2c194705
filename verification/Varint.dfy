// Variable-length integers, internal keys and block handles, as the table format writes them.
module Varint {
  import opened Keys
  import opened Codec

  /** binary.PutUvarint */
  function PutUvarint(v: nat): (b: Bytes)
    ensures |b| >= 1
  {
    if v < 128 then [v] else [v % 128 + 128] + PutUvarint(v / 128)
  }

  /** The values k bytes can hold, the last of at most ten holding one bit: 2 * 128^(k - 1). */
  function Cap(k: nat): nat
    requires k >= 1
  {
    if k == 1 then 2 else 128 * Cap(k - 1)
  }

  lemma CapIs64()
    ensures Cap(10) == U64
  {
    assert Cap(3) == 2 * 128 * 128;
    assert Cap(5) == 128 * 128 * Cap(3);
    assert Cap(7) == 128 * 128 * Cap(5);
    assert Cap(9) == 128 * 128 * Cap(7);
  }

  /** binary.Uvarint with k bytes left to read: the value and its length, or nothing when cut short or too long. */
  function UvarintIn(b: Bytes, k: nat): (r: Option<(nat, nat)>)
    ensures r.Some? ==> 1 <= r.value.1 <= |b|
  {
    if b == [] || k == 0 then None
    else if b[0] < 128 then
      if k == 1 && b[0] > 1 then None else Some((b[0], 1))
    else
      match UvarintIn(b[1..], k - 1)
      case None => None
      case Some(r) => Some((b[0] - 128 + 128 * r.0, r.1 + 1))
  }

  function Uvarint(b: Bytes): (r: Option<(nat, nat)>)
    ensures r.Some? ==> 1 <= r.value.1 <= |b|
  {
    UvarintIn(b, 10)
  }

  lemma {:induction false} UvarintInRoundTrip(v: nat, rest: Bytes, k: nat)
    requires k >= 1 && v < Cap(k)
    ensures UvarintIn(PutUvarint(v) + rest, k) == Some((v, |PutUvarint(v)|))
  {
    var b := PutUvarint(v) + rest;
    if v >= 128 {
      UvarintInRoundTrip(v / 128, rest, k - 1);
      assert b[1..] == PutUvarint(v / 128) + rest;
    }
  }

  lemma UvarintRoundTrip(v: nat, rest: Bytes)
    requires v < U64
    ensures Uvarint(PutUvarint(v) + rest) == Some((v, |PutUvarint(v)|))
  {
    hide Cap;
    CapIs64();
    UvarintInRoundTrip(v, rest, 10);
  }

  /** A number below 128^n takes at most n bytes. */
  lemma {:induction false} UvarintLength(v: nat, n: nat)
    requires n >= 1 && v < Pow128(n)
    ensures |PutUvarint(v)| <= n
  {
    if v >= 128 {
      assert n > 1;
      UvarintLength(v / 128, n - 1);
    }
  }

  function Pow128(n: nat): nat {
    if n == 0 then 1 else 128 * Pow128(n - 1)
  }

  // ---- Internal keys ----

  function KindByte(k: Kind): byte {
    match k
    case Value => 1
    case Deletion => 2
  }

  /** [UserKey | SeqNo:8BE | TypeByte] */
  function EncodeKey(e: Entry): (b: Bytes)
    ensures |b| == |e.key| + 9
  {
    e.key + BE(8, e.seqno) + [KindByte(e.kind)]
  }

  /** The user key, the sequence number and the type byte; all zero when the bytes are too short. */
  function DecodeKey(b: Bytes): (Bytes, nat, byte) {
    var n := |b|;
    if n < 9 then ([], 0, 0) else (b[..n - 9], FromBE(b[n - 9..n - 1]), b[n - 1])
  }

  lemma KeyRoundTrip(e: Entry)
    requires e.seqno < U64
    ensures DecodeKey(EncodeKey(e)) == (e.key, e.seqno, KindByte(e.kind))
  {
    hide BE, FromBE;
    var b := EncodeKey(e);
    Widths();
    BERoundTrip(8, e.seqno);
    assert b[..|b| - 9] == e.key && b[|b| - 9..|b| - 1] == BE(8, e.seqno);
  }

  // ---- Block handles ----

  datatype BlockHandle = BlockHandle(offset: nat, size: nat)

  function EncodeHandle(h: BlockHandle): (b: Bytes)
    ensures |b| >= 2
  {
    PutUvarint(h.offset) + PutUvarint(h.size)
  }

  /** decodeBlockHandle: the handle and the bytes it takes. */
  function DecodeHandle(b: Bytes): (r: Option<(BlockHandle, nat)>)
    ensures r.Some? ==> r.value.1 <= |b|
  {
    match Uvarint(b)
    case None => None
    case Some(a) =>
      match Uvarint(b[a.1..])
      case None => None
      case Some(c) => Some((BlockHandle(a.0, c.0), a.1 + c.1))
  }

  lemma HandleRoundTrip(h: BlockHandle, rest: Bytes)
    requires h.offset < U64 && h.size < U64
    ensures DecodeHandle(EncodeHandle(h) + rest) == Some((h, |EncodeHandle(h)|))
  {
    hide PutUvarint, Uvarint;
    var a, c := PutUvarint(h.offset), PutUvarint(h.size);
    assert EncodeHandle(h) + rest == a + (c + rest);
    UvarintRoundTrip(h.offset, c + rest);
    UvarintRoundTrip(h.size, rest);
    assert (a + (c + rest))[|a|..] == c + rest;
  }

  // ---- The footer ----

  const FOOTER: nat := 48
  const MAGIC: nat := 0x88e2_41b7_85f4_cff7
  const FORMAT_VERSION: nat := 1

  /** The two handles, zero padding, the version over bytes 32 to 35, and the magic number in the last eight bytes. */
  function FooterOf(filter: BlockHandle, index: BlockHandle): (f: Bytes)
    ensures |f| == FOOTER
  {
    var handles := EncodeHandle(filter) + EncodeHandle(index);
    var padded := seq(40, i requires 0 <= i < 40 => if i < |handles| then handles[i] else 0);
    padded[..32] + LE(4, FORMAT_VERSION) + padded[36..40] + LE(8, MAGIC)
  }

  datatype Footer = Handles(filter: BlockHandle, index: BlockHandle) | BadMagic | BadVersion | BadHandles

  /** What NewSSTableReader makes of a footer. */
  function ReadFooter(f: Bytes): Footer
    requires |f| == FOOTER
  {
    var version := FromLE(f[32..36]);
    if FromLE(f[40..48]) != MAGIC then BadMagic
    else if version != 0 && version != FORMAT_VERSION then BadVersion
    else
      match DecodeHandle(f)
      case None => BadHandles
      case Some(a) =>
        match DecodeHandle(f[a.1..])
        case None => BadHandles
        case Some(b) => Handles(a.0, b.0)
  }

  ghost predicate Fits64(h: BlockHandle) {
    h.offset < U64 && h.size < U64
  }

  function HandleBytes(filter: BlockHandle, index: BlockHandle): (h: Bytes)
    ensures |h| >= 4
  {
    EncodeHandle(filter) + EncodeHandle(index)
  }

  /**
   * The footer reads back if and only if the handles leave byte 32 to the version, or end on that
   * byte with the value the version puts there.
   */
  lemma FooterReadsBack(filter: BlockHandle, index: BlockHandle)
    requires Fits64(filter) && Fits64(index)
    ensures var h := HandleBytes(filter, index);
            ReadFooter(FooterOf(filter, index)) == Handles(filter, index)
            <==> |h| <= 32 || (|h| == 33 && h[32] == 1)
  {
    hide EncodeHandle, ReadFooter, FooterOf, LE;
    var h := HandleBytes(filter, index);
    FooterBytes(filter, index);
    if |h| <= 32 || (|h| == 33 && h[32] == 1) {
      WholeReadsBack(filter, index);
    } else {
      OverwrittenIsLost(filter, index);
    }
  }

  lemma FooterBytes(filter: BlockHandle, index: BlockHandle)
    ensures var h, f := HandleBytes(filter, index), FooterOf(filter, index);
            && (forall i :: 0 <= i < 32 && i < |h| ==> f[i] == h[i]) && f[32] == FORMAT_VERSION
            && f[32..36] == LE(4, FORMAT_VERSION) && f[40..48] == LE(8, MAGIC)
  {
    hide EncodeHandle, LE;
    VersionFirst();
  }

  lemma VersionFirst()
    ensures LE(4, FORMAT_VERSION)[0] == FORMAT_VERSION
  {
  }

  lemma WholeReadsBack(filter: BlockHandle, index: BlockHandle)
    requires Fits64(filter) && Fits64(index)
    requires var h := HandleBytes(filter, index); |h| <= 32 || (|h| == 33 && h[32] == 1)
    ensures ReadFooter(FooterOf(filter, index)) == Handles(filter, index)
  {
    hide EncodeHandle, DecodeHandle, LE, FromLE, FooterOf;
    var f := FooterOf(filter, index);
    var a, b := EncodeHandle(filter), EncodeHandle(index);
    FooterBytes(filter, index);
    Widths();
    LERoundTrip(4, FORMAT_VERSION);
    LERoundTrip(8, MAGIC);
    var rest := f[|a| + |b|..];
    assert f[..|a| + |b|] == a + b;
    HandleRoundTrip(filter, b + rest);
    HandleRoundTrip(index, rest);
    assert f == a + (b + rest);
    assert f[|a|..] == b + rest;
  }

  /** Bytes that follow a number's encoding and then end it with another byte do not read as the number. */
  lemma {:induction false} OtherEnd(v: nat, b: Bytes, j: nat, k: nat)
    requires j < |PutUvarint(v)| && j < |b| && b[..j] == PutUvarint(v)[..j]
    requires b[j] < 128 && b[j] != PutUvarint(v)[j]
    ensures UvarintIn(b, k).Some? ==> UvarintIn(b, k).value.0 != v
  {
    if j > 0 && k > 0 {
      assert b[0] == b[..j][0] == PutUvarint(v)[..j][0];
      var c := PutUvarint(v / 128);
      assert b[1..][..j - 1] == b[..j][1..] == PutUvarint(v)[..j][1..] == c[..j - 1];
      OtherEnd(v / 128, b[1..], j - 1, k - 1);
    }
  }

  /** Three numbers take at most 30 bytes, so byte 32 is part of the last one. */
  lemma OverwrittenIsLost(filter: BlockHandle, index: BlockHandle)
    requires Fits64(filter) && Fits64(index)
    requires var h := HandleBytes(filter, index); |h| > 33 || (|h| == 33 && h[32] != 1)
    ensures ReadFooter(FooterOf(filter, index)) != Handles(filter, index)
  {
    hide FooterOf, LE, FromLE, PutUvarint, Uvarint;
    var f := FooterOf(filter, index);
    var a, b, c := EncodeHandle(filter), PutUvarint(index.offset), PutUvarint(index.size);
    var h := HandleBytes(filter, index);
    FooterBytes(filter, index);
    TenBytes(filter.offset);
    TenBytes(filter.size);
    TenBytes(index.offset);
    var p := |a| + |b|;
    var rest, tail := f[|a|..], f[p..];
    assert h == a + b + c by { assert h == a + (b + c); }
    Parted(f, a, b, c);
    HandleRoundTrip(filter, rest);
    UvarintRoundTrip(index.offset, tail);
    assert rest[|b|..] == tail;
    assert tail[32 - p] == 1 && h[32] == c[32 - p];
    LastByte(index.size, 32 - p);
    assert Uvarint(tail).Some? ==> Uvarint(tail).value.0 != index.size by {
      OtherEnd(index.size, tail, 32 - p, 10);
      UvarintIs(tail);
    }
  }

  lemma Parted(f: Bytes, a: Bytes, b: Bytes, c: Bytes)
    requires |f| == FOOTER && |a| + |b| <= 32 <= |a| + |b| + |c|
    requires forall i :: 0 <= i < 32 ==> f[i] == (a + b + c)[i]
    ensures var p := |a| + |b|;
            f == a + f[|a|..] && f[|a|..] == b + f[p..] && f[p..][..32 - p] == c[..32 - p]
  {
    var p := |a| + |b|;
    assert forall i :: 0 <= i < |a| ==> f[i] == (a + b + c)[i] == a[i];
    assert f[..|a|] == a;
    assert forall i :: 0 <= i < |b| ==> f[|a| + i] == (a + b + c)[|a| + i] == b[i];
    assert f[|a|..p] == b;
    assert forall i :: 0 <= i < 32 - p ==> f[p + i] == (a + b + c)[p + i] == c[i];
  }

  lemma UvarintIs(b: Bytes)
    ensures Uvarint(b) == UvarintIn(b, 10)
  {
  }

  /** Only the last byte of a number is below 128. */
  lemma {:induction false} LastByte(v: nat, i: nat)
    requires i < |PutUvarint(v)|
    ensures PutUvarint(v)[i] < 128 <==> i == |PutUvarint(v)| - 1
  {
    if v >= 128 && i > 0 { LastByte(v / 128, i - 1); }
  }

  lemma TenBytes(v: nat)
    requires v < U64
    ensures |PutUvarint(v)| <= 10
  {
    EightBytes();
    assert Pow128(10) == 0x4000 * Pow128(8);
    UvarintLength(v, 10);
  }

  lemma {:induction false} UvarintLong(v: nat, n: nat)
    requires n >= 1 && v >= Pow128(n - 1)
    ensures |PutUvarint(v)| >= n
  {
    if n > 1 {
      assert v / 128 >= Pow128(n - 2);
      PowPositive(n - 2);
      UvarintLong(v / 128, n - 1);
    }
  }

  lemma {:induction false} PowPositive(n: nat)
    ensures Pow128(n) >= 1
  {
    if n > 0 { PowPositive(n - 1); }
  }

  /** Handles of the greatest numbers take 40 bytes, and the version destroys the last. */
  lemma FooterLostExample()
    ensures var h := BlockHandle(U64 - 1, U64 - 1); ReadFooter(FooterOf(h, h)) != Handles(h, h)
  {
    hide ReadFooter, FooterOf, PutUvarint;
    var h := BlockHandle(U64 - 1, U64 - 1);
    EightBytes();
    assert Pow128(9) == 128 * Pow128(8);
    UvarintLong(U64 - 1, 10);
    FooterReadsBack(h, h);
  }

  /** In particular when all four numbers are below 2^56. */
  lemma FooterRoundTrip(filter: BlockHandle, index: BlockHandle)
    requires filter.offset < 0x100_0000_0000_0000 && filter.size < 0x100_0000_0000_0000
    requires index.offset < 0x100_0000_0000_0000 && index.size < 0x100_0000_0000_0000
    ensures ReadFooter(FooterOf(filter, index)) == Handles(filter, index)
  {
    hide ReadFooter, FooterOf, PutUvarint;
    EightBytes();
    UvarintLength(filter.offset, 8);
    UvarintLength(filter.size, 8);
    UvarintLength(index.offset, 8);
    UvarintLength(index.size, 8);
    FooterReadsBack(filter, index);
  }

  lemma EightBytes()
    ensures Pow128(8) == 0x100_0000_0000_0000
  {
    assert Pow128(2) == 0x4000;
    assert Pow128(4) == 0x4000 * Pow128(2);
    assert Pow128(6) == 0x4000 * Pow128(4);
    assert Pow128(8) == 0x4000 * Pow128(6);
  }
}
