// The write-ahead log: 32 KB blocks, records fragmented across them, and the reader that undoes it.
module Wal {
  import opened Keys
  import opened Codec

  const BLOCK: nat := 32768
  const HEADER: nat := 7

  const FULL: byte := 1
  const FIRST: byte := 2
  const MIDDLE: byte := 3
  const LAST: byte := 4

  /** The checksum of a chunk; nothing here depends on which one it is. */
  type Checksum = Bytes -> nat

  ghost predicate Fits32(crc: Checksum) {
    forall b :: crc(b) < U32
  }

  // ---- What the writer puts on disk ----

  function FragmentType(first: bool, final: bool): byte {
    if first && final then FULL else if first then FIRST else if final then LAST else MIDDLE
  }

  function Fragment(crc: Checksum, t: byte, chunk: Bytes): (f: Bytes)
    ensures |f| == HEADER + |chunk|
  {
    LE(4, crc(chunk)) + LE(2, |chunk|) + [t] + chunk
  }

  function Zeros(n: nat): (z: Bytes)
    ensures |z| == n && forall i :: 0 <= i < n ==> z[i] == 0
  {
    seq(n, i => 0)
  }

  /** The padding before the next fragment: a block with no room for one payload byte is closed. */
  function Pad(off: nat): nat
    requires off < BLOCK
  {
    if BLOCK - off <= HEADER then BLOCK - off else 0
  }

  function Start(off: nat): (r: nat)
    requires off < BLOCK
    ensures r + HEADER < BLOCK
  {
    if BLOCK - off <= HEADER then 0 else off
  }

  /** How much of a payload goes into the next fragment. */
  function Chunk(off: nat, remaining: nat): (n: nat)
    requires off < BLOCK
    ensures n <= remaining && (remaining > 0 ==> n > 0) && Start(off) + HEADER + n <= BLOCK
  {
    var avail := BLOCK - Start(off) - HEADER;
    if remaining > avail then avail else remaining
  }

  function Wrap(pos: nat): nat {
    if pos >= BLOCK then 0 else pos
  }

  /** The block offset after the next fragment of a payload. */
  function After(off: nat, remaining: nat): (r: nat)
    requires off < BLOCK
    ensures r < BLOCK
  {
    Wrap(Start(off) + HEADER + Chunk(off, remaining))
  }

  /** The bytes writeRecord appends for data at block offset off, fragment by fragment. */
  function Emit(crc: Checksum, off: nat, data: Bytes, first: bool): Bytes
    requires off < BLOCK
    decreases |data|
  {
    if data == [] then []
    else
      var n := Chunk(off, |data|);
      Zeros(Pad(off)) + (Fragment(crc, FragmentType(first, n == |data|), data[..n])
                         + Emit(crc, After(off, |data|), data[n..], false))
  }

  /** The block offset after the whole payload. */
  function Landing(off: nat, n: nat): (r: nat)
    requires off < BLOCK
    ensures r < BLOCK
    decreases n
  {
    if n == 0 then off else Landing(After(off, n), n - Chunk(off, n))
  }

  function EmitAll(crc: Checksum, off: nat, ds: seq<Bytes>): Bytes
    requires off < BLOCK
    decreases |ds|
  {
    if ds == [] then []
    else Emit(crc, off, ds[0], true) + EmitAll(crc, Landing(off, |ds[0]|), ds[1..])
  }

  lemma EmitNothing(crc: Checksum, off: nat)
    requires off < BLOCK
    ensures Emit(crc, off, [], true) == [] && Emit(crc, off, [], false) == [] && Landing(off, 0) == off
  {
  }

  lemma LandingStep(off: nat, n: nat)
    requires off < BLOCK && n > 0
    ensures Landing(off, n) == Landing(After(off, n), n - Chunk(off, n))
  {
  }

  lemma EmitStep(crc: Checksum, file: Bytes, off: nat, data: Bytes, first: bool)
    requires off < BLOCK && data != []
    ensures var n := Chunk(off, |data|);
            file + Emit(crc, off, data, first)
            == file + Zeros(Pad(off)) + Fragment(crc, FragmentType(first, n == |data|), data[..n])
               + Emit(crc, After(off, |data|), data[n..], false)
  {
    hide Fragment, Zeros, Chunk, After, Pad, FragmentType;
    var n := Chunk(off, |data|);
    var z, g, e := Zeros(Pad(off)), Fragment(crc, FragmentType(first, n == |data|), data[..n]), Emit(crc, After(off, |data|), data[n..], false);
    assert file + (z + (g + e)) == file + z + g + e;
  }

  /** The block position a writer keeps is the one its file's length implies: reopening goes on where it stopped. */
  lemma {:induction false} LandingIsLength(crc: Checksum, off: nat, data: Bytes, first: bool) returns (q: nat)
    requires off < BLOCK
    ensures off + |Emit(crc, off, data, first)| == q * BLOCK + Landing(off, |data|)
    ensures (off + |Emit(crc, off, data, first)|) % BLOCK == Landing(off, |data|)
    decreases |data|
  {
    q := 0;
    if data != [] {
      var n := Chunk(off, |data|);
      q := LandingIsLength(crc, After(off, |data|), data[n..], false);
      if Pad(off) > 0 { q := q + 1; }
      if Start(off) + HEADER + n == BLOCK { q := q + 1; }
    }
    BlocksApart(q, Landing(off, |data|));
  }

  lemma BlocksApart(q: nat, r: nat)
    requires r < BLOCK
    ensures (q * BLOCK + r) % BLOCK == r
  {
  }

  // ---- What the reader makes of a file ----

  /** The fields of the fragment header at the front of f. */
  function StoredCrc(f: Bytes): nat
    requires |f| >= HEADER
  {
    FromLE(f[0..4])
  }

  function Length(f: Bytes): nat
    requires |f| >= HEADER
  {
    FromLE(f[4..6])
  }

  /** How much of f lies in the block whose offset off it starts at. */
  function Room(f: Bytes, off: nat): (n: nat)
    requires off < BLOCK
    ensures n <= |f| && off + n <= BLOCK
  {
    if |f| < BLOCK - off then |f| else BLOCK - off
  }

  /**
   * The payloads RecoverWAL reassembles from the rest f of a file, starting at block offset off
   * with the fragments pending.
   */
  function Read(crc: Checksum, f: Bytes, off: nat, pending: Bytes): seq<Bytes>
    requires off < BLOCK
    decreases |f|
  {
    var room := Room(f, off);
    if room < HEADER || (Length(f) == 0 && f[6] == 0) then
      if |f| <= BLOCK - off then [] else Read(crc, f[BLOCK - off..], 0, pending)
    else
      var end := HEADER + Length(f);
      if end > room then []
      else
        var chunk := f[HEADER..end];
        if crc(chunk) != StoredCrc(f) then []
        else Delivered(f[6], pending, chunk) + Read(crc, f[end..], Wrap(off + end), Held(f[6], pending, chunk))
  }

  /** The block holds no further fragment. */
  predicate BlockOver(f: Bytes, off: nat)
    requires off < BLOCK
  {
    Room(f, off) < HEADER || (Length(f) == 0 && f[6] == 0)
  }

  lemma ReadNextBlock(crc: Checksum, f: Bytes, off: nat, pending: Bytes)
    requires off < BLOCK && BlockOver(f, off)
    ensures Read(crc, f, off, pending) == if |f| <= BLOCK - off then [] else Read(crc, f[BLOCK - off..], 0, pending)
  {
  }

  /** The fragment at the front of f is whole and its checksum agrees. */
  predicate Sound(crc: Checksum, f: Bytes, off: nat)
    requires off < BLOCK && !BlockOver(f, off)
  {
    HEADER + Length(f) <= Room(f, off) && crc(f[HEADER..HEADER + Length(f)]) == StoredCrc(f)
  }

  lemma ReadStops(crc: Checksum, f: Bytes, off: nat, pending: Bytes)
    requires off < BLOCK && !BlockOver(f, off) && !Sound(crc, f, off)
    ensures Read(crc, f, off, pending) == []
  {
  }

  lemma ReadStep(crc: Checksum, f: Bytes, off: nat, pending: Bytes)
    requires off < BLOCK && !BlockOver(f, off) && Sound(crc, f, off)
    ensures var end := HEADER + Length(f);
            Read(crc, f, off, pending) == Delivered(f[6], pending, f[HEADER..end])
                                          + Read(crc, f[end..], Wrap(off + end), Held(f[6], pending, f[HEADER..end]))
  {
    hide Delivered, Held, Length, StoredCrc;
  }

  /** The payload a fragment completes. */
  function Delivered(t: byte, pending: Bytes, chunk: Bytes): seq<Bytes> {
    if t == FULL then [chunk] else if t == LAST then [pending + chunk] else []
  }

  /** The fragments pending after one more. */
  function Held(t: byte, pending: Bytes, chunk: Bytes): Bytes {
    if t == FIRST then chunk
    else if t == MIDDLE then pending + chunk
    else if t == FULL || t == LAST then []
    else pending
  }

  // ---- The reader inverts the writer ----

  lemma FragmentFields(crc: Checksum, t: byte, chunk: Bytes, rest: Bytes)
    requires Fits32(crc) && |chunk| < U16
    ensures var f := Fragment(crc, t, chunk) + rest;
            && StoredCrc(f) == crc(chunk) && Length(f) == |chunk| && f[6] == t
            && f[HEADER..HEADER + |chunk|] == chunk && f[HEADER + |chunk|..] == rest
  {
    var f := Fragment(crc, t, chunk) + rest;
    Widths();
    LERoundTrip(4, crc(chunk));
    LERoundTrip(2, |chunk|);
    assert f[0..4] == LE(4, crc(chunk));
    assert f[4..6] == LE(2, |chunk|);
  }

  lemma SkipPad(crc: Checksum, off: nat, g: Bytes, pending: Bytes)
    requires off < BLOCK && g != []
    ensures Read(crc, Zeros(Pad(off)) + g, off, pending) == Read(crc, g, Start(off), pending)
  {
    var f := Zeros(Pad(off)) + g;
    if Pad(off) == 0 {
      assert f == g;
    } else {
      assert f[BLOCK - off..] == g;
      if Room(f, off) >= HEADER {
        ZeroLength(f);
      }
    }
  }

  lemma ZeroLength(f: Bytes)
    requires |f| >= HEADER && f[4] == 0 && f[5] == 0
    ensures Length(f) == 0
  {
    var b := f[4..6];
    assert FromLE(b[1..][1..]) == 0;
    assert FromLE(b[1..]) == 0;
  }

  lemma ReadFragment(crc: Checksum, pos: nat, t: byte, chunk: Bytes, rest: Bytes, pending: Bytes)
    requires Fits32(crc) && chunk != [] && pos + HEADER + |chunk| <= BLOCK
    ensures Read(crc, Fragment(crc, t, chunk) + rest, pos, pending)
         == Delivered(t, pending, chunk) + Read(crc, rest, Wrap(pos + HEADER + |chunk|), Held(t, pending, chunk))
  {
    hide Fragment, StoredCrc, Length, Read, Delivered, Held, Fits32;
    FragmentFields(crc, t, chunk, rest);
    ReadStep(crc, Fragment(crc, t, chunk) + rest, pos, pending);
  }

  lemma EmitParts(pad: Bytes, frag: Bytes, more: Bytes, rest: Bytes)
    ensures pad + (frag + more) + rest == pad + (frag + (more + rest))
  {
  }

  /** One record, whatever block offset it starts at and whatever follows it. */
  lemma {:induction false} ReadEmitted(crc: Checksum, off: nat, data: Bytes, first: bool, rest: Bytes, pending: Bytes)
    requires Fits32(crc) && off < BLOCK && data != []
    ensures Read(crc, Emit(crc, off, data, first) + rest, off, pending)
         == [if first then data else pending + data] + Read(crc, rest, Landing(off, |data|), [])
    decreases |data|
  {
    hide Read, Fragment, Zeros, Fits32;
    var n := Chunk(off, |data|);
    var chunk, tail, next := data[..n], data[n..], After(off, |data|);
    var t := FragmentType(first, n == |data|);
    var more := Emit(crc, next, tail, false) + rest;
    EmitParts(Zeros(Pad(off)), Fragment(crc, t, chunk), Emit(crc, next, tail, false), rest);
    SkipPad(crc, off, Fragment(crc, t, chunk) + more, pending);
    ReadFragment(crc, Start(off), t, chunk, more, pending);
    if n == |data| {
      assert more == rest && chunk == data;
    } else {
      ReadEmitted(crc, next, tail, false, rest, Held(t, pending, chunk));
      assert chunk + tail == data && (pending + chunk) + tail == pending + data;
    }
  }

  lemma ReadNothing(crc: Checksum, off: nat, pending: Bytes)
    requires off < BLOCK
    ensures Read(crc, [], off, pending) == []
  {
  }

  /** A fragment cut short, in its header or its payload, ends the reading. */
  lemma ReadCutFragment(crc: Checksum, pos: nat, t: byte, chunk: Bytes, n: nat, pending: Bytes)
    requires Fits32(crc) && chunk != [] && pos + HEADER + |chunk| <= BLOCK && n < HEADER + |chunk|
    ensures Read(crc, Fragment(crc, t, chunk)[..n], pos, pending) == []
  {
    var g := Fragment(crc, t, chunk);
    var f := g[..n];
    if n >= HEADER {
      FragmentFields(crc, t, chunk, []);
      assert g + [] == g;
      assert f[4..6] == g[4..6];
    }
  }

  /** Cut inside the padding: nothing of the record is there yet. */
  lemma ReadCutPad(crc: Checksum, off: nat, n: nat, pending: Bytes)
    requires off < BLOCK && n <= Pad(off)
    ensures Read(crc, Zeros(n), off, pending) == []
  {
    if Room(Zeros(n), off) >= HEADER {
      ZeroLength(Zeros(n));
    }
  }

  /** A record cut short anywhere leaves nothing behind. */
  lemma {:induction false} ReadCut(crc: Checksum, off: nat, data: Bytes, first: bool, n: nat, pending: Bytes)
    requires Fits32(crc) && off < BLOCK && data != [] && n < |Emit(crc, off, data, first)|
    ensures Read(crc, Emit(crc, off, data, first)[..n], off, pending) == []
    decreases |data|
  {
    hide Read, Fragment;
    var k := Chunk(off, |data|);
    var pad, next := Zeros(Pad(off)), After(off, |data|);
    var t := FragmentType(first, k == |data|);
    var frag, more := Fragment(crc, t, data[..k]), Emit(crc, next, data[k..], false);
    var f := Emit(crc, off, data, first)[..n];
    assert Emit(crc, off, data, first) == pad + (frag + more);
    if n <= |pad| {
      assert f == Zeros(n);
      ReadCutPad(crc, off, n, pending);
    } else if n < |pad| + |frag| {
      assert f == pad + frag[..n - |pad|];
      SkipPad(crc, off, frag[..n - |pad|], pending);
      ReadCutFragment(crc, Start(off), t, data[..k], n - |pad|, pending);
    } else {
      var m := n - |pad| - |frag|;
      assert f == pad + (frag + more[..m]);
      SkipPad(crc, off, frag + more[..m], pending);
      ReadFragment(crc, Start(off), t, data[..k], more[..m], pending);
      ReadCut(crc, next, data[k..], false, m, Held(t, pending, data[..k]));
    }
  }

  /** How many leading records lie wholly within the first n bytes. */
  function Whole(crc: Checksum, off: nat, ds: seq<Bytes>, n: nat): (k: nat)
    requires off < BLOCK
    ensures k <= |ds|
    decreases |ds|
  {
    if ds == [] || n < |Emit(crc, off, ds[0], true)| then 0
    else 1 + Whole(crc, Landing(off, |ds[0]|), ds[1..], n - |Emit(crc, off, ds[0], true)|)
  }

  /** Whole is the greatest count whose records fit. */
  lemma {:induction false} WholeIsGreatest(crc: Checksum, off: nat, ds: seq<Bytes>, n: nat)
    requires off < BLOCK
    ensures var k := Whole(crc, off, ds, n);
            && |EmitAll(crc, off, ds[..k])| <= n
            && (k < |ds| ==> |EmitAll(crc, off, ds[..k + 1])| > n)
    decreases |ds|
  {
    hide Emit, Landing;
    var k := Whole(crc, off, ds, n);
    if k == 0 {
      if ds != [] {
        assert ds[..1][0] == ds[0] && ds[..1][1..] == [];
      }
    } else {
      var rest, next := ds[1..], Landing(off, |ds[0]|);
      WholeIsGreatest(crc, next, rest, n - |Emit(crc, off, ds[0], true)|);
      assert ds[..k][0] == ds[0] && ds[..k][1..] == rest[..k - 1];
      if k < |ds| {
        assert ds[..k + 1][0] == ds[0] && ds[..k + 1][1..] == rest[..k];
      }
    }
  }

  /** Every byte prefix of a log gives back exactly the records it holds in full. */
  lemma {:induction false} ReadPrefix(crc: Checksum, off: nat, ds: seq<Bytes>, n: nat, pending: Bytes)
    requires Fits32(crc) && off < BLOCK && (forall d :: d in ds ==> d != []) && n <= |EmitAll(crc, off, ds)|
    ensures Read(crc, EmitAll(crc, off, ds)[..n], off, pending) == ds[..Whole(crc, off, ds, n)]
    decreases |ds|
  {
    hide Read, Emit, Landing;
    if ds == [] {
      assert EmitAll(crc, off, ds)[..n] == [];
      ReadNothing(crc, off, pending);
    } else {
      var head, next := Emit(crc, off, ds[0], true), Landing(off, |ds[0]|);
      var tail := EmitAll(crc, next, ds[1..]);
      assert ds[0] in ds && forall d :: d in ds[1..] ==> d in ds;
      if n < |head| {
        assert (head + tail)[..n] == head[..n];
        ReadCut(crc, off, ds[0], true, n, pending);
      } else {
        var m := n - |head|;
        assert (head + tail)[..n] == head + tail[..m];
        ReadEmitted(crc, off, ds[0], true, tail[..m], pending);
        ReadPrefix(crc, next, ds[1..], m, []);
        var k := Whole(crc, next, ds[1..], m);
        assert [ds[0]] + ds[1..][..k] == ds[..k + 1];
      }
    }
  }

  lemma DropTwice(file: Bytes, a: nat, b: nat)
    requires a + b <= |file|
    ensures file[a..][b..] == file[a + b..]
  {
  }

  lemma BlockSlice(file: Bytes, start: nat, n: nat, pos: nat, a: nat, b: nat)
    requires start + n <= |file| && a <= b && pos + b <= n
    ensures file[start..start + n][pos + a..pos + b] == file[start + pos..][a..b]
  {
    var block := file[start..start + n];
    assert forall i :: 0 <= i < n ==> block[i] == file[start + i];
  }

  /** The n bytes io.ReadFull delivers from start on: a block, or what is left. */
  predicate IsBlock(file: Bytes, start: nat, n: nat) {
    start + n <= |file| && n <= BLOCK && (n == BLOCK || start + n == |file|)
  }

  /** What the reader sees at pos in a block is what is at the front of the rest of the file. */
  lemma FieldsInBlock(file: Bytes, start: nat, n: nat, pos: nat)
    requires IsBlock(file, start, n) && pos + HEADER <= n
    ensures var block, f := file[start..start + n], file[start + pos..];
            && FromLE(block[pos..pos + 4]) == StoredCrc(f) && FromLE(block[pos + 4..pos + 6]) == Length(f)
            && block[pos + 6] == f[6] && Room(f, pos) == n - pos
            && (HEADER + Length(f) <= n - pos ==>
                  && block[pos + HEADER..pos + HEADER + Length(f)] == f[HEADER..HEADER + Length(f)]
                  && f[HEADER + Length(f)..] == file[start + pos + HEADER + Length(f)..])
  {
    hide FromLE;
    var f := file[start + pos..];
    BlockSlice(file, start, n, pos, 0, 4);
    BlockSlice(file, start, n, pos, 4, 6);
    var len := Length(f);
    if HEADER + len <= n - pos {
      BlockSlice(file, start, n, pos, HEADER, HEADER + len);
      DropTwice(file, start + pos, HEADER + len);
    }
  }

  lemma BlockDone(crc: Checksum, file: Bytes, start: nat, n: nat, pos: nat, pending: Bytes)
    requires IsBlock(file, start, n) && pos <= n && (pos < BLOCK ==> BlockOver(file[start + pos..], pos))
    ensures Read(crc, file[start + pos..], Wrap(pos), pending) == Read(crc, file[start + n..], 0, pending)
  {
    hide Read;
    var f := file[start + pos..];
    if pos < BLOCK {
      ReadNextBlock(crc, f, pos, pending);
      ReadNothing(crc, 0, pending);
      if |f| > BLOCK - pos {
        DropTwice(file, start + pos, BLOCK - pos);
      } else {
        assert file[start + n..] == [];
      }
    }
  }

  /** RecoverWAL's block loop, up to the decoding of the payloads it reassembles. */
  method Reassemble(crc: Checksum, file: Bytes) returns (payloads: seq<Bytes>)
    ensures payloads == Read(crc, file, 0, [])
  {
    hide Read, FromLE, Delivered, Held, StoredCrc, Length;
    payloads := [];
    var pending: Bytes := [];
    var start := 0;
    ghost var all := Read(crc, file, 0, []);
    assert file[0..] == file;
    while start < |file|
      invariant start <= |file|
      invariant payloads + Read(crc, file[start..], 0, pending) == all
    {
      var n := if |file| - start < BLOCK then |file| - start else BLOCK;
      var block := file[start..start + n];
      var pos := 0;
      while pos + HEADER <= |block|
        invariant pos <= |block|
        invariant payloads + Read(crc, file[start + pos..], Wrap(pos), pending) == all
      {
        ghost var f := file[start + pos..];
        FieldsInBlock(file, start, n, pos);
        var crcStored, length, rType := FromLE(block[pos..pos + 4]), FromLE(block[pos + 4..pos + 6]), block[pos + 6];
        if length == 0 && rType == 0 {
          break;
        }
        var end := pos + HEADER + length;
        if end > |block| {
          ReadStops(crc, f, pos, pending);
          return;
        }
        var payload := block[pos + HEADER..end];
        if crc(payload) != crcStored {
          ReadStops(crc, f, pos, pending);
          return;
        }
        ReadStep(crc, f, pos, pending);
        payloads := payloads + Delivered(rType, pending, payload);
        pending := Held(rType, pending, payload);
        pos := end;
      }
      BlockDone(crc, file, start, n, pos, pending);
      start := start + n;
    }
    ReadNothing(crc, 0, pending);
    assert file[start..] == [];
  }
}
