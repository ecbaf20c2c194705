// Blocks: prefix-compressed keys with restart points, and the iterator that undoes them.
module Block {
  import opened Keys
  import opened Codec
  import opened Varint

  /** An encoded key and its value. */
  datatype Pair = Pair(key: Bytes, value: Bytes)

  predicate Fits(p: Pair) {
    |p.key| < U64 && |p.value| < U64
  }

  // ---- What the builder writes ----

  /** How many leading bytes two keys share. */
  function Shared(a: Bytes, b: Bytes): (n: nat)
    ensures n <= |a| && n <= |b| && a[..n] == b[..n]
  {
    if a == [] || b == [] || a[0] != b[0] then 0
    else
      var n := Shared(a[1..], b[1..]);
      assert a[..n + 1] == [a[0]] + a[1..][..n] && b[..n + 1] == [b[0]] + b[1..][..n];
      n + 1
  }

  /** One entry: the lengths, the part of the key not shared with the previous one, the value. */
  function Chunk(p: Pair, shared: nat): (b: Bytes)
    requires shared <= |p.key|
    ensures |b| >= 3
  {
    PutUvarint(shared) + PutUvarint(|p.key| - shared) + PutUvarint(|p.value|) + p.key[shared..] + p.value
  }

  /** The builder's fields; last is the key added before, empty at the start. */
  datatype State = State(buf: Bytes, restarts: seq<nat>, counter: nat, last: Bytes)

  /** A restart point is recorded, and the whole key written, once interval entries went by since the last. */
  function Step(s: State, p: Pair, interval: nat): State {
    if s.counter < interval then
      State(s.buf + Chunk(p, Shared(s.last, p.key)), s.restarts, s.counter + 1, p.key)
    else
      State(s.buf + Chunk(p, 0), s.restarts + [|s.buf| % U32], 1, p.key)
  }

  function Built(ps: seq<Pair>, interval: nat): State {
    if ps == [] then State([], [], 0, []) else Step(Built(ps[..|ps| - 1], interval), ps[|ps| - 1], interval)
  }

  function Words(ns: seq<nat>): (b: Bytes)
    ensures |b| == 4 * |ns|
  {
    if ns == [] then [] else Words(ns[..|ns| - 1]) + LE(4, ns[|ns| - 1])
  }

  function Finished(s: State): Bytes {
    s.buf + Words(s.restarts) + LE(4, |s.restarts|)
  }

  /** keysAreInOrder, on encoded keys: a different user key must be greater, an equal one may come in any order. */
  predicate InOrder(prev: Bytes, next: Bytes) {
    prev != next && (DecodeKey(prev).0 != DecodeKey(next).0 ==> Less(DecodeKey(prev).0, DecodeKey(next).0))
  }

  class BlockBuilder {
    var buf: Bytes
    var restarts: seq<nat>
    var counter: nat
    /** nil until the first Add; Reset empties it without making it nil. */
    var lastKey: Option<Bytes>
    const restartInterval: nat
    ghost var pairs: seq<Pair>

    ghost predicate Valid()
      reads this
    {
      && restartInterval > 0
      && State(buf, restarts, counter, if lastKey.Some? then lastKey.value else []) == Built(pairs, restartInterval)
      && (lastKey.None? ==> pairs == [])
    }

    constructor (interval: int)
      ensures Valid() && pairs == [] && restartInterval == if interval <= 0 then 16 else interval
    {
      restartInterval := if interval <= 0 then 16 else interval;
      buf, restarts, counter, lastKey := [], [], 0, None;
      pairs := [];
    }

    /** Add panics on a key out of order. */
    method Add(key: Bytes, value: Bytes)
      requires Valid() && (lastKey.Some? ==> InOrder(lastKey.value, key))
      modifies this
      ensures Valid() && pairs == old(pairs) + [Pair(key, value)] && lastKey == Some(key)
      ensures |buf| > |old(buf)|
    {
      hide Built, Shared, PutUvarint, InOrder;
      ghost var p := Pair(key, value);
      var last := if lastKey.Some? then lastKey.value else [];
      var shared := 0;
      if counter < restartInterval {
        shared := SharedPrefix(last, key);
      } else {
        restarts := restarts + [|buf| % U32];
        counter := 0;
      }
      ghost var was := buf;
      buf := buf + PutUvarint(shared);
      buf := buf + PutUvarint(|key| - shared);
      buf := buf + PutUvarint(|value|);
      buf := buf + key[shared..];
      buf := buf + value;
      ChunkIs(was, p, shared);
      lastKey := Some(key);
      counter := counter + 1;
      BuiltNext(pairs, p, restartInterval);
      pairs := pairs + [p];
    }

    method SharedPrefix(last: Bytes, key: Bytes) returns (shared: nat)
      ensures shared == Shared(last, key)
    {
      shared := 0;
      while shared < |last| && shared < |key| && last[shared] == key[shared]
        invariant shared <= |last| && shared <= |key| && shared + Shared(last[shared..], key[shared..]) == Shared(last, key)
      {
        assert last[shared..][1..] == last[shared + 1..] && key[shared..][1..] == key[shared + 1..];
        shared := shared + 1;
      }
    }

    method Finish() returns (block: Bytes)
      requires Valid()
      modifies `buf
      ensures block == Finished(Built(pairs, restartInterval)) && buf == block
    {
      hide Built, LE;
      ghost var entries := buf;
      for i := 0 to |restarts|
        invariant buf == entries + Words(restarts[..i])
      {
        assert restarts[..i + 1][..i] == restarts[..i];
        buf := buf + LE(4, restarts[i]);
      }
      assert restarts[..|restarts|] == restarts;
      buf := buf + LE(4, |restarts|);
      return buf;
    }

    method Reset()
      requires restartInterval > 0
      modifies this
      ensures Valid() && pairs == [] && (lastKey.Some? ==> lastKey.value == []) && (old(lastKey).Some? <==> lastKey.Some?)
    {
      buf, restarts, counter := [], [], 0;
      lastKey := if lastKey.Some? then Some([]) else None;
      pairs := [];
    }
  }

  lemma ChunkIs(buf: Bytes, p: Pair, shared: nat)
    requires shared <= |p.key|
    ensures buf + PutUvarint(shared) + PutUvarint(|p.key| - shared) + PutUvarint(|p.value|) + p.key[shared..] + p.value
         == buf + Chunk(p, shared)
  {
    hide PutUvarint;
  }

  lemma BuiltNext(ps: seq<Pair>, p: Pair, interval: nat)
    ensures Built(ps + [p], interval) == Step(Built(ps, interval), p, interval)
  {
    assert (ps + [p])[..|ps|] == ps;
  }

  // ---- What the reader makes of a block ----

  /** The numbers in front of an entry, and how many bytes they take. */
  function Lengths(d: Bytes): (r: Option<(nat, nat, nat, nat)>)
    ensures r.Some? ==> 3 <= r.value.3 <= |d|
  {
    match Uvarint(d)
    case None => None
    case Some(a) =>
      match Uvarint(d[a.1..])
      case None => None
      case Some(b) =>
        match Uvarint(d[a.1 + b.1..])
        case None => None
        case Some(c) => Some((a.0, b.0, c.0, a.1 + b.1 + c.1))
  }

  /** BlockIterator.Next on the rest d of the entries after the key last: the entry and the bytes it takes. */
  function Parsed(d: Bytes, last: Bytes): (r: Option<(Pair, nat)>)
    ensures r.Some? ==> 3 <= r.value.1 <= |d|
  {
    match Lengths(d)
    case None => None
    case Some(l) =>
      var (shared, unshared, valueLen, n) := l;
      if shared > |last| || n + unshared + valueLen > |d| then None
      else Some((Pair(last[..shared] + d[n..n + unshared], d[n + unshared..n + unshared + valueLen]), n + unshared + valueLen))
  }

  /** Everything an iterator yields from there on. */
  function Walk(d: Bytes, last: Bytes): seq<Pair>
    decreases |d|
  {
    match Parsed(d, last)
    case None => []
    case Some(r) => [r.0] + Walk(d[r.1..], r.0.key)
  }

  lemma ChunkLengths(p: Pair, shared: nat, rest: Bytes)
    requires Fits(p) && shared <= |p.key|
    ensures var l := Lengths(Chunk(p, shared) + rest);
            && l.Some? && l.value.0 == shared && l.value.1 == |p.key| - shared && l.value.2 == |p.value|
            && l.value.3 + |p.key| - shared + |p.value| == |Chunk(p, shared)|
  {
    hide PutUvarint, Uvarint;
    var a, b, c := PutUvarint(shared), PutUvarint(|p.key| - shared), PutUvarint(|p.value|);
    var tail := p.key[shared..] + p.value + rest;
    var d := Chunk(p, shared) + rest;
    assert d == a + (b + (c + tail));
    UvarintRoundTrip(shared, b + (c + tail));
    assert d[|a|..] == b + (c + tail);
    UvarintRoundTrip(|p.key| - shared, c + tail);
    assert d[|a| + |b|..] == c + tail;
    UvarintRoundTrip(|p.value|, tail);
  }

  lemma ChunkParses(p: Pair, shared: nat, last: Bytes, rest: Bytes)
    requires Fits(p) && shared <= |p.key| && shared <= |last| && last[..shared] == p.key[..shared]
    ensures Parsed(Chunk(p, shared) + rest, last) == Some((p, |Chunk(p, shared)|))
    ensures (Chunk(p, shared) + rest)[|Chunk(p, shared)|..] == rest
  {
    hide PutUvarint, Lengths;
    ChunkLengths(p, shared, rest);
    var d, n := Chunk(p, shared) + rest, Lengths(Chunk(p, shared) + rest).value.3;
    var u := |p.key| - shared;
    assert d[n..n + u] == p.key[shared..];
    assert d[n + u..n + u + |p.value|] == p.value;
    assert last[..shared] + p.key[shared..] == p.key;
  }

  // ---- The reader inverts the builder ----

  function SharedAt(s: State, p: Pair, interval: nat): (n: nat)
    ensures n <= |p.key| && n <= |s.last| && s.last[..n] == p.key[..n]
  {
    if s.counter < interval then Shared(s.last, p.key) else 0
  }

  lemma {:induction false} BuiltPrefix(ps: seq<Pair>, interval: nat, n: nat)
    requires n <= |ps|
    ensures Built(ps[..n], interval).buf <= Built(ps, interval).buf
    ensures Built(ps[..n], interval).restarts <= Built(ps, interval).restarts
  {
    hide Chunk, Shared;
    if n == |ps| {
      assert ps[..n] == ps;
    } else {
      BuiltPrefix(ps[..|ps| - 1], interval, n);
      assert ps[..|ps| - 1][..n] == ps[..n];
    }
  }

  lemma BuiltTail(ps: seq<Pair>, interval: nat, n: nat)
    requires n < |ps|
    ensures var all, s, t := Built(ps, interval).buf, Built(ps[..n], interval), Built(ps[..n + 1], interval);
            && |s.buf| <= |t.buf| <= |all| && t.last == ps[n].key
            && all[|s.buf|..] == Chunk(ps[n], SharedAt(s, ps[n], interval)) + all[|t.buf|..]
  {
    hide Built, Chunk, Shared;
    var all, s, t := Built(ps, interval).buf, Built(ps[..n], interval), Built(ps[..n + 1], interval);
    assert ps[..n + 1] == ps[..n] + [ps[n]];
    BuiltNext(ps[..n], ps[n], interval);
    BuiltPrefix(ps, interval, n + 1);
    var c := Chunk(ps[n], SharedAt(s, ps[n], interval));
    assert t.buf == s.buf + c;
    assert all == t.buf + all[|t.buf|..];
    assert all == s.buf + (c + all[|t.buf|..]);
  }

  /** From entry n on an iterator that holds the key before it, or none at a restart point, yields exactly the rest. */
  lemma {:induction false} WalkFrom(ps: seq<Pair>, interval: nat, n: nat, last: Bytes)
    requires (forall p :: p in ps ==> Fits(p)) && n <= |ps|
    requires var s := Built(ps[..n], interval); last == s.last || (n < |ps| && SharedAt(s, ps[n], interval) == 0)
    ensures |Built(ps[..n], interval).buf| <= |Built(ps, interval).buf|
    ensures Walk(Built(ps, interval).buf[|Built(ps[..n], interval).buf|..], last) == ps[n..]
    decreases |ps| - n
  {
    hide Built, Chunk, Parsed;
    var all, s := Built(ps, interval).buf, Built(ps[..n], interval);
    if n == |ps| {
      assert ps[..n] == ps;
      assert all[|s.buf|..] == [];
      NothingParsed(last);
    } else {
      BuiltTail(ps, interval, n);
      assert ps[n] in ps;
      ChunkParses(ps[n], SharedAt(s, ps[n], interval), last, all[|Built(ps[..n + 1], interval).buf|..]);
      WalkFrom(ps, interval, n + 1, ps[n].key);
    }
  }

  lemma NothingParsed(last: Bytes)
    ensures Parsed([], last).None?
  {
  }

  /** An iterator over a block yields the pairs it was built from. */
  lemma WalkBuilt(ps: seq<Pair>, interval: nat)
    requires forall p :: p in ps ==> Fits(p)
    ensures Walk(Built(ps, interval).buf, []) == ps
  {
    hide Walk;
    assert ps[..0] == [];
    WalkFrom(ps, interval, 0, []);
    assert Built(ps, interval).buf[0..] == Built(ps, interval).buf && ps[0..] == ps;
  }

  /** Every stored restart offset is where a whole key starts, and seeking to it yields the rest. */
  lemma {:induction false} WalkRestart(ps: seq<Pair>, interval: nat, i: nat)
    requires interval > 0 && (forall p :: p in ps ==> Fits(p)) && |Built(ps, interval).buf| < U32
    requires i < |Built(ps, interval).restarts|
    ensures exists n :: 0 <= n < |ps| && Built(ps, interval).restarts[i] == |Built(ps[..n], interval).buf|
              && |Built(ps[..n], interval).buf| <= |Built(ps, interval).buf|
              && Walk(Built(ps, interval).buf[|Built(ps[..n], interval).buf|..], []) == ps[n..]
  {
    hide Walk, Built, Chunk;
    var n := RestartEntry(ps, interval, i);
    WalkFrom(ps, interval, n, []);
  }

  lemma {:induction false} RestartEntry(ps: seq<Pair>, interval: nat, i: nat) returns (n: nat)
    requires |Built(ps, interval).buf| < U32 && i < |Built(ps, interval).restarts|
    ensures n < |ps| && Built(ps[..n], interval).counter >= interval
    ensures Built(ps, interval).restarts[i] == |Built(ps[..n], interval).buf|
  {
    hide Chunk, Shared;
    var m := |ps| - 1;
    var front := Built(ps[..m], interval);
    BuiltPrefix(ps, interval, m);
    if i < |front.restarts| {
      n := RestartEntry(ps[..m], interval, i);
      assert ps[..m][..n] == ps[..n];
    } else {
      n := m;
    }
  }

  // ---- The block around the entries ----

  datatype Decoded = Decoded(data: Bytes, restarts: seq<nat>)

  function FromWords(b: Bytes): seq<nat>
    requires |b| % 4 == 0
  {
    if b == [] then [] else FromWords(b[..|b| - 4]) + [FromLE(b[|b| - 4..])]
  }

  lemma {:induction false} WordsRoundTrip(ns: seq<nat>)
    requires forall n :: n in ns ==> n < U32
    ensures FromWords(Words(ns)) == ns
  {
    hide LE, FromLE;
    if ns != [] {
      var k := |ns| - 1;
      assert ns[k] in ns && forall n :: n in ns[..k] ==> n in ns;
      WordsRoundTrip(ns[..k]);
      Widths();
      LERoundTrip(4, ns[k]);
      var b := Words(ns);
      assert b[..|b| - 4] == Words(ns[..k]) && b[|b| - 4..] == LE(4, ns[k]);
    }
  }

  function DecodedBlock(b: Bytes): Option<Decoded> {
    if |b| < 4 then None
    else
      var n := FromLE(b[|b| - 4..]);
      if |b| - 4 - 4 * n < 0 then None
      else Some(Decoded(b[..|b| - 4 - 4 * n], FromWords(b[|b| - 4 - 4 * n..|b| - 4])))
  }

  lemma NoWords(b: Bytes)
    requires b == []
    ensures FromWords(b) == []
  {
  }

  lemma NextWord(b: Bytes, start: nat, i: nat)
    requires start + (i + 1) * 4 <= |b|
    ensures FromWords(b[start..start + (i + 1) * 4])
         == FromWords(b[start..start + i * 4]) + [FromLE(b[start + i * 4..start + i * 4 + 4])]
  {
    hide FromLE;
    var w := b[start..start + (i + 1) * 4];
    assert w[..|w| - 4] == b[start..start + i * 4] && w[|w| - 4..] == b[start + i * 4..start + i * 4 + 4];
  }

  method DecodeBlock(b: Bytes) returns (r: Option<Decoded>)
    ensures r == DecodedBlock(b)
  {
    hide FromLE, FromWords;
    if |b| < 4 {
      return None;
    }
    var numRestarts := FromLE(b[|b| - 4..]);
    var start := |b| - 4 - numRestarts * 4;
    if start < 0 {
      return None;
    }
    var restarts := [];
    NoWords(b[start..start]);
    for i := 0 to numRestarts
      invariant restarts == FromWords(b[start..start + i * 4])
    {
      NextWord(b, start, i);
      restarts := restarts + [FromLE(b[start + i * 4..start + i * 4 + 4])];
    }
    return Some(Decoded(b[..start], restarts));
  }

  lemma {:induction false} RestartsFit(ps: seq<Pair>, interval: nat)
    ensures forall n :: n in Built(ps, interval).restarts ==> n < U32
  {
    hide Chunk, Shared;
    if ps != [] { RestartsFit(ps[..|ps| - 1], interval); }
  }

  /** DecodeBlock undoes Finish. */
  lemma BlockDecodes(ps: seq<Pair>, interval: nat)
    requires |Built(ps, interval).restarts| < U32
    ensures var s := Built(ps, interval);
            DecodedBlock(Finished(s)) == Some(Decoded(s.buf, s.restarts))
  {
    hide Built, LE, FromLE, Words, FromWords;
    var s := Built(ps, interval);
    var b := Finished(s);
    SliceMiddle(s.buf, Words(s.restarts), LE(4, |s.restarts|));
    RestartsFit(ps, interval);
    WordsRoundTrip(s.restarts);
    Widths();
    LERoundTrip(4, |s.restarts|);
    var start := |b| - 4 - 4 * |s.restarts|;
    assert start == |s.buf| && b[..start] == s.buf;
  }

  class BlockIterator {
    const block: Decoded
    var pos: nat
    var lastKey: Bytes
    var value: Bytes
    var valid: bool

    /** The entry the iterator stands on and all that follow. */
    ghost function Remaining(): seq<Pair>
      reads this
    {
      if !valid || pos > |block.data| then [] else [Pair(lastKey, value)] + Walk(block.data[pos..], lastKey)
    }

    /** On an entry, or where none can be parsed. */
    ghost predicate Steady()
      reads this
    {
      if valid then pos <= |block.data| else pos > |block.data| || Walk(block.data[pos..], lastKey) == []
    }

    constructor (block: Decoded)
      ensures this.block == block && Remaining() == Walk(block.data, []) && Steady()
    {
      this.block := block;
      pos, lastKey, value, valid := 0, [], [], false;
      new;
      assert block.data[0..] == block.data;
      Advance();
    }

    /** Parses the entry at pos. */
    method Advance()
      modifies this
      ensures Remaining() == if old(pos) > |block.data| then [] else Walk(block.data[old(pos)..], old(lastKey))
      ensures Steady()
    {
      hide Uvarint;
      if pos >= |block.data| {
        valid := false;
        return;
      }
      var data := block.data[pos..];
      var lengths := Lengths(data);
      if lengths.None? {
        valid := false;
        return;
      }
      var (shared, unshared, valueLen, n) := lengths.value;
      if shared > |lastKey| || unshared + valueLen > |data| - n {
        valid := false;
        return;
      }
      lastKey := lastKey[..shared] + data[n..n + unshared];
      value := data[n + unshared..n + unshared + valueLen];
      assert data[n + unshared + valueLen..] == block.data[pos + n + unshared + valueLen..];
      pos := pos + n + unshared + valueLen;
      valid := true;
    }

    /** Next; past the last entry it stays there. */
    method Next()
      requires Steady()
      modifies this
      ensures Steady() && Remaining() == if old(Remaining()) == [] then [] else old(Remaining())[1..]
    {
      Advance();
    }

    method SeekToRestart(i: nat)
      requires i < |block.restarts|
      modifies this
      ensures Remaining() == if block.restarts[i] > |block.data| then [] else Walk(block.data[block.restarts[i]..], [])
      ensures Steady()
    {
      pos := block.restarts[i];
      lastKey := [];
      Advance();
    }
  }
}
