// The payload of a log record: one entry, or a batch that stands or falls as a whole.
module Records {
  import opened Keys
  import opened Codec

  const ENTRY_BATCH: byte := 4

  datatype LogEntry = LogEntry(kind: byte, key: Bytes, value: Bytes, seqno: nat)

  /** The lengths and the number fit the fields they are written to. */
  predicate EntryFits(e: LogEntry) {
    |e.key| < U32 && |e.value| < U32 && 17 + |e.key| + |e.value| < U32 && e.seqno < U64
  }

  function EncodeEntry(e: LogEntry): (b: Bytes)
    ensures |b| == 17 + |e.key| + |e.value| && b[0] == e.kind
  {
    [e.kind] + LE(4, |e.key|) + e.key + LE(4, |e.value|) + e.value + LE(8, e.seqno)
  }

  function DecodeEntry(d: Bytes): Option<LogEntry> {
    if |d| < 9 then None
    else
      var keyLen := FromLE(d[1..5]);
      if |d| < 5 + keyLen + 4 then None
      else
        var valLen := FromLE(d[5 + keyLen..9 + keyLen]);
        if |d| < 9 + keyLen + valLen + 8 then None
        else
          Some(LogEntry(d[0], d[5..5 + keyLen], d[9 + keyLen..9 + keyLen + valLen],
                        FromLE(d[9 + keyLen + valLen..17 + keyLen + valLen])))
  }

  /** An entry reads back, whatever follows it. */
  lemma EntryRoundTrip(e: LogEntry, rest: Bytes)
    requires EntryFits(e)
    ensures DecodeEntry(EncodeEntry(e) + rest) == Some(e)
  {
    hide LE, FromLE;
    var d, k, v := EncodeEntry(e) + rest, |e.key|, |e.value|;
    Widths();
    LERoundTrip(4, k);
    LERoundTrip(4, v);
    LERoundTrip(8, e.seqno);
    assert d[0] == e.kind && d[1..5] == LE(4, k) && d[5..5 + k] == e.key;
    assert d[5 + k..9 + k] == LE(4, v) && d[9 + k..9 + k + v] == e.value;
    assert d[9 + k + v..17 + k + v] == LE(8, e.seqno);
  }

  // ---- Batches ----

  function Framed(es: seq<LogEntry>): Bytes {
    if es == [] then [] else Framed(es[..|es| - 1]) + LE(4, |EncodeEntry(es[|es| - 1])|) + EncodeEntry(es[|es| - 1])
  }

  function BatchBytes(es: seq<LogEntry>): Bytes {
    [ENTRY_BATCH] + LE(4, |es|) + Framed(es)
  }

  method EncodeBatch(entries: seq<LogEntry>) returns (buf: Bytes)
    ensures buf == BatchBytes(entries)
  {
    buf := [ENTRY_BATCH] + LE(4, |entries|);
    for i := 0 to |entries|
      invariant buf == [ENTRY_BATCH] + LE(4, |entries|) + Framed(entries[..i])
    {
      assert entries[..i + 1][..i] == entries[..i];
      var entry := EncodeEntry(entries[i]);
      buf := buf + LE(4, |entry|) + entry;
    }
    assert entries[..|entries|] == entries;
  }

  /** Exactly count framed entries and nothing after them. */
  function Unframed(b: Bytes, count: nat): Option<seq<LogEntry>> {
    if count == 0 then if b == [] then Some([]) else None
    else if |b| < 4 then None
    else
      var len := FromLE(b[..4]);
      if |b| - 4 < len || DecodeEntry(b[4..4 + len]).None? then None
      else
        var rest := Unframed(b[4 + len..], count - 1);
        if rest.None? then None else Some([DecodeEntry(b[4..4 + len]).value] + rest.value)
  }

  /** DecodeEntries: a batch, or a single entry from a record of the older kind. */
  function Decoded(d: Bytes): Option<seq<LogEntry>> {
    if d == [] then None
    else if d[0] != ENTRY_BATCH then
      var e := DecodeEntry(d);
      if e.None? then None else Some([e.value])
    else if |d| < 5 then None
    else Unframed(d[5..], FromLE(d[1..5]))
  }

  method DecodeEntries(data: Bytes) returns (r: Option<seq<LogEntry>>)
    ensures r == Decoded(data)
  {
    hide DecodeEntry, Unframed, FromLE;
    if |data| == 0 {
      return None;
    }
    if data[0] != ENTRY_BATCH {
      var entry := DecodeEntry(data);
      if entry.None? {
        return None;
      }
      return Some([entry.value]);
    }
    if |data| < 5 {
      return None;
    }
    var count: nat, pos: nat := FromLE(data[1..5]), 5;
    var entries: seq<LogEntry> := [];
    var i: nat := 0;
    PrefixedNone(Unframed(data[5..], count));
    while i < count
      invariant i <= count && pos <= |data|
      invariant Decoded(data) == Prefixed(entries, Unframed(data[pos..], count - i))
    {
      UnframedAt(data, pos, count - i);
      if |data| - pos < 4 {
        return None;
      }
      var entryLen := FromLE(data[pos..pos + 4]);
      pos := pos + 4;
      if |data| - pos < entryLen {
        return None;
      }
      var entry := DecodeEntry(data[pos..pos + entryLen]);
      if entry.None? {
        return None;
      }
      PrefixedStep(entries, entry.value, Unframed(data[pos + entryLen..], count - i - 1));
      entries := entries + [entry.value];
      pos := pos + entryLen;
      i := i + 1;
    }
    UnframedEnd(data[pos..]);
    if pos != |data| {
      return None;
    }
    assert entries + [] == entries;
    return Some(entries);
  }

  /** Unframed, read at a position of the buffer. */
  lemma UnframedAt(data: Bytes, pos: nat, count: nat)
    requires pos <= |data| && count > 0
    ensures Unframed(data[pos..], count) ==
            if |data| - pos < 4 then None
            else
              var from, len := pos + 4, FromLE(data[pos..pos + 4]);
              if |data| - from < len || DecodeEntry(data[from..from + len]).None? then None
              else
                var rest := Unframed(data[from + len..], count - 1);
                if rest.None? then None else Some([DecodeEntry(data[from..from + len]).value] + rest.value)
  {
    hide DecodeEntry, FromLE;
    var b := data[pos..];
    if |b| >= 4 {
      assert data[pos..pos + 4] == b[..4];
      var len := FromLE(b[..4]);
      if |b| - 4 >= len {
        assert data[pos + 4..pos + 4 + len] == b[4..4 + len];
        assert data[pos + 4 + len..] == b[4 + len..];
      }
    }
  }

  lemma UnframedEnd(b: Bytes)
    ensures Unframed(b, 0) == if b == [] then Some([]) else None
  {
  }

  function Prefixed(es: seq<LogEntry>, r: Option<seq<LogEntry>>): Option<seq<LogEntry>> {
    if r.None? then None else Some(es + r.value)
  }

  lemma PrefixedNone(r: Option<seq<LogEntry>>)
    ensures Prefixed([], r) == r
  {
    if r.Some? {
      assert [] + r.value == r.value;
    }
  }

  lemma PrefixedStep(es: seq<LogEntry>, e: LogEntry, r: Option<seq<LogEntry>>)
    ensures Prefixed(es + [e], r) == Prefixed(es, if r.None? then None else Some([e] + r.value))
  {
    if r.Some? {
      assert es + [e] + r.value == es + ([e] + r.value);
    }
  }

  lemma {:induction false} FramedFront(es: seq<LogEntry>)
    requires es != []
    ensures Framed(es) == LE(4, |EncodeEntry(es[0])|) + EncodeEntry(es[0]) + Framed(es[1..])
  {
    hide LE, EncodeEntry;
    var n := |es| - 1;
    if n > 0 {
      FramedFront(es[..n]);
      assert es[..n][1..] == es[1..][..n - 1] && es[..n][0] == es[0] && es[1..][n - 1] == es[n];
      var a, m, z := LE(4, |EncodeEntry(es[0])|) + EncodeEntry(es[0]), Framed(es[1..][..n - 1]), LE(4, |EncodeEntry(es[n])|);
      assert (a + m) + z + EncodeEntry(es[n]) == a + (m + z + EncodeEntry(es[n]));
    } else {
      assert es[..0] == [] && es[1..] == [];
    }
  }

  lemma {:induction false} UnframedInverts(es: seq<LogEntry>)
    requires forall e :: e in es ==> EntryFits(e)
    ensures Unframed(Framed(es), |es|) == Some(es)
  {
    hide LE, EncodeEntry, DecodeEntry, FromLE;
    if es != [] {
      var e, n := EncodeEntry(es[0]), |EncodeEntry(es[0])|;
      FramedFront(es);
      Widths();
      assert EntryFits(es[0]);
      LERoundTrip(4, n);
      EntryRoundTrip(es[0], []);
      assert e + [] == e;
      var b := Framed(es);
      assert b[..4] == LE(4, n) && b[4..4 + n] == e && b[4 + n..] == Framed(es[1..]);
      UnframedInverts(es[1..]);
      assert es == [es[0]] + es[1..];
    } else {
      assert Framed(es) == [];
    }
  }

  /** A record of the log. */
  datatype Record = Single(entry: LogEntry) | Batch(entries: seq<LogEntry>)

  predicate RecordFits(r: Record) {
    match r
    case Single(e) => EntryFits(e) && e.kind != ENTRY_BATCH
    case Batch(es) => |es| < U32 && forall e :: e in es ==> EntryFits(e)
  }

  function Payload(r: Record): (b: Bytes)
    ensures b != []
  {
    match r
    case Single(e) => EncodeEntry(e)
    case Batch(es) => BatchBytes(es)
  }

  function EntriesOf(r: Record): seq<LogEntry> {
    match r
    case Single(e) => [e]
    case Batch(es) => es
  }

  lemma RecordRoundTrip(r: Record)
    requires RecordFits(r)
    ensures Decoded(Payload(r)) == Some(EntriesOf(r))
  {
    hide LE, FromLE, EncodeEntry, DecodeEntry;
    match r
    case Single(e) =>
      EntryRoundTrip(e, []);
      assert EncodeEntry(e) + [] == EncodeEntry(e);
    case Batch(es) =>
      var d := BatchBytes(es);
      Widths();
      LERoundTrip(4, |es|);
      assert d[1..5] == LE(4, |es|) && d[5..] == Framed(es);
      UnframedInverts(es);
  }
}
