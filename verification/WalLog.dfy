// The log as an object: what its writer appended is what recovery returns, at every truncation.
module WalLog {
  import opened Keys
  import opened Records
  import opened Wal

  function Payloads(log: seq<Record>): (ds: seq<Bytes>)
    ensures |ds| == |log| && forall d :: d in ds ==> d != []
  {
    seq(|log|, i requires 0 <= i < |log| => Payload(log[i]))
  }

  function LandingAll(off: nat, ds: seq<Bytes>): (r: nat)
    requires off < BLOCK
    ensures r < BLOCK
    decreases |ds|
  {
    if ds == [] then off else LandingAll(Landing(off, |ds[0]|), ds[1..])
  }

  lemma {:induction false} EmitAllAppend(crc: Checksum, off: nat, ds: seq<Bytes>, d: Bytes)
    requires off < BLOCK
    ensures EmitAll(crc, off, ds + [d]) == EmitAll(crc, off, ds) + Emit(crc, LandingAll(off, ds), d, true)
    ensures LandingAll(off, ds + [d]) == Landing(LandingAll(off, ds), |d|)
    decreases |ds|
  {
    hide Emit, Landing;
    if ds == [] {
      assert ds + [d] == [d] && [d][1..] == [];
    } else {
      var next := Landing(off, |ds[0]|);
      EmitAllAppend(crc, next, ds[1..], d);
      assert (ds + [d])[1..] == ds[1..] + [d] && (ds + [d])[0] == ds[0];
    }
  }

  lemma {:induction false} LandingAllIsLength(crc: Checksum, off: nat, ds: seq<Bytes>) returns (q: nat)
    requires off < BLOCK
    ensures off + |EmitAll(crc, off, ds)| == q * BLOCK + LandingAll(off, ds)
    ensures (off + |EmitAll(crc, off, ds)|) % BLOCK == LandingAll(off, ds)
    decreases |ds|
  {
    hide Emit, Landing;
    q := 0;
    if ds != [] {
      var a := LandingIsLength(crc, off, ds[0], true);
      var b := LandingAllIsLength(crc, Landing(off, |ds[0]|), ds[1..]);
      q := a + b;
    }
    BlocksApart(q, LandingAll(off, ds));
  }

  class WAL {
    const crc: Checksum
    var file: Bytes
    var blockPos: nat
    var seqNo: nat
    ghost var log: seq<Record>

    ghost predicate Valid()
      reads `file, `blockPos, `log
    {
      blockPos == LandingAll(0, Payloads(log)) && file == EmitAll(crc, 0, Payloads(log))
    }

    /** OpenWAL, on a new file or on one a writer closed: it goes on at the offset the length implies. */
    constructor (crc: Checksum, contents: Bytes, ghost log: seq<Record>)
      ensures this.crc == crc && file == contents && seqNo == 0 && this.log == log
      ensures contents == EmitAll(crc, 0, Payloads(log)) ==> Valid()
    {
      hide EmitAll, LandingAll, Payloads;
      this.crc := crc;
      file := contents;
      blockPos := |contents| % BLOCK;
      seqNo := 0;
      this.log := log;
      ghost var _ := LandingAllIsLength(crc, 0, Payloads(log));
    }

    /** writeRecord: fragments of one payload, each in one block, with padding where a block ends. */
    method WriteRecord(data: Bytes)
      requires blockPos < BLOCK
      modifies `file, `blockPos
      ensures blockPos == Landing(old(blockPos), |data|)
      ensures file == old(file) + Emit(crc, old(blockPos), data, true)
    {
      hide Emit, Landing, Fragment;
      var remaining: nat, isFirst := |data|, true;
      ghost var all := Emit(crc, blockPos, data, true);
      ghost var landing := Landing(blockPos, |data|);
      while remaining > 0
        invariant remaining <= |data| && blockPos < BLOCK
        invariant isFirst <==> remaining == |data|
        invariant file + Emit(crc, blockPos, data[|data| - remaining..], isFirst) == old(file) + all
        invariant Landing(blockPos, remaining) == landing
      {
        ghost var off, was := blockPos, file;
        ghost var tail := data[|data| - remaining..];
        var avail: int := BLOCK - blockPos - HEADER;
        if avail < 0 {
          file := file + Zeros(BLOCK - blockPos);
          blockPos := 0;
          avail := BLOCK - HEADER;
        }
        if avail == 0 {
          file := file + Zeros(HEADER);
          blockPos := 0;
          avail := BLOCK - HEADER;
        }
        assert file == was + Zeros(Pad(off));
        var chunkLen := if remaining > avail then avail else remaining;
        assert chunkLen == Chunk(off, remaining) && blockPos == Start(off);
        var chunk := data[|data| - remaining..|data| - remaining + chunkLen];
        assert chunk == tail[..chunkLen];
        var rType := FragmentType(isFirst, chunkLen == remaining);
        file := file + Fragment(crc, rType, chunk);
        EmitStep(crc, was, off, tail, isFirst);
        LandingStep(off, remaining);
        blockPos := blockPos + HEADER + chunkLen;
        if blockPos >= BLOCK {
          blockPos := 0;
        }
        remaining := remaining - chunkLen;
        isFirst := false;
        assert tail[chunkLen..] == data[|data| - remaining..];
      }
      assert data[|data|..] == [];
      EmitNothing(crc, blockPos);
    }

    method Write(ghost r: Record, data: Bytes)
      requires Valid() && data == Payload(r)
      modifies `file, `blockPos, `log
      ensures Valid() && log == old(log) + [r]
    {
      hide Emit, Landing, EmitAll, LandingAll, Payload;
      WriteRecord(data);
      EmitAllAppend(crc, 0, Payloads(log), data);
      log := log + [r];
      assert Payloads(log) == Payloads(old(log)) + [data];
    }

    /** Append: the log numbers the entry itself. */
    method Append(entry: LogEntry)
      requires Valid()
      modifies this
      ensures Valid() && seqNo == old(seqNo) + 1
      ensures log == old(log) + [Single(entry.(seqno := seqNo))]
    {
      seqNo := seqNo + 1;
      var numbered := entry.(seqno := seqNo);
      Write(Single(numbered), EncodeEntry(numbered));
    }

    method AppendWithSeqNo(entry: LogEntry)
      requires Valid()
      modifies this
      ensures Valid() && log == old(log) + [Single(entry)]
      ensures seqNo == if entry.seqno > old(seqNo) then entry.seqno else old(seqNo)
    {
      Write(Single(entry), EncodeEntry(entry));
      if entry.seqno > seqNo {
        seqNo := entry.seqno;
      }
    }

    /** AppendBatch: one record for the whole batch, none for an empty one. */
    method AppendBatch(entries: seq<LogEntry>)
      requires Valid()
      modifies this
      ensures Valid() && log == old(log) + if entries == [] then [] else [Batch(entries)]
      ensures old(seqNo) <= seqNo && forall e :: e in entries ==> e.seqno <= seqNo
      ensures seqNo == old(seqNo) || exists e :: e in entries && e.seqno == seqNo
    {
      hide Valid, BatchBytes;
      if |entries| == 0 {
        return;
      }
      var payload := EncodeBatch(entries);
      Write(Batch(entries), payload);
      for i := 0 to |entries|
        modifies `seqNo
        invariant old(seqNo) <= seqNo && forall j :: 0 <= j < i ==> entries[j].seqno <= seqNo
        invariant seqNo == old(seqNo) || exists e :: e in entries && e.seqno == seqNo
      {
        if entries[i].seqno > seqNo {
          seqNo := entries[i].seqno;
          assert entries[i] in entries;
        }
      }
    }
  }

  // ---- Recovery ----

  /** The entries of the payloads that decode; a payload that does not is passed over. */
  function DecodedAll(ds: seq<Bytes>): seq<LogEntry> {
    if ds == [] then []
    else
      var n := |ds| - 1;
      DecodedAll(ds[..n]) + (match Decoded(ds[n]) case None => [] case Some(es) => es)
  }

  function Recovered(crc: Checksum, file: Bytes): seq<LogEntry> {
    DecodedAll(Read(crc, file, 0, []))
  }

  method RecoverWAL(crc: Checksum, file: Bytes) returns (entries: seq<LogEntry>)
    ensures entries == Recovered(crc, file)
  {
    hide Decoded, Read;
    var payloads := Reassemble(crc, file);
    entries := [];
    for i := 0 to |payloads|
      invariant entries == DecodedAll(payloads[..i])
    {
      assert payloads[..i + 1][..i] == payloads[..i];
      var decoded := DecodeEntries(payloads[i]);
      if decoded.Some? {
        entries := entries + decoded.value;
      }
    }
    assert payloads[..|payloads|] == payloads;
  }

  /** The entries of the records of a log, in order. */
  function EntriesOfAll(log: seq<Record>): seq<LogEntry> {
    if log == [] then [] else EntriesOfAll(log[..|log| - 1]) + EntriesOf(log[|log| - 1])
  }

  lemma {:induction false} PayloadsDecode(log: seq<Record>)
    requires forall r :: r in log ==> RecordFits(r)
    ensures DecodedAll(Payloads(log)) == EntriesOfAll(log)
  {
    hide Decoded, Payload, RecordFits;
    if log != [] {
      var n := |log| - 1;
      assert log[n] in log;
      RecordRoundTrip(log[n]);
      assert Payloads(log)[..n] == Payloads(log[..n]);
      PayloadsDecode(log[..n]);
    }
  }

  /**
   * A log cut at any byte gives back exactly the entries of the records it holds in full:
   * every record before the cut, and no part of the one the cut goes through.
   */
  lemma RecoverPrefix(crc: Checksum, log: seq<Record>, n: nat)
    requires Fits32(crc) && (forall r :: r in log ==> RecordFits(r)) && n <= |EmitAll(crc, 0, Payloads(log))|
    ensures Recovered(crc, EmitAll(crc, 0, Payloads(log))[..n]) == EntriesOfAll(log[..Whole(crc, 0, Payloads(log), n)])
  {
    hide Read, EmitAll, Whole, DecodedAll, EntriesOfAll, Payload, RecordFits;
    ReadPrefix(crc, 0, Payloads(log), n, []);
    var k := Whole(crc, 0, Payloads(log), n);
    assert Payloads(log)[..k] == Payloads(log[..k]);
    PayloadsDecode(log[..k]);
  }

  /** The whole log gives back every entry. */
  lemma RecoverInverts(crc: Checksum, log: seq<Record>)
    requires Fits32(crc) && forall r :: r in log ==> RecordFits(r)
    ensures Recovered(crc, EmitAll(crc, 0, Payloads(log))) == EntriesOfAll(log)
  {
    hide Read, EmitAll, Whole, DecodedAll, EntriesOfAll, Payload, RecordFits;
    var ds := Payloads(log);
    var file := EmitAll(crc, 0, ds);
    assert file[..|file|] == file;
    RecoverPrefix(crc, log, |file|);
    WholeIsGreatest(crc, 0, ds, |file|);
    var k := Whole(crc, 0, ds, |file|);
    if k < |log| {
      MoreIsLonger(crc, 0, ds, k + 1);
    }
    assert log[..|log|] == log;
  }

  lemma {:induction false} MoreIsLonger(crc: Checksum, off: nat, ds: seq<Bytes>, k: nat)
    requires off < BLOCK && k <= |ds|
    ensures |EmitAll(crc, off, ds[..k])| <= |EmitAll(crc, off, ds)|
    decreases k
  {
    hide Emit, Landing;
    if k > 0 {
      MoreIsLonger(crc, Landing(off, |ds[0]|), ds[1..], k - 1);
      assert ds[..k][1..] == ds[1..][..k - 1] && ds[..k][0] == ds[0];
    }
  }
}
