// The bytes of the MANIFEST: version-edit records, the writer that appends them, the reader.
module ManifestLog {
  import opened Keys
  import opened Codec
  import opened Manifest

  // ---- One record body (version_edit.go) ----

  /** Every field fits its width on disk. */
  ghost predicate Fits(e: Edit) {
    && 0 <= e.level < U32 / 2
    && e.id < U64 && e.size < U64 && |e.first| < U32 && |e.last| < U32
    && e.logNumber < U64 && e.nextFileID < U64 && e.maxSeqNo < U64
  }

  function EncodeMarks(e: Edit): Bytes {
    LE(8, e.logNumber) + LE(8, e.nextFileID)
  }

  function EncodeKeys(e: Edit, rest: Bytes): Bytes {
    LE(4, |e.first|) + (e.first + (LE(4, |e.last|) + (e.last + rest)))
  }

  function EncodeFixed(e: Edit, rest: Bytes): Bytes {
    [e.kind] + (LE(4, e.level % U32) + (LE(8, e.id) + (LE(8, e.size) + rest)))
  }

  function EncodeEdit(e: Edit): Bytes {
    EncodeFixed(e, EncodeKeys(e, EncodeMarks(e) + LE(8, e.maxSeqNo)))
  }

  /** The layout before the MaxSeqNo field was added. */
  function EncodeOldEdit(e: Edit): Bytes {
    EncodeFixed(e, EncodeKeys(e, EncodeMarks(e)))
  }

  function DecodeTail(e: Edit, d: Bytes): Option<Edit> {
    if |d| < 16 then None
    else
      var e' := e.(logNumber := FromLE(d[..8]), nextFileID := FromLE(d[8..][..8]));
      var d' := d[8..][8..];
      if d' == [] then Some(e'.(maxSeqNo := 0))
      else if |d'| < 8 then None
      else Some(e'.(maxSeqNo := FromLE(d'[..8])))
  }

  function DecodeKeys(e: Edit, d: Bytes): Option<Edit> {
    if |d| < 4 then None
    else
      var n := FromLE(d[..4]);
      var d1 := d[4..];
      if |d1| < n then None
      else
        var d2 := d1[n..];
        if |d2| < 4 then None
        else
          var m := FromLE(d2[..4]);
          var d3 := d2[4..];
          if |d3| < m then None
          else DecodeTail(e.(first := d1[..n], last := d3[..m]), d3[m..])
  }

  function DecodeEdit(data: Bytes): Option<Edit> {
    if |data| < 45 then None
    else
      var d1 := data[1..];
      var raw := FromLE(d1[..4]);
      var d2 := d1[4..];
      var d3 := d2[8..];
      var level := if raw >= U32 / 2 then raw - U32 else raw;
      DecodeKeys(Edit(data[0], level, FromLE(d2[..8]), FromLE(d3[..8]), [], [], 0, 0, 0, false), d3[8..])
  }

  lemma Consume(a: Bytes, b: Bytes)
    ensures (a + b)[..|a|] == a && (a + b)[|a|..] == b
  {
  }

  lemma DecodeTailInverts(e: Edit, m: Edit)
    requires Fits(m)
    ensures DecodeTail(e, EncodeMarks(m) + LE(8, m.maxSeqNo))
         == Some(e.(logNumber := m.logNumber, nextFileID := m.nextFileID, maxSeqNo := m.maxSeqNo))
    ensures DecodeTail(e, EncodeMarks(m))
         == Some(e.(logNumber := m.logNumber, nextFileID := m.nextFileID, maxSeqNo := 0))
  {
    Widths();
    var a, b, c := LE(8, m.logNumber), LE(8, m.nextFileID), LE(8, m.maxSeqNo);
    LERoundTrip(8, m.logNumber);
    LERoundTrip(8, m.nextFileID);
    LERoundTrip(8, m.maxSeqNo);
    assert EncodeMarks(m) + c == a + (b + c);
    Consume(a, b + c);
    Consume(b, c);
    Consume(c, []);
    Consume(a, b);
    Consume(b, []);
    assert b + [] == b && c + [] == c;
  }

  lemma DecodeKeysInverts(e: Edit, m: Edit, rest: Bytes)
    requires Fits(m)
    ensures DecodeKeys(e, EncodeKeys(m, rest)) == DecodeTail(e.(first := m.first, last := m.last), rest)
  {
    Widths();
    LERoundTrip(4, |m.first|);
    LERoundTrip(4, |m.last|);
    var c := LE(4, |m.last|) + (m.last + rest);
    Consume(LE(4, |m.first|), m.first + c);
    Consume(m.first, c);
    Consume(LE(4, |m.last|), m.last + rest);
    Consume(m.last, rest);
  }

  lemma DecodeFixedInverts(e: Edit, rest: Bytes)
    requires Fits(e) && |rest| >= 24
    ensures DecodeEdit(EncodeFixed(e, rest))
         == DecodeKeys(Edit(e.kind, e.level, e.id, e.size, [], [], 0, 0, 0, false), rest)
  {
    hide LE, FromLE, DecodeKeys;
    Widths();
    LERoundTrip(4, e.level);
    LERoundTrip(8, e.id);
    LERoundTrip(8, e.size);
    var d := LE(8, e.size) + rest;
    Consume([e.kind], LE(4, e.level) + (LE(8, e.id) + d));
    Consume(LE(4, e.level), LE(8, e.id) + d);
    Consume(LE(8, e.id), d);
    Consume(LE(8, e.size), rest);
  }

  /** Decoding inverts encoding, except for the flag that is never written. */
  lemma EditRoundTrip(e: Edit)
    requires Fits(e)
    ensures DecodeEdit(EncodeEdit(e)) == Some(e.(skipOverlapCheck := false))
    ensures DecodeEdit(EncodeOldEdit(e)) == Some(e.(skipOverlapCheck := false, maxSeqNo := 0))
  {
    var blank := Edit(e.kind, e.level, e.id, e.size, [], [], 0, 0, 0, false);
    var marks := EncodeMarks(e) + LE(8, e.maxSeqNo);
    DecodeFixedInverts(e, EncodeKeys(e, marks));
    DecodeKeysInverts(blank, e, marks);
    DecodeFixedInverts(e, EncodeKeys(e, EncodeMarks(e)));
    DecodeKeysInverts(blank, e, EncodeMarks(e));
    DecodeTailInverts(blank.(first := e.first, last := e.last), e);
  }

  // ---- The file (manifest.go) ----

  type Checksum = Bytes -> nat

  /** "MNIF", the first four bytes of a manifest whose records carry a checksum. */
  const MAGIC: Bytes := [0x4D, 0x4E, 0x49, 0x46]

  function Record(crc: Checksum, usesCRC: bool, e: Edit): Bytes {
    var body := EncodeEdit(e);
    (if usesCRC then LE(4, crc(body)) else []) + (LE(4, |body|) + body)
  }

  function Records(crc: Checksum, usesCRC: bool, es: seq<Edit>): Bytes {
    if es == [] then [] else Record(crc, usesCRC, es[0]) + Records(crc, usesCRC, es[1..])
  }

  lemma {:induction false} RecordsAppend(crc: Checksum, usesCRC: bool, es: seq<Edit>, e: Edit)
    ensures Records(crc, usesCRC, es + [e]) == Records(crc, usesCRC, es) + Record(crc, usesCRC, e)
  {
    if es == [] {
      assert es + [e] == [e];
      assert [e][1..] == [];
    } else {
      assert (es + [e])[1..] == es[1..] + [e];
      RecordsAppend(crc, usesCRC, es[1..], e);
    }
  }

  function FileOf(crc: Checksum, usesCRC: bool, es: seq<Edit>): Bytes {
    (if usesCRC then MAGIC else []) + Records(crc, usesCRC, es)
  }

  datatype Result<+T> = Ok(value: T) | Truncated | Corrupt | Panic

  /** One turn of the record loop of Recover: the edit and the bytes after its record. */
  function NextEdit(crc: Checksum, usesCRC: bool, data: Bytes): (r: Result<(Edit, Bytes)>)
    ensures r.Ok? ==> |r.value.1| < |data| && InRange(r.value.0)
  {
    var h := if usesCRC then 4 else 0;
    if |data| < h + 4 then Truncated
    else
      var n := FromLE(data[h..][..4]);
      var body := data[h..][4..];
      if |body| < n then Truncated
      else if usesCRC && crc(body[..n]) != FromLE(data[..4]) then Corrupt
      else
        match DecodeEdit(body[..n])
        case None => Corrupt
        case Some(e) => if InRange(e) then Ok((e, body[n..])) else Panic
  }

  function ReplayRecords(crc: Checksum, usesCRC: bool, data: Bytes, v: Version): (r: Result<Version>)
    requires v.WellFormed()
    ensures r.Ok? ==> r.value.WellFormed()
    decreases |data|
  {
    if data == [] then Ok(v)
    else
      match NextEdit(crc, usesCRC, data)
      case Ok((e, rest)) => ReplayRecords(crc, usesCRC, rest, Replay(v, e))
      case Truncated => Truncated
      case Corrupt => Corrupt
      case Panic => Panic
  }

  /** Recover as a function of the file's bytes: the version, and whether records carry a checksum. */
  function RecoverSpec(crc: Checksum, file: Bytes): Result<(Version, bool)> {
    if |file| < 4 then Ok((EMPTY_VERSION, false))
    else
      var usesCRC := file[..4] == MAGIC;
      match ReplayRecords(crc, usesCRC, if usesCRC then file[4..] else file, EMPTY_VERSION)
      case Ok(v) => Ok((v, usesCRC))
      case Truncated => Truncated
      case Corrupt => Corrupt
      case Panic => Panic
  }

  ghost predicate Writable(crc: Checksum, e: Edit) {
    && Fits(e) && !e.skipOverlapCheck
    && |EncodeEdit(e)| < U32 && crc(EncodeEdit(e)) < U32
  }

  lemma NextEditInverts(crc: Checksum, usesCRC: bool, e: Edit, rest: Bytes)
    requires InRange(e) && Writable(crc, e)
    ensures NextEdit(crc, usesCRC, Record(crc, usesCRC, e) + rest) == Ok((e, rest))
  {
    hide EncodeEdit, DecodeEdit, LE, FromLE;
    Widths();
    EditRoundTrip(e);
    var body := EncodeEdit(e);
    var sum := if usesCRC then LE(4, crc(body)) else [];
    LERoundTrip(4, |body|);
    LERoundTrip(4, crc(body));
    var data := Record(crc, usesCRC, e) + rest;
    assert data == sum + (LE(4, |body|) + (body + rest));
    Consume(sum, LE(4, |body|) + (body + rest));
    Consume(LE(4, |body|), body + rest);
    Consume(body, rest);
  }

  /** Reading back what was written replays exactly the edits, in order. */
  lemma {:induction false} ReplayRecordsInverts(crc: Checksum, usesCRC: bool, es: seq<Edit>, v: Version)
    requires v.WellFormed() && forall e :: e in es ==> InRange(e) && Writable(crc, e)
    ensures ReplayRecords(crc, usesCRC, Records(crc, usesCRC, es), v) == Ok(ReplayAll(v, es))
  {
    hide EncodeEdit, Replay;
    if es != [] {
      NextEditInverts(crc, usesCRC, es[0], Records(crc, usesCRC, es[1..]));
      ReplayRecordsInverts(crc, usesCRC, es[1..], Replay(v, es[0]));
      ReplayAllFront(v, es);
    }
  }

  lemma {:induction false} ReplayAllFront(v: Version, es: seq<Edit>)
    requires v.WellFormed() && es != [] && forall e :: e in es ==> InRange(e)
    ensures ReplayAll(v, es) == ReplayAll(Replay(v, es[0]), es[1..])
  {
    hide Replay;
    var n := |es| - 1;
    if n > 0 {
      ReplayAllFront(v, es[..n]);
      assert es[..n][1..] == es[1..][..n - 1];
      assert es[1..][n - 1] == es[n];
    }
  }

  /**
   * The first record of a manifest without checksums must not be taken for the magic; the magic
   * read as a length is about 1.1 GiB.
   */
  ghost predicate Distinguishable(usesCRC: bool, es: seq<Edit>) {
    usesCRC || es == [] || |EncodeEdit(es[0])| != FromLE(MAGIC)
  }

  /** The first four bytes of a manifest without checksums are the length of its first record. */
  lemma LegacyHeader(crc: Checksum, es: seq<Edit>)
    requires es != [] && Writable(crc, es[0])
    ensures |FileOf(crc, false, es)| >= 4
    ensures FileOf(crc, false, es)[..4] == MAGIC <==> !Distinguishable(false, es)
  {
    hide EncodeEdit, LE, FromLE;
    Widths();
    var body := EncodeEdit(es[0]);
    LERoundTrip(4, |body|);
    LEInverts(MAGIC);
    var rest := Records(crc, false, es[1..]);
    assert FileOf(crc, false, es) == LE(4, |body|) + (body + rest);
    Consume(LE(4, |body|), body + rest);
  }

  /**
   * Recover of the bytes written for any accepted edits gives the live version with its marks
   * raised over all edits, in either record format, if and only if the format can be told.
   */
  lemma RecoverInvertsLog(crc: Checksum, usesCRC: bool, es: seq<Edit>)
    requires forall e :: e in es ==> InRange(e) && Writable(crc, e)
    ensures RecoverSpec(crc, FileOf(crc, usesCRC, es))
            == Ok((Raise(UpdateAll(EMPTY_VERSION, es), HighMarks(es)), usesCRC))
            <==> Distinguishable(usesCRC, es)
  {
    hide RecoverSpec;
    if Distinguishable(usesCRC, es) {
      TellableRecovers(crc, usesCRC, es);
    } else {
      MagicMistaken(crc, es);
    }
  }

  /** Otherwise the file reads as one with checksums: an error, or a version said to carry them. */
  lemma MagicMistaken(crc: Checksum, es: seq<Edit>)
    requires (forall e :: e in es ==> InRange(e) && Writable(crc, e)) && !Distinguishable(false, es)
    ensures |FileOf(crc, false, es)| >= 4
    ensures RecoverSpec(crc, FileOf(crc, false, es))
            == (match ReplayRecords(crc, true, FileOf(crc, false, es)[4..], EMPTY_VERSION)
                case Ok(v) => Ok((v, true))
                case Truncated => Truncated
                case Corrupt => Corrupt
                case Panic => Panic)
  {
    hide EncodeEdit, ReplayRecords, FileOf;
    LegacyHeader(crc, es);
  }

  /** Such a file: one added table whose first key brings the record to the length of the magic. */
  lemma MagicMistakenExample(crc: Checksum)
    requires forall b: Bytes :: crc(b) < U32
    ensures var e := Edit(ADD_SSTABLE, 0, 1, 0, seq(FromLE(MAGIC) - 53, _ => 1), [], 0, 0, 0, false);
            InRange(e) && Writable(crc, e)
            && RecoverSpec(crc, FileOf(crc, false, [e]))
               != Ok((Raise(UpdateAll(EMPTY_VERSION, [e]), HighMarks([e])), false))
  {
    hide UpdateAll, HighMarks, RecoverSpec, FileOf;
    Widths();
    MagicLength();
    var e := Edit(ADD_SSTABLE, 0, 1, 0, seq(FromLE(MAGIC) - 53, _ => 1), [], 0, 0, 0, false);
    assert |EncodeEdit(e)| == FromLE(MAGIC);
    RecoverInvertsLog(crc, false, [e]);
  }

  lemma MagicLength()
    ensures FromLE(MAGIC) == 0x46494E4D
  {
    assert MAGIC[1..] == [0x4E, 0x49, 0x46] && MAGIC[2..] == [0x49, 0x46] && MAGIC[3..] == [0x46];
    assert FromLE([0x46]) == 0x46 && FromLE([0x49, 0x46]) == 0x4649 && FromLE([0x4E, 0x49, 0x46]) == 0x46494E;
  }

  lemma MistakenFormat(crc: Checksum, format: bool, es: seq<Edit>)
    requires (forall e :: e in es ==> InRange(e) && Writable(crc, e)) && !Distinguishable(format, es)
    ensures !format && (RecoverSpec(crc, FileOf(crc, format, es)).Ok? ==> RecoverSpec(crc, FileOf(crc, format, es)).value.1)
  {
    hide RecoverSpec, ReplayRecords, FileOf, Writable;
    MagicMistaken(crc, es);
  }

  lemma TellableRecovers(crc: Checksum, usesCRC: bool, es: seq<Edit>)
    requires (forall e :: e in es ==> InRange(e) && Writable(crc, e)) && Distinguishable(usesCRC, es)
    ensures RecoverSpec(crc, FileOf(crc, usesCRC, es))
         == Ok((Raise(UpdateAll(EMPTY_VERSION, es), HighMarks(es)), usesCRC))
  {
    hide EncodeEdit;
    var file := FileOf(crc, usesCRC, es);
    ReplayRecordsInverts(crc, usesCRC, es, EMPTY_VERSION);
    ReplayIsLiveRaised(EMPTY_VERSION, es);
    if usesCRC {
      Consume(MAGIC, Records(crc, usesCRC, es));
    } else if es != [] {
      LegacyHeader(crc, es);
      assert file == Records(crc, usesCRC, es);
    }
  }

  // ---- Applying and recovering, step by step ----

  predicate Overlaps(a1: Bytes, a2: Bytes, b1: Bytes, b2: Bytes) {
    !Less(b2, a1) && !Less(a2, b1)
  }

  /** The edits Apply refuses: an overlapping file on a level below L0, unless the check is skipped. */
  ghost predicate Refused(v: Version, e: Edit)
    requires v.WellFormed() && InRange(e)
  {
    && e.kind == ADD_SSTABLE && e.level >= 1 && !e.skipOverlapCheck
    && exists m :: m in v.levels[e.level] && Overlaps(m.first, m.last, e.first, e.last)
  }

  lemma UpdateRaised(v: Version, m: Marks, e: Edit)
    requires v.WellFormed() && InRange(e)
    ensures Update(Raise(v, m), e) == Raise(Update(v, e), m)
  {
    hide NewLevels, OwnMarks;
  }

  lemma RaiseTwice(v: Version, m: Marks, n: Marks)
    requires m.logNumber <= n.logNumber && m.nextFileID <= n.nextFileID && m.maxSeqNo <= n.maxSeqNo
    ensures Raise(Raise(v, m), n) == Raise(v, n)
  {
  }

  /** The file holds exactly the logged edits, and the version in memory is what they add up to. */
  ghost predicate Consistent(crc: Checksum, usesCRC: bool, log: seq<Edit>, marks: Marks,
                             file: Bytes, v: Version)
  {
    && (forall e :: e in log ==> InRange(e) && Writable(crc, e))
    && file == FileOf(crc, usesCRC, log)
    && marks.logNumber <= HighMarks(log).logNumber
    && marks.nextFileID <= HighMarks(log).nextFileID
    && marks.maxSeqNo <= HighMarks(log).maxSeqNo
    && v == Raise(UpdateAll(EMPTY_VERSION, log), marks)
  }

  lemma LogExtends(crc: Checksum, usesCRC: bool, log: seq<Edit>, marks: Marks,
                   file: Bytes, v: Version, e: Edit)
    requires Consistent(crc, usesCRC, log, marks, file, v) && v.WellFormed()
    requires InRange(e) && Writable(crc, e)
    ensures Consistent(crc, usesCRC, log + [e], marks, file + Record(crc, usesCRC, e), Update(v, e))
  {
    hide Raise, Record, Update, Writable;
    assert (log + [e])[..|log|] == log;
    RecordsAppend(crc, usesCRC, log, e);
    UpdateRaised(UpdateAll(EMPTY_VERSION, log), marks, e);
  }

  lemma FlagNotWritten(e: Edit, v: Version)
    requires v.WellFormed() && InRange(e)
    ensures EncodeEdit(e.(skipOverlapCheck := false)) == EncodeEdit(e)
    ensures Update(v, e.(skipOverlapCheck := false)) == Update(v, e)
  {
  }

  lemma CanonicalMarks(log: seq<Edit>, marks: Marks)
    requires forall e :: e in log ==> InRange(e) && Canonical(e)
    requires marks.logNumber <= HighMarks(log).logNumber && marks.nextFileID <= HighMarks(log).nextFileID
    requires marks.maxSeqNo <= HighMarks(log).maxSeqNo
    ensures Raise(UpdateAll(EMPTY_VERSION, log), marks) == Raise(UpdateAll(EMPTY_VERSION, log), HighMarks(log))
  {
    hide UpdateAll;
    UpdateAllMonotone(EMPTY_VERSION, log);
    HighMarksCovered(UpdateAll(EMPTY_VERSION, log), log);
  }

  class ManifestFile {
    const crc: Checksum
    var file: Bytes
    var current: Version
    var usesCRC: bool

    ghost var log: seq<Edit>   // every edit accepted so far
    ghost var marks: Marks     // the marks by which a recovery has raised the version

    ghost predicate Valid()
      reads this
    {
      current.WellFormed() && Consistent(crc, usesCRC, log, marks, file, current)
    }

    /** OpenManifest: a new or empty file gets the magic; one that holds edits is left as it is. */
    constructor (crc: Checksum, contents: Bytes, ghost es: seq<Edit>)
      ensures this.crc == crc && current == EMPTY_VERSION && (usesCRC <==> contents == [])
      ensures contents == [] ==> Valid() && log == []
      ensures contents != [] ==> file == contents && log == es
    {
      this.crc := crc;
      file := if contents == [] then MAGIC else contents;
      current := EMPTY_VERSION;
      usesCRC := contents == [];
      log := if contents == [] then [] else es;
      marks := Marks(0, 0, 0);
    }

    /** Recover, SetCurrent and SetFormat: how the engine takes up a manifest it finds. */
    method Reopen(ghost format: bool) returns (ok: bool)
      requires (forall e :: e in log ==> InRange(e) && Writable(crc, e)) && file == FileOf(crc, format, log)
      modifies `current, `usesCRC, `marks
      ensures Distinguishable(format, log) ==>
                ok && Valid() && usesCRC == format && current == Raise(UpdateAll(EMPTY_VERSION, log), HighMarks(log))
      ensures ok && !Distinguishable(format, log) ==> usesCRC != format
      ensures !ok ==> current == old(current) && usesCRC == old(usesCRC) && marks == old(marks)
    {
      hide UpdateAll, HighMarks, RecoverSpec, FileOf, Writable, Distinguishable;
      var r := Recover(crc, file);
      if Distinguishable(format, log) {
        TellableRecovers(crc, format, log);
      } else {
        MistakenFormat(crc, format, log);
      }
      if !r.Ok? {
        return false;
      }
      current, usesCRC := r.value.0, r.value.1;
      marks := HighMarks(log);
      return true;
    }

    /** What is on disk recovers to the version in memory, with its marks raised over the log. */
    lemma RecoversCurrent()
      requires Valid()
      ensures RecoverSpec(crc, file) == Ok((Raise(current, HighMarks(log)), usesCRC)) <==> Distinguishable(usesCRC, log)
      ensures (forall e :: e in log ==> Canonical(e)) ==>
                (RecoverSpec(crc, file) == Ok((current, usesCRC)) <==> Distinguishable(usesCRC, log))
    {
      hide Raise, UpdateAll, HighMarks, RecoverSpec, FileOf, Distinguishable;
      RecoverInvertsLog(crc, usesCRC, log);
      RaiseTwice(UpdateAll(EMPTY_VERSION, log), marks, HighMarks(log));
      if forall e :: e in log ==> Canonical(e) {
        CanonicalMarks(log, marks);
      }
    }

    method Apply(e: Edit) returns (ok: bool)
      requires Valid() && InRange(e) && Writable(crc, e.(skipOverlapCheck := false))
      modifies this
      ensures Valid() && usesCRC == old(usesCRC)
      ensures ok <==> !Refused(old(current), e)
      ensures ok ==> log == old(log) + [e.(skipOverlapCheck := false)]
      ensures ok ==> current == Update(old(current), e) && file == old(file) + Record(crc, usesCRC, e)
      ensures !ok ==> log == old(log) && current == old(current) && file == old(file)
    {
      hide Consistent, Writable, Distinguishable, EncodeEdit, Update;
      if e.kind == ADD_SSTABLE && e.level >= 1 && !e.skipOverlapCheck {
        var level := current.levels[e.level];
        for i := 0 to |level|
          invariant forall m :: m in level[..i] ==> !Overlaps(m.first, m.last, e.first, e.last)
        {
          if Overlaps(level[i].first, level[i].last, e.first, e.last) {
            return false;
          }
        }
        assert level[..|level|] == level;
      }
      ok := true;
      ghost var plain := e.(skipOverlapCheck := false);
      FlagNotWritten(e, current);
      LogExtends(crc, usesCRC, log, marks, file, current, plain);
      log := log + [plain];
      file := file + Record(crc, usesCRC, e);
      Change(e);
    }

    static method Filtered(was: seq<Meta>, id: nat) returns (kept: seq<Meta>)
      ensures kept == Without(was, id)
    {
      kept := [];
      for i := 0 to |was|
        invariant kept + Without(was[i..], id) == Without(was, id)
      {
        if was[i].id != id {
          kept := kept + [was[i]];
        }
        assert was[i..][1..] == was[i + 1..];
      }
      assert was[|was|..] == [];
    }

    /** The switch of Apply that follows a successful write. */
    method Change(e: Edit)
      requires current.WellFormed() && InRange(e)
      modifies `current
      ensures current == Update(old(current), e)
    {
      hide SortLevel, Without;
      if e.kind == ADD_SSTABLE {
        var m := Meta(e.id, e.level, e.first, e.last, e.size);
        current := current.(levels := current.levels[e.level := SortLevel(current.levels[e.level] + [m], e.level)]);
        if e.id >= current.nextFileID {
          current := current.(nextFileID := e.id + 1);
        }
      } else if e.kind == DELETE_SSTABLE {
        var kept := Filtered(current.levels[e.level], e.id);
        current := current.(levels := current.levels[e.level := SortLevel(kept, e.level)]);
      } else if e.kind == LOG_NUMBER {
        if e.logNumber > current.logNumber {
          current := current.(logNumber := e.logNumber);
        }
      } else if e.kind == NEXT_FILE_ID {
        if e.nextFileID > current.nextFileID {
          current := current.(nextFileID := e.nextFileID);
        }
      } else if e.kind == MAX_SEQ_NO {
        if e.maxSeqNo > current.maxSeqNo {
          current := current.(maxSeqNo := e.maxSeqNo);
        }
      }
    }
  }

  /** Recover: detect the format from the first four bytes, then fold the records one by one. */
  method Recover(crc: Checksum, file: Bytes) returns (r: Result<(Version, bool)>)
    ensures r == RecoverSpec(crc, file)
  {
    hide NextEdit, Replay;
    if |file| < 4 {
      return Ok((EMPTY_VERSION, false));
    }
    var usesCRC := file[..4] == MAGIC;
    var data := if usesCRC then file[4..] else file;
    var v := EMPTY_VERSION;
    ghost var all := ReplayRecords(crc, usesCRC, data, v);
    while data != []
      invariant v.WellFormed() && ReplayRecords(crc, usesCRC, data, v) == all
      decreases |data|
    {
      match NextEdit(crc, usesCRC, data) {
        case Ok((e, rest)) =>
          v := Replay(v, e);
          data := rest;
        case Truncated => return Truncated;
        case Corrupt => return Corrupt;
        case Panic => return Panic;
      }
    }
    r := Ok((v, usesCRC));
  }
}
