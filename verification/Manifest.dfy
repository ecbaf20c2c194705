// The MANIFEST: an append-only log of version edits and the version it stands for.
module Manifest {
  import opened Keys

  const MAX_LEVELS: nat := 7

  const ADD_SSTABLE: byte := 1
  const DELETE_SSTABLE: byte := 2
  const LOG_NUMBER: byte := 3
  const NEXT_FILE_ID: byte := 4
  const MAX_SEQ_NO: byte := 5

  datatype Meta = Meta(id: nat, level: int, first: Bytes, last: Bytes, size: nat)

  datatype Version = Version(levels: seq<seq<Meta>>, logNumber: nat, nextFileID: nat, maxSeqNo: nat)
  {
    ghost predicate WellFormed() {
      |levels| == MAX_LEVELS
    }
  }

  const EMPTY_VERSION := Version([[], [], [], [], [], [], []], 0, 0, 0)

  datatype Edit = Edit(kind: byte, level: int, id: nat, size: nat, first: Bytes, last: Bytes,
                       logNumber: nat, nextFileID: nat, maxSeqNo: nat, skipOverlapCheck: bool)

  /** Edits that touch a level index the level array with it. */
  predicate InRange(e: Edit) {
    e.kind == ADD_SSTABLE || e.kind == DELETE_SSTABLE ==> 0 <= e.level < MAX_LEVELS
  }

  // ---- Ordering inside a level ----

  /**
   * The three orders files are sorted in: a level below L0 by first key, L0 newest first when it
   * is read, and the inputs of a compaction by level and then by age.
   */
  datatype SortBy = FirstKey | NewestFirst | MergePriority

  predicate Ranked(o: SortBy, a: Meta, b: Meta) {
    match o
    case FirstKey => Less(a.first, b.first) || (a.first == b.first && a.id < b.id)
    case NewestFirst => a.id > b.id
    case MergePriority =>
      a.level < b.level || (a.level == b.level && if a.level == 0 then a.id > b.id else a.id < b.id)
  }

  function InsertMeta(o: SortBy, m: Meta, l: seq<Meta>): (r: seq<Meta>)
    ensures multiset(r) == multiset(l) + multiset{m}
  {
    if l == [] then [m]
    else if Ranked(o, l[0], m) then
      assert l == [l[0]] + l[1..];
      [l[0]] + InsertMeta(o, m, l[1..])
    else
      [m] + l
  }

  function SortMetas(o: SortBy, l: seq<Meta>): (r: seq<Meta>)
    ensures multiset(r) == multiset(l)
  {
    if l == [] then []
    else
      assert l == [l[0]] + l[1..];
      InsertMeta(o, l[0], SortMetas(o, l[1..]))
  }

  /** sortLevel: L0 keeps its insertion order, deeper levels are ordered by first key, then id. */
  function SortLevel(l: seq<Meta>, level: int): (r: seq<Meta>)
    ensures multiset(r) == multiset(l)
  {
    if level == 0 || |l| < 2 then l else SortMetas(FirstKey, l)
  }

  ghost predicate RankOrdered(o: SortBy, l: seq<Meta>) {
    forall i, j :: 0 <= i < j < |l| ==> !Ranked(o, l[j], l[i])
  }

  lemma {:induction false} InsertMetaOrdered(o: SortBy, m: Meta, l: seq<Meta>)
    requires RankOrdered(o, l)
    ensures RankOrdered(o, InsertMeta(o, m, l))
  {
    hide Less;
    LessIsTotalOrder();
    if l != [] && Ranked(o, l[0], m) {
      var tail := l[1..];
      InsertMetaOrdered(o, m, tail);
      var r := InsertMeta(o, m, tail);
      forall x | x in r
        ensures !Ranked(o, x, l[0])
      {
        assert x in multiset(r);
        assert x == m || x in tail;
      }
    }
  }

  lemma {:induction false} SortMetasOrdered(o: SortBy, l: seq<Meta>)
    ensures RankOrdered(o, SortMetas(o, l))
  {
    if l != [] {
      SortMetasOrdered(o, l[1..]);
      InsertMetaOrdered(o, l[0], SortMetas(o, l[1..]));
    }
  }

  ghost predicate DistinctIds(l: seq<Meta>) {
    forall i, j :: 0 <= i < j < |l| ==> l[i].id != l[j].id
  }

  lemma RankedIsTotal(o: SortBy, a: Meta, b: Meta)
    requires !Ranked(o, a, b) && !Ranked(o, b, a)
    ensures a.id == b.id
  {
    hide Less;
    LessIsTotalOrder();
  }

  lemma SameLeast(o: SortBy, a: seq<Meta>, b: seq<Meta>)
    requires a != [] && b != [] && multiset(a) == multiset(b) && DistinctIds(a)
    requires RankOrdered(o, a) && RankOrdered(o, b)
    ensures a[0] == b[0]
  {
    hide Less;
    assert a[0] in multiset(b) && b[0] in multiset(a);
    var i :| 0 <= i < |a| && a[i] == b[0];
    var j :| 0 <= j < |b| && b[j] == a[0];
    if i > 0 && j > 0 {
      RankedIsTotal(o, a[0], b[0]);
    }
  }

  lemma TailOrdered(o: SortBy, l: seq<Meta>)
    requires l != [] && RankOrdered(o, l)
    ensures RankOrdered(o, l[1..]) && multiset(l[1..]) == multiset(l) - multiset{l[0]}
    ensures DistinctIds(l) ==> DistinctIds(l[1..])
  {
    hide Ranked;
    assert l == [l[0]] + l[1..];
  }

  /** With distinct file ids each order is total: any sorting algorithm yields this one list. */
  lemma {:induction false} SortIsUnique(o: SortBy, a: seq<Meta>, b: seq<Meta>)
    requires multiset(a) == multiset(b) && DistinctIds(a)
    requires RankOrdered(o, a) && RankOrdered(o, b)
    ensures a == b
  {
    hide RankOrdered, DistinctIds;
    assert |multiset(a)| == |a| && |multiset(b)| == |b|;
    if a != [] {
      SameLeast(o, a, b);
      TailOrdered(o, a);
      TailOrdered(o, b);
      SortIsUnique(o, a[1..], b[1..]);
      assert a == [a[0]] + a[1..] && b == [b[0]] + b[1..];
    }
  }

  // ---- Applying an edit ----

  function Max(a: nat, b: nat): nat { if a > b then a else b }

  function Without(l: seq<Meta>, id: nat): seq<Meta> {
    if l == [] then []
    else if l[0].id != id then [l[0]] + Without(l[1..], id)
    else Without(l[1..], id)
  }

  lemma {:induction false} WithoutMember(l: seq<Meta>, id: nat, m: Meta)
    ensures m in Without(l, id) <==> m in l && m.id != id
  {
    if l != [] { WithoutMember(l[1..], id, m); }
  }

  /** What an edit does to the levels; only additions and deletions touch them. */
  function NewLevels(levels: seq<seq<Meta>>, e: Edit): (r: seq<seq<Meta>>)
    requires |levels| == MAX_LEVELS && InRange(e)
    ensures |r| == MAX_LEVELS
  {
    if e.kind == ADD_SSTABLE then
      levels[e.level := SortLevel(levels[e.level] + [Meta(e.id, e.level, e.first, e.last, e.size)], e.level)]
    else if e.kind == DELETE_SSTABLE then
      levels[e.level := SortLevel(Without(levels[e.level], e.id), e.level)]
    else levels
  }

  /** The marks an edit sets by its type: an added file moves the next id past its own. */
  function OwnMarks(e: Edit): Marks {
    Marks(if e.kind == LOG_NUMBER then e.logNumber else 0,
          if e.kind == ADD_SSTABLE then e.id + 1 else if e.kind == NEXT_FILE_ID then e.nextFileID else 0,
          if e.kind == MAX_SEQ_NO then e.maxSeqNo else 0)
  }

  datatype Marks = Marks(logNumber: nat, nextFileID: nat, maxSeqNo: nat)

  function Raise(v: Version, m: Marks): Version {
    Version(v.levels, Max(v.logNumber, m.logNumber), Max(v.nextFileID, m.nextFileID), Max(v.maxSeqNo, m.maxSeqNo))
  }

  /** The change Manifest.Apply makes to the version in memory. */
  function Update(v: Version, e: Edit): (r: Version)
    requires v.WellFormed() && InRange(e)
    ensures r.WellFormed()
  {
    Raise(v.(levels := NewLevels(v.levels, e)), OwnMarks(e))
  }

  function UpdateAll(v: Version, es: seq<Edit>): (r: Version)
    requires v.WellFormed() && forall e :: e in es ==> InRange(e)
    ensures r.WellFormed()
  {
    if es == [] then v else Update(UpdateAll(v, es[..|es| - 1]), es[|es| - 1])
  }

  /** The change Recover makes: the same, then three unconditional high-water marks. */
  function Replay(v: Version, e: Edit): (r: Version)
    requires v.WellFormed() && InRange(e)
    ensures r.WellFormed()
  {
    Raise(Update(v, e), Marks(e.logNumber, e.nextFileID, e.maxSeqNo))
  }

  function ReplayAll(v: Version, es: seq<Edit>): (r: Version)
    requires v.WellFormed() && forall e :: e in es ==> InRange(e)
    ensures r.WellFormed()
  {
    if es == [] then v else Replay(ReplayAll(v, es[..|es| - 1]), es[|es| - 1])
  }

  /** Auxiliary fields are zero outside their own type, as every edit of the engine has them. */
  predicate Canonical(e: Edit) {
    && (e.kind == LOG_NUMBER || e.logNumber == 0)
    && (e.kind == NEXT_FILE_ID || e.nextFileID == 0)
    && (e.kind == MAX_SEQ_NO || e.maxSeqNo == 0)
  }

  /** The highest auxiliary fields among the edits, whatever their type. */
  function HighMarks(es: seq<Edit>): Marks {
    if es == [] then Marks(0, 0, 0) else HigherMarks(HighMarks(es[..|es| - 1]), es[|es| - 1])
  }

  function HigherMarks(m: Marks, e: Edit): Marks {
    Marks(Max(m.logNumber, e.logNumber), Max(m.nextFileID, e.nextFileID), Max(m.maxSeqNo, e.maxSeqNo))
  }

  /** Replaying the log yields the live levels file for file, with the marks raised over all edits. */
  lemma {:induction false} ReplayIsLiveRaised(v: Version, es: seq<Edit>)
    requires v.WellFormed() && forall e :: e in es ==> InRange(e)
    ensures ReplayAll(v, es) == Raise(UpdateAll(v, es), HighMarks(es))
  {
    if es != [] {
      var n := |es| - 1;
      ReplayIsLiveRaised(v, es[..n]);
      ReplayStep(UpdateAll(v, es[..n]), HighMarks(es[..n]), es[n]);
    }
  }

  lemma ReplayStep(v: Version, m: Marks, e: Edit)
    requires v.WellFormed() && InRange(e)
    ensures Replay(Raise(v, m), e) == Raise(Update(v, e), HigherMarks(m, e))
  {
    hide NewLevels, OwnMarks;
  }

  /** No edit carries an auxiliary field above what the version records. */
  ghost predicate Covered(v: Version, es: seq<Edit>) {
    forall e :: e in es ==>
      e.logNumber <= v.logNumber && e.nextFileID <= v.nextFileID && e.maxSeqNo <= v.maxSeqNo
  }

  lemma {:induction false} HighMarksCovered(v: Version, es: seq<Edit>)
    ensures Covered(v, es) <==>
              var m := HighMarks(es);
              m.logNumber <= v.logNumber && m.nextFileID <= v.nextFileID && m.maxSeqNo <= v.maxSeqNo
  {
    if es != [] {
      var n := |es| - 1;
      HighMarksCovered(v, es[..n]);
      assert es == es[..n] + [es[n]];
    }
  }

  /** Recovery reproduces the live version exactly when the live marks cover every edit. */
  lemma ReplayMatchesLive(v: Version, es: seq<Edit>)
    requires v.WellFormed() && forall e :: e in es ==> InRange(e)
    ensures ReplayAll(v, es) == UpdateAll(v, es) <==> Covered(UpdateAll(v, es), es)
  {
    ReplayIsLiveRaised(v, es);
    HighMarksCovered(UpdateAll(v, es), es);
  }

  /** A log-number record that also carries a file id: only the replay takes the id over. */
  lemma ReplayDiffersExample()
    ensures var es := [Edit(LOG_NUMBER, 0, 0, 0, [], [], 1, 9, 0, false)];
            ReplayAll(EMPTY_VERSION, es).nextFileID == 9 && UpdateAll(EMPTY_VERSION, es).nextFileID == 0
  {
    var e := Edit(LOG_NUMBER, 0, 0, 0, [], [], 1, 9, 0, false);
    assert [e][..0] == [];
  }

  lemma {:induction false} UpdateAllMonotone(v: Version, es: seq<Edit>)
    requires v.WellFormed() && forall e :: e in es ==> InRange(e) && Canonical(e)
    ensures Covered(UpdateAll(v, es), es)
  {
    if es != [] {
      var n := |es| - 1;
      UpdateAllMonotone(v, es[..n]);
      assert es == es[..n] + [es[n]];
    }
  }

  /** Canonical edits are always covered, so their log replays to the live version. */
  lemma CanonicalReplay(v: Version, es: seq<Edit>)
    requires v.WellFormed() && forall e :: e in es ==> InRange(e) && Canonical(e)
    ensures ReplayAll(v, es) == UpdateAll(v, es)
  {
    UpdateAllMonotone(v, es);
    ReplayMatchesLive(v, es);
  }
}
