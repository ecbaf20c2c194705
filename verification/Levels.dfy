// Levels of table files: what a version keeps true of them, and how a read walks them.
module Levels {
  import opened Keys
  import opened Merge
  import opened Manifest

  /** The table files on disk, by file id. */
  type Files = map<nat, seq<Entry>>

  ghost predicate OnDisk(l: seq<Meta>, fs: Files) {
    forall m :: m in l ==> m.id in fs
  }

  function Contents(l: seq<Meta>, fs: Files): (cs: seq<seq<Entry>>)
    requires OnDisk(l, fs)
    ensures |cs| == |l| && forall i :: 0 <= i < |l| ==> cs[i] == fs[l[i].id]
  {
    seq(|l|, i requires 0 <= i < |l| => fs[l[i].id])
  }

  /** A file as SSTableBuilder leaves it, with the metadata the manifest records for it. */
  ghost predicate TableOk(m: Meta, fs: Files) {
    && m.id in fs && fs[m.id] != [] && Sorted(fs[m.id])
    && m.first == fs[m.id][0].key && m.last == fs[m.id][|fs[m.id]| - 1].key
    && forall e :: e in fs[m.id] ==> e.key != []
  }

  predicate Covers(m: Meta, k: Bytes) {
    !Less(k, m.first) && !Less(m.last, k)
  }

  lemma KeysCovered(m: Meta, fs: Files, e: Entry)
    requires TableOk(m, fs) && e in fs[m.id]
    ensures Covers(m, e.key)
  {
    hide Less;
    LessIsTotalOrder();
    var es := fs[m.id];
    var i :| 0 <= i < |es| && es[i] == e;
    assert i == 0 || Before(es[0], es[i]);
    assert i == |es| - 1 || Before(es[i], es[|es| - 1]);
  }

  lemma FirstNotAboveLast(m: Meta, fs: Files)
    requires TableOk(m, fs)
    ensures !Less(m.last, m.first)
  {
    assert fs[m.id][0] in fs[m.id];
    KeysCovered(m, fs, fs[m.id][0]);
  }

  ghost predicate Spaced(l: seq<Meta>) {
    forall i, j :: 0 <= i < j < |l| ==> Less(l[i].last, l[j].first)
  }

  ghost predicate TablesOk(l: seq<Meta>, fs: Files) {
    forall m :: m in l ==> TableOk(m, fs)
  }

  /** A level below L0: one version per key in each file, and the files' ranges apart and in order. */
  ghost predicate LevelOk(l: seq<Meta>, fs: Files) {
    TablesOk(l, fs) && (forall m :: m in l ==> Ascending(fs[m.id])) && Spaced(l)
  }

  /** The last file of a level that starts at or before k, unless it ends before k. */
  function Candidate(l: seq<Meta>, k: Bytes): Option<Meta> {
    if l == [] then None
    else
      var m := l[|l| - 1];
      if Less(k, m.first) then Candidate(l[..|l| - 1], k)
      else if |m.last| > 0 && Less(m.last, k) then None
      else Some(m)
  }

  lemma {:induction false} CandidateIs(l: seq<Meta>, fs: Files, k: Bytes, i: nat)
    requires TablesOk(l, fs) && Spaced(l) && i < |l| && Covers(l[i], k)
    ensures Candidate(l, k) == Some(l[i])
    ensures forall j :: 0 <= j < |l| && j != i ==> !Covers(l[j], k)
  {
    hide Less;
    LessIsTotalOrder();
    forall j | 0 <= j < |l| && j != i
      ensures !Covers(l[j], k)
    {
      FirstNotAboveLast(l[i], fs);
    }
    if i < |l| - 1 {
      CandidateIs(l[..|l| - 1], fs, k, i);
    }
  }

  lemma {:induction false} CandidateMember(l: seq<Meta>, fs: Files, k: Bytes)
    requires TablesOk(l, fs)
    ensures Candidate(l, k).Some? ==> Candidate(l, k).value in l && Covers(Candidate(l, k).value, k)
  {
    hide Less;
    if l != [] {
      var m := l[|l| - 1];
      assert m in l && fs[m.id][|fs[m.id]| - 1] in fs[m.id];
      CandidateMember(l[..|l| - 1], fs, k);
    }
  }

  lemma {:induction false} CandidateAt(l: seq<Meta>, k: Bytes, i: nat)
    requires i <= |l| && (i > 0 ==> !Less(k, l[i - 1].first)) && forall h :: i <= h < |l| ==> Less(k, l[h].first)
    ensures Candidate(l, k)
         == if i == 0 || (|l[i - 1].last| > 0 && Less(l[i - 1].last, k)) then None else Some(l[i - 1])
  {
    hide Less;
    if i < |l| { CandidateAt(l[..|l| - 1], k, i); }
  }

  /** findLevelCandidate: binary search by first key, then one comparison with the last key. */
  method FindLevelCandidate(l: seq<Meta>, k: Bytes) returns (c: Option<Meta>)
    requires RankOrdered(FirstKey, l)
    ensures c == Candidate(l, k)
  {
    hide Less;
    LessIsTotalOrder();
    if |l| == 0 {
      return None;
    }
    var i, j := 0, |l|;
    while i < j
      invariant 0 <= i <= j <= |l|
      invariant forall h :: 0 <= h < i ==> !Less(k, l[h].first)
      invariant forall h :: j <= h < |l| ==> Less(k, l[h].first)
    {
      var mid := (i + j) / 2;
      if Less(k, l[mid].first) {
        j := mid;
      } else {
        i := mid + 1;
      }
    }
    CandidateAt(l, k, i);
    if i == 0 {
      return None;
    }
    var candidate := l[i - 1];
    if |candidate.last| > 0 && Less(candidate.last, k) {
      return None;
    }
    return Some(candidate);
  }

  /** On a level, asking the one candidate is asking every file. */
  lemma CandidateSuffices(l: seq<Meta>, fs: Files, k: Bytes)
    requires LevelOk(l, fs)
    ensures FirstHit(Contents(l, fs), k)
         == (match Candidate(l, k) case None => None case Some(m) => if m.id in fs then Find(fs[m.id], k) else None)
  {
    hide Less;
    var cs := Contents(l, fs);
    FirstHitIndex(cs, k);
    CandidateMember(l, fs, k);
    if FirstHit(cs, k).Some? {
      var j :| 0 <= j < |cs| && Find(cs[j], k) == FirstHit(cs, k);
      FindIndex(cs[j], k);
      KeysCovered(l[j], fs, FirstHit(cs, k).value);
      CandidateIs(l, fs, k, j);
    } else if Candidate(l, k).Some? {
      var j :| 0 <= j < |l| && l[j] == Candidate(l, k).value;
      assert Find(cs[j], k).None?;
    }
  }
}
