// What a read finds between two manifest edits of a compaction: the output level overlaps itself
// there, and the files of L0 go newest first.
module PrefixRead {
  import opened Keys
  import opened Merge
  import opened Manifest
  import opened Levels
  import opened Compaction
  import opened Commit
  import opened Meaning
  import opened BottomPrefix
  import opened Engine
  import opened EngineInv
  import opened EngineSteps
  import opened EngineRead
  import opened EngineRun

  ghost predicate HasKey(l: seq<Meta>, fs: Files, k: Bytes) {
    exists m :: m in l && m.id in fs && Find(fs[m.id], k).Some?
  }

  /** A file listed after f starts at or before k, so the search for k passes f by. */
  ghost predicate Shadowed(l: seq<Meta>, f: Meta, k: Bytes) {
    exists g :: g in l && Ranked(FirstKey, f, g) && !Less(k, g.first)
  }

  ghost predicate AllShadowed(l: seq<Meta>, fs: Files, e: Entry) {
    forall f :: f in l && f.id in fs && e in fs[f.id] ==> Shadowed(l, f, e.key)
  }

  /** A file the search lands on has some version of k. */
  ghost predicate Answered(l: seq<Meta>, fs: Files, k: Bytes) {
    exists g :: g in l && g.id in fs && Find(fs[g.id], k).Some? && !Shadowed(l, g, k)
  }

  ghost predicate InLevels(v: Version, fs: Files, lo: nat, hi: nat, e: Entry)
    requires v.WellFormed()
  {
    exists i :: lo <= i < hi && i < MAX_LEVELS && InSome(v.levels[i], fs, e)
  }

  /**
   * The newest version of k is at level out and not above it, and the read does not get to it:
   * an older one is in L0, or the search of the level passes its files by.
   */
  ghost predicate Missed(w: Version, fs: Files, out: nat, k: Bytes)
    requires w.WellFormed() && out < MAX_LEVELS
  {
    exists e :: NewestHeld(w, fs, k, e) && Passed(w, fs, out, e)
  }

  ghost predicate Passed(w: Version, fs: Files, out: nat, e: Entry)
    requires w.WellFormed() && out < MAX_LEVELS
  {
    && !InLevels(w, fs, 0, out, e) && InSome(w.levels[out], fs, e)
    && (HasKey(w.levels[0], fs, e.key)
        || (AllShadowed(w.levels[out], fs, e)
            && (Answered(w.levels[out], fs, e.key) || !InLevels(w, fs, out + 1, MAX_LEVELS, e))))
  }

  /** r is the newest version of k in the files, or None when they have none. */
  ghost predicate Right(v: Version, fs: Files, k: Bytes, r: Option<Entry>)
    requires v.WellFormed()
  {
    match r
    case None => forall x :: Held(v, fs, x) ==> x.key != k
    case Some(e) => NewestHeld(v, fs, k, e)
  }

  // ---- One level ----

  /** The search lands on f exactly when f covers k and is not shadowed. */
  lemma CandidateLast(l: seq<Meta>, fs: Files, k: Bytes, f: Meta)
    requires TablesOk(l, fs) && RankOrdered(FirstKey, l) && DistinctIds(l) && f in l
    ensures Candidate(l, k) == Some(f) <==> Covers(f, k) && !Shadowed(l, f, k)
  {
    hide Less;
    LessIsTotalOrder();
    CandidateMember(l, fs, k);
    var i := Stop(l, k);
    CandidateAt(l, k, i);
    assert fs[f.id][|fs[f.id]| - 1] in fs[f.id];
    var p :| 0 <= p < |l| && l[p] == f;
    if Candidate(l, k) == Some(f) {
      assert i > 0 && l[i - 1] == f;
      LastUnshadowed(l, k, i);
    } else if Covers(f, k) {
      assert p < i;
      if p < i - 1 {
        assert l[i - 1] in l && !Ranked(FirstKey, l[i - 1], l[p]) && l[i - 1].id != l[p].id;
      }
    }
  }

  lemma LastUnshadowed(l: seq<Meta>, k: Bytes, i: nat)
    requires RankOrdered(FirstKey, l) && DistinctIds(l) && 0 < i <= |l|
    requires forall h :: i <= h < |l| ==> Less(k, l[h].first)
    ensures !Shadowed(l, l[i - 1], k)
  {
    hide Ranked, RankOrdered;
    forall g | g in l && Ranked(FirstKey, l[i - 1], g)
      ensures Less(k, g.first)
    {
      var q :| 0 <= q < |l| && l[q] == g;
      RankedAfter(l, i - 1, q);
    }
  }

  lemma RankedAfter(l: seq<Meta>, p: nat, q: nat)
    requires RankOrdered(FirstKey, l) && p < |l| && q < |l| && Ranked(FirstKey, l[p], l[q])
    ensures p < q
  {
    hide Less;
    LessIsTotalOrder();
  }

  /** Where the files that start at or before k stop. */
  lemma Stop(l: seq<Meta>, k: Bytes) returns (i: nat)
    requires RankOrdered(FirstKey, l)
    ensures i <= |l| && forall h :: 0 <= h < |l| ==> (h < i <==> !Less(k, l[h].first))
  {
    hide Less;
    LessIsTotalOrder();
    i := 0;
    while i < |l| && !Less(k, l[i].first)
      invariant i <= |l| && forall h :: 0 <= h < i ==> !Less(k, l[h].first)
    {
      i := i + 1;
    }
    forall h | i <= h < |l|
      ensures Less(k, l[h].first)
    {
      assert h == i || !Ranked(FirstKey, l[h], l[i]);
    }
  }

  /** What one level of any version answers. */
  lemma LevelAnswers(w: Version, fs: Files, readSeq: nat, i: nat, k: Bytes)
    requires Tidy(w) && 1 <= i < MAX_LEVELS && TablesOk(w.levels[i], fs) && Visible(w, fs, readSeq)
    ensures var r := LevelLookup(w.levels[i], fs, k, readSeq);
            && (r.Some? <==> Answered(w.levels[i], fs, k))
            && (r.Some? ==> exists f :: f in w.levels[i] && f.id in fs && Find(fs[f.id], k) == r
                                        && !Shadowed(w.levels[i], f, k))
            && forall f :: f in w.levels[i] && f.id in fs && Find(fs[f.id], k).Some? && !Shadowed(w.levels[i], f, k)
                           ==> r == Find(fs[f.id], k)
  {
    hide Less, Held, Find, FindAt, Candidate, Shadowed, Ranked, TableOk, Visible;
    var l := w.levels[i];
    forall f | f in l
      ensures Candidate(l, k) == Some(f) <==> Covers(f, k) && !Shadowed(l, f, k)
      ensures f.id in fs && (Find(fs[f.id], k).Some? ==> Covers(f, k))
      ensures FindAt(fs[f.id], k, readSeq) == Find(fs[f.id], k)
    {
      CandidateLast(l, fs, k, f);
      TableHasFile(f, fs);
      if Find(fs[f.id], k).Some? { FindCovered(f, fs, k); }
      VisibleFile(w, fs, readSeq, i, f, k);
    }
    CandidateMember(l, fs, k);
  }

  lemma TableHasFile(m: Meta, fs: Files)
    requires TableOk(m, fs)
    ensures m.id in fs && Sorted(fs[m.id])
  {
  }

  // ---- The levels between two edits ----

  /** What holds of a version in the middle of a commit. */
  ghost predicate Midway(v: Version, w: Version, fs: Files, job: Job, maxLevel: nat)
    requires Picks(v, job, maxLevel)
  {
    && w.WellFormed() && Tidy(w) && Between(v, w, job, maxLevel)
    && forall i :: 0 <= i < MAX_LEVELS ==> TablesOk(w.levels[i], fs)
  }

  lemma BetweenOrigin(v: Version, w: Version, job: Job, maxLevel: nat, i: nat, x: Meta)
    requires Picks(v, job, maxLevel) && w.WellFormed() && Between(v, w, job, maxLevel) && i < MAX_LEVELS && x in w.levels[i]
    ensures x in v.levels[i] || (i == job.level + 1 && x in job.outs)
  {
    hide Inputs;
  }

  /** A file listed above another has the newer version, but for L0 above the outputs of its own compaction. */
  lemma MidwayPair(v: Version, w: Version, fs: Files, job: Job, maxLevel: nat,
                   i: nat, a: Meta, j: nat, b: Meta, k: Bytes)
    requires VersionOk(v, fs, maxLevel) && JobOk(v, fs, job, maxLevel) && FileLayered(v, fs)
    requires Picks(v, job, maxLevel) && w.WellFormed() && Between(v, w, job, maxLevel)
    requires i < j < MAX_LEVELS && a in w.levels[i] && b in w.levels[j] && a.id in fs && b.id in fs
    requires i > 0 || j != job.level + 1 || job.level > 0
    requires Find(fs[a.id], k).Some? && Find(fs[b.id], k).Some?
    ensures Find(fs[a.id], k).value.seqno >= Find(fs[b.id], k).value.seqno
  {
    hide VersionOk, JobOk, Inputs, FileLayered, Between, Find;
    BetweenOrigin(v, w, job, maxLevel, i, a);
    BetweenOrigin(v, w, job, maxLevel, j, b);
    if a in v.levels[i] && b in v.levels[j] {
      LayeredPair(v, fs, i, a, j, b, k);
    } else if b in v.levels[j] {
      var h, x := OutputHit(v, fs, job, maxLevel, a, k);
      LayeredPair(v, fs, h, x, j, b, k);
    } else {
      var h, x := OutputHit(v, fs, job, maxLevel, b, k);
      if i < h {
        LayeredPair(v, fs, i, a, h, x, k);
      } else {
        OneCovers(v, fs, maxLevel, i, a, x, k);
      }
    }
  }

  lemma OneCovers(v: Version, fs: Files, maxLevel: nat, i: nat, a: Meta, b: Meta, k: Bytes)
    requires VersionOk(v, fs, maxLevel) && 1 <= i < MAX_LEVELS && a in v.levels[i] && b in v.levels[i]
    requires a.id in fs && b.id in fs && Find(fs[a.id], k).Some? && Find(fs[b.id], k).Some?
    ensures a == b
  {
    hide Less, Find, AscendingIds, DistinctIds, RankOrdered;
    assert LevelOk(v.levels[i], fs);
    FindCovered(a, fs, k);
    FindCovered(b, fs, k);
    BothCover(v.levels[i], a, b, k);
  }

  /** Away from the output level no file that has k is shadowed. */
  lemma NotShadowed(v: Version, w: Version, fs: Files, job: Job, maxLevel: nat, i: nat, f: Meta, k: Bytes)
    requires VersionOk(v, fs, maxLevel) && Picks(v, job, maxLevel) && Midway(v, w, fs, job, maxLevel)
    requires 1 <= i < MAX_LEVELS && i != job.level + 1 && f in w.levels[i] && f.id in fs && Find(fs[f.id], k).Some?
    ensures !Shadowed(w.levels[i], f, k)
  {
    hide Less, Find, Between, AscendingIds, DistinctIds, RankOrdered, Inputs;
    LessIsTotalOrder();
    BetweenOrigin(v, w, job, maxLevel, i, f);
    FindCovered(f, fs, k);
    forall g | g in w.levels[i] && Ranked(FirstKey, f, g)
      ensures Less(k, g.first)
    {
      BetweenOrigin(v, w, job, maxLevel, i, g);
      assert LevelOk(v.levels[i], fs);
      SpacedApart(v.levels[i], f, g);
      FirstNotAboveLast(g, fs);
    }
  }

  // ---- The newest version ----

  lemma HasKeyOf(l: seq<Meta>, fs: Files, e: Entry)
    requires TablesOk(l, fs) && InSome(l, fs, e)
    ensures HasKey(l, fs, e.key)
  {
    var m :| m in l && m.id in fs && e in fs[m.id];
    FindIn(fs[m.id], e.key, e);
  }

  /** A listed file whose version of k is not older than the newest has the newest. */
  lemma HasNewest(w: Version, fs: Files, k: Bytes, e: Entry, i: nat, f: Meta)
    requires w.WellFormed() && NewestHeld(w, fs, k, e) && HeldCoherent(w, fs)
    requires i < MAX_LEVELS && f in w.levels[i] && TableOk(f, fs)
    requires Find(fs[f.id], k).Some? && Find(fs[f.id], k).value.seqno >= e.seqno
    ensures Find(fs[f.id], k) == Some(e) && e in fs[f.id] && InSome(w.levels[i], fs, e)
  {
    hide Held, TableOk;
    FindCovered(f, fs, k);
    TableHasFile(f, fs);
    HeldBy(w, fs, i, f, Find(fs[f.id], k).value);
  }

  lemma HolderHas(w: Version, fs: Files, k: Bytes, e: Entry, i: nat, f: Meta)
    requires w.WellFormed() && NewestHeld(w, fs, k, e) && HeldCoherent(w, fs)
    requires i < MAX_LEVELS && f in w.levels[i] && TableOk(f, fs) && e in fs[f.id]
    ensures Find(fs[f.id], k) == Some(e)
  {
    hide Held, HeldCoherent, Find;
    FindIn(fs[f.id], k, e);
    HasNewest(w, fs, k, e, i, f);
  }

  lemma Holder(w: Version, fs: Files, k: Bytes, e: Entry) returns (j: nat, b: Meta)
    requires w.WellFormed() && NewestHeld(w, fs, k, e)
    ensures j < MAX_LEVELS && b in w.levels[j] && b.id in fs && e in fs[b.id] && InSome(w.levels[j], fs, e)
  {
    j, b :| 0 <= j < MAX_LEVELS && b in w.levels[j] && b.id in fs && e in fs[b.id];
  }

  // ---- Levels away from the outputs ----

  lemma PlainLevel(v: Version, w: Version, fs: Files, job: Job, maxLevel: nat, readSeq: nat, i: nat, k: Bytes)
    requires VersionOk(v, fs, maxLevel) && Picks(v, job, maxLevel) && Midway(v, w, fs, job, maxLevel)
    requires Visible(w, fs, readSeq) && 1 <= i < MAX_LEVELS && i != job.level + 1
    ensures LevelLookup(w.levels[i], fs, k, readSeq).Some? <==> HasKey(w.levels[i], fs, k)
    ensures forall f :: f in w.levels[i] && f.id in fs && Find(fs[f.id], k).Some?
                        ==> LevelLookup(w.levels[i], fs, k, readSeq) == Find(fs[f.id], k)
  {
    hide VersionOk, Find, Shadowed, Between, LevelLookup, Visible, Ranked;
    LevelAnswers(w, fs, readSeq, i, k);
    forall f | f in w.levels[i] && f.id in fs && Find(fs[f.id], k).Some?
      ensures !Shadowed(w.levels[i], f, k)
    {
      NotShadowed(v, w, fs, job, maxLevel, i, f, k);
    }
  }

  /** Below the outputs the read finds the newest version there is from there on. */
  lemma {:induction false} BelowIsBest(v: Version, w: Version, fs: Files, job: Job, maxLevel: nat,
                                       readSeq: nat, i: nat, k: Bytes, e: Entry)
    requires VersionOk(v, fs, maxLevel) && JobOk(v, fs, job, maxLevel) && FileLayered(v, fs)
    requires Picks(v, job, maxLevel) && Midway(v, w, fs, job, maxLevel) && AllOnDisk(w, fs)
    requires Visible(w, fs, readSeq) && HeldCoherent(w, fs) && NewestHeld(w, fs, k, e)
    requires job.level + 1 < i <= MAX_LEVELS
    ensures DeepLookup(w, fs, i, k, readSeq) == Some(e) <==> InLevels(w, fs, i, MAX_LEVELS, e)
    decreases MAX_LEVELS - i
  {
    hide VersionOk, JobOk, FileLayered, Find, Between, LevelLookup, Visible, NewestHeld, HeldCoherent, Tidy, InSome;
    if i < MAX_LEVELS {
      PlainLevel(v, w, fs, job, maxLevel, readSeq, i, k);
      var l := w.levels[i];
      if HasKey(l, fs, k) {
        var f :| f in l && f.id in fs && Find(fs[f.id], k).Some?;
        FirstHasNewest(v, w, fs, job, maxLevel, i, f, k, e);
      } else {
        BelowIsBest(v, w, fs, job, maxLevel, readSeq, i + 1, k, e);
        NewestIsHeld(w, fs, k, e);
        NotThere(l, fs, k, e);
      }
    }
  }

  lemma NotThere(l: seq<Meta>, fs: Files, k: Bytes, e: Entry)
    requires TablesOk(l, fs) && !HasKey(l, fs, k) && e.key == k
    ensures !InSome(l, fs, e)
  {
    hide HasKey, InSome, TablesOk;
    if InSome(l, fs, e) { HasKeyOf(l, fs, e); }
  }

  /** The first level with k from i on has the newest version, if that is at i or below. */
  lemma FirstHasNewest(v: Version, w: Version, fs: Files, job: Job, maxLevel: nat, i: nat, f: Meta, k: Bytes, e: Entry)
    requires VersionOk(v, fs, maxLevel) && JobOk(v, fs, job, maxLevel) && FileLayered(v, fs)
    requires Picks(v, job, maxLevel) && Midway(v, w, fs, job, maxLevel)
    requires HeldCoherent(w, fs) && NewestHeld(w, fs, k, e)
    requires 1 <= i < MAX_LEVELS && i != job.level + 1 && f in w.levels[i] && f.id in fs && Find(fs[f.id], k).Some?
    ensures Find(fs[f.id], k) == Some(e) <==> InLevels(w, fs, i, MAX_LEVELS, e)
  {
    hide VersionOk, JobOk, FileLayered, Find, Between, HeldCoherent, NewestHeld, Tidy, TableOk;
    var out := job.level + 1;
    if Find(fs[f.id], k) == Some(e) {
      FindCovered(f, fs, k);
      assert InSome(w.levels[i], fs, e);
    }
    if InLevels(w, fs, i, MAX_LEVELS, e) {
      var j :| i <= j < MAX_LEVELS && InSome(w.levels[j], fs, e);
      var b :| b in w.levels[j] && b.id in fs && e in fs[b.id];
      HolderHas(w, fs, k, e, j, b);
      if i < j {
        MidwayPair(v, w, fs, job, maxLevel, i, f, j, b, k);
        HasNewest(w, fs, k, e, i, f);
      } else {
        BetweenOrigin(v, w, job, maxLevel, i, f);
        BetweenOrigin(v, w, job, maxLevel, i, b);
        OneCovers(v, fs, maxLevel, i, f, b, k);
      }
    }
  }

  // ---- The output level ----

  lemma NewestIsHere(v: Version, w: Version, fs: Files, job: Job, maxLevel: nat, k: Bytes, e: Entry)
    requires VersionOk(v, fs, maxLevel) && JobOk(v, fs, job, maxLevel) && FileLayered(v, fs)
    requires Picks(v, job, maxLevel) && Midway(v, w, fs, job, maxLevel)
    requires HeldCoherent(w, fs) && NewestHeld(w, fs, k, e)
    requires forall h :: 0 <= h <= job.level ==> !HasKey(w.levels[h], fs, k)
    ensures InSome(w.levels[job.level + 1], fs, e) <==> HasKey(w.levels[job.level + 1], fs, k)
    ensures !InLevels(w, fs, 0, job.level + 1, e)
    ensures !InSome(w.levels[job.level + 1], fs, e) ==> InLevels(w, fs, job.level + 2, MAX_LEVELS, e)
  {
    hide VersionOk, JobOk, FileLayered, Find, Between, HeldCoherent, NewestHeld, Tidy, InSome, TableOk;
    var out := job.level + 1;
    NewestIsHeld(w, fs, k, e);
    forall h | 0 <= h < MAX_LEVELS && !HasKey(w.levels[h], fs, k)
      ensures !InSome(w.levels[h], fs, e)
    {
      NotThere(w.levels[h], fs, k, e);
    }
    var j, b := Holder(w, fs, k, e);
    HolderHas(w, fs, k, e, j, b);
    if HasKey(w.levels[out], fs, k) && j > out {
      var a :| a in w.levels[out] && a.id in fs && Find(fs[a.id], k).Some?;
      MidwayPair(v, w, fs, job, maxLevel, out, a, j, b, k);
      HasNewest(w, fs, k, e, out, a);
    }
  }

  lemma OutputLevel(v: Version, w: Version, fs: Files, job: Job, maxLevel: nat, readSeq: nat, k: Bytes, e: Entry)
    requires VersionOk(v, fs, maxLevel) && JobOk(v, fs, job, maxLevel) && FileLayered(v, fs)
    requires Picks(v, job, maxLevel) && Midway(v, w, fs, job, maxLevel) && AllOnDisk(w, fs)
    requires Visible(w, fs, readSeq) && HeldCoherent(w, fs) && NewestHeld(w, fs, k, e)
    requires forall h :: 0 <= h <= job.level ==> !HasKey(w.levels[h], fs, k)
    ensures DeepLookup(w, fs, job.level + 1, k, readSeq) == Some(e) <==> !Passed(w, fs, job.level + 1, e)
  {
    hide VersionOk, JobOk, FileLayered, Find, Between, HeldCoherent, NewestHeld, Tidy, InSome, TableOk, LevelLookup,
         Shadowed, Visible, InLevels, HasKey, AllShadowed, Answered;
    var out := job.level + 1;
    var l := w.levels[out];
    NewestIsHeld(w, fs, k, e);
    NewestIsHere(v, w, fs, job, maxLevel, k, e);
    LevelAnswers(w, fs, readSeq, out, k);
    BelowIsBest(v, w, fs, job, maxLevel, readSeq, out + 1, k, e);
    LandsOnNewest(w, fs, readSeq, out, k, e);
    if Answered(l, fs, k) { AnsweredHasKey(l, fs, k); }
  }

  lemma AnsweredHasKey(l: seq<Meta>, fs: Files, k: Bytes)
    requires Answered(l, fs, k)
    ensures HasKey(l, fs, k)
  {
  }

  /** The level answers with the newest version exactly when a file that has it is not shadowed. */
  lemma LandsOnNewest(w: Version, fs: Files, readSeq: nat, i: nat, k: Bytes, e: Entry)
    requires Tidy(w) && 1 <= i < MAX_LEVELS && TablesOk(w.levels[i], fs) && Visible(w, fs, readSeq)
    requires HeldCoherent(w, fs) && NewestHeld(w, fs, k, e)
    ensures LevelLookup(w.levels[i], fs, k, readSeq) == Some(e) <==> !AllShadowed(w.levels[i], fs, e)
  {
    hide Find, HeldCoherent, Held, LevelLookup, Shadowed, Visible, TableOk, Ranked;
    var l, r := w.levels[i], LevelLookup(w.levels[i], fs, k, readSeq);
    LevelAnswers(w, fs, readSeq, i, k);
    if r == Some(e) {
      var f :| f in l && f.id in fs && Find(fs[f.id], k) == r && !Shadowed(l, f, k);
      FindCovered(f, fs, k);
    }
    if f :| f in l && f.id in fs && e in fs[f.id] && !Shadowed(l, f, e.key) {
      HolderHas(w, fs, k, e, i, f);
    }
  }

  /** From a level above the outputs on, nothing of k having been found. */
  lemma {:induction false} AboveOutputs(v: Version, w: Version, fs: Files, job: Job, maxLevel: nat,
                                        readSeq: nat, i: nat, k: Bytes, e: Entry)
    requires VersionOk(v, fs, maxLevel) && JobOk(v, fs, job, maxLevel) && FileLayered(v, fs)
    requires Picks(v, job, maxLevel) && Midway(v, w, fs, job, maxLevel) && AllOnDisk(w, fs)
    requires Visible(w, fs, readSeq) && HeldCoherent(w, fs) && NewestHeld(w, fs, k, e)
    requires 1 <= i <= job.level + 1 && forall h :: 0 <= h < i ==> !HasKey(w.levels[h], fs, k)
    ensures DeepLookup(w, fs, i, k, readSeq) == Some(e) <==> !Passed(w, fs, job.level + 1, e)
    decreases MAX_LEVELS - i
  {
    hide VersionOk, JobOk, FileLayered, Find, Between, HeldCoherent, NewestHeld, Tidy, InSome, TableOk, LevelLookup,
         Visible, Passed, InLevels;
    if i == job.level + 1 {
      OutputLevel(v, w, fs, job, maxLevel, readSeq, k, e);
    } else {
      PlainLevel(v, w, fs, job, maxLevel, readSeq, i, k);
      if HasKey(w.levels[i], fs, k) {
        var f :| f in w.levels[i] && f.id in fs && Find(fs[f.id], k).Some?;
        FirstHasNewest(v, w, fs, job, maxLevel, i, f, k, e);
        NothingAbove(w, fs, i, k, e);
        HeldAbove(w, fs, i, job.level + 1, k, e, f);
      } else {
        AboveOutputs(v, w, fs, job, maxLevel, readSeq, i + 1, k, e);
      }
    }
  }

  lemma NothingAbove(w: Version, fs: Files, i: nat, k: Bytes, e: Entry)
    requires w.WellFormed() && i <= MAX_LEVELS && NewestHeld(w, fs, k, e)
    requires forall h :: 0 <= h < MAX_LEVELS ==> TablesOk(w.levels[h], fs)
    requires forall h :: 0 <= h < i ==> !HasKey(w.levels[h], fs, k)
    ensures InLevels(w, fs, i, MAX_LEVELS, e)
  {
    hide NewestHeld, HasKey, InSome, TablesOk;
    NewestIsHeld(w, fs, k, e);
    var j, b := Holder(w, fs, k, e);
    if j < i { NotThere(w.levels[j], fs, k, e); }
  }

  lemma HeldAbove(w: Version, fs: Files, i: nat, out: nat, k: Bytes, e: Entry, f: Meta)
    requires w.WellFormed() && i < out < MAX_LEVELS && f in w.levels[i] && TableOk(f, fs) && Find(fs[f.id], k) == Some(e)
    ensures !Passed(w, fs, out, e)
  {
    hide TableOk, Find;
    FindCovered(f, fs, k);
    TableHasFile(f, fs);
    assert InSome(w.levels[i], fs, e);
  }

  // ---- L0 ----

  /** a is the newest file that has k. */
  ghost predicate NewestWith(l: seq<Meta>, fs: Files, k: Bytes, a: Meta) {
    && a in l && a.id in fs && Find(fs[a.id], k).Some?
    && forall b :: b in l && b.id in fs && Find(fs[b.id], k).Some? ==> a == b || a.id > b.id
  }

  /** The first hit in L0 is in the newest file that has the key. */
  lemma L0Answers(w: Version, fs: Files, readSeq: nat, k: Bytes)
    requires Tidy(w) && TablesOk(w.levels[0], fs) && Visible(w, fs, readSeq)
    requires OnDisk(SortMetas(NewestFirst, w.levels[0]), fs)
    ensures var h := FirstHitAt(SortMetas(NewestFirst, w.levels[0]), fs, k, readSeq);
            && (h.Some? <==> HasKey(w.levels[0], fs, k))
            && (h.Some? ==> exists a :: NewestWith(w.levels[0], fs, k, a) && Find(fs[a.id], k) == h)
  {
    hide Find, FindAt, FirstHitAt, SortMetas, Visible, TableOk, RankOrdered;
    var l0 := w.levels[0];
    var l := SortMetas(NewestFirst, l0);
    forall m
      ensures m in l <==> m in l0
    {
      assert m in multiset(l) <==> m in multiset(l0);
    }
    forall m | m in l0
      ensures m.id in fs && FindAt(fs[m.id], k, readSeq) == Find(fs[m.id], k)
    {
      TableHasFile(m, fs);
      VisibleFile(w, fs, readSeq, 0, m, k);
    }
    FirstHitAtIndex(l, fs, k, readSeq);
    var h := FirstHitAt(l, fs, k, readSeq);
    if h.Some? {
      var i :| 0 <= i < |l| && FindAt(fs[l[i].id], k, readSeq) == h
               && forall j :: 0 <= j < i ==> FindAt(fs[l[j].id], k, readSeq).None?;
      assert l[i] in l;
      forall b | b in l0 && b.id in fs && Find(fs[b.id], k).Some?
        ensures l[i] == b || l[i].id > b.id
      {
        var j :| 0 <= j < |l| && l[j] == b;
        if i < j { NewestFirstOrder(l0, i, j); }
      }
      assert NewestWith(l0, fs, k, l[i]);
    }
  }

  /** With k in L0 the read ends there. */
  lemma EndsInL0(v: Version, w: Version, fs: Files, job: Job, maxLevel: nat, a: Meta, k: Bytes, e: Entry)
    requires VersionOk(v, fs, maxLevel) && JobOk(v, fs, job, maxLevel) && FileLayered(v, fs)
    requires Picks(v, job, maxLevel) && Midway(v, w, fs, job, maxLevel)
    requires HeldCoherent(w, fs) && NewestHeld(w, fs, k, e)
    requires NewestWith(w.levels[0], fs, k, a)
    ensures Find(fs[a.id], k) == Some(e) <==> !Passed(w, fs, job.level + 1, e)
  {
    hide VersionOk, JobOk, FileLayered, Find, Between, HeldCoherent, NewestHeld, Tidy, InSome, TableOk, AllShadowed, Answered;
    NewestIsHeld(w, fs, k, e);
    if Find(fs[a.id], k) == Some(e) {
      HeldAbove(w, fs, 0, job.level + 1, k, e, a);
    } else {
      forall j | 0 <= j < MAX_LEVELS && InSome(w.levels[j], fs, e)
        ensures j == job.level + 1
      {
        OnlyWithOutputs(v, w, fs, job, maxLevel, a, j, k, e);
      }
      var j, b := Holder(w, fs, k, e);
    }
  }

  lemma OnlyWithOutputs(v: Version, w: Version, fs: Files, job: Job, maxLevel: nat, a: Meta, j: nat, k: Bytes, e: Entry)
    requires VersionOk(v, fs, maxLevel) && JobOk(v, fs, job, maxLevel) && FileLayered(v, fs)
    requires Picks(v, job, maxLevel) && Midway(v, w, fs, job, maxLevel)
    requires HeldCoherent(w, fs) && NewestHeld(w, fs, k, e)
    requires NewestWith(w.levels[0], fs, k, a) && Find(fs[a.id], k) != Some(e)
    requires j < MAX_LEVELS && InSome(w.levels[j], fs, e)
    ensures j == job.level + 1
  {
    hide VersionOk, JobOk, FileLayered, Find, Between, HeldCoherent, NewestHeld, Tidy, TableOk;
    var b :| b in w.levels[j] && b.id in fs && e in fs[b.id];
    HolderHas(w, fs, k, e, j, b);
    if j != job.level + 1 {
      if j == 0 {
        BetweenOrigin(v, w, job, maxLevel, 0, a);
        BetweenOrigin(v, w, job, maxLevel, 0, b);
        LayeredPair(v, fs, 0, a, 0, b, k);
      } else {
        MidwayPair(v, w, fs, job, maxLevel, 0, a, j, b, k);
      }
      HasNewest(w, fs, k, e, 0, a);
    }
  }

  // ---- The whole read ----

  lemma {:induction false} NothingDeep(w: Version, fs: Files, readSeq: nat, i: nat, k: Bytes)
    requires Tidy(w) && 1 <= i <= MAX_LEVELS && AllOnDisk(w, fs) && Visible(w, fs, readSeq)
    requires forall h :: 0 <= h < MAX_LEVELS ==> TablesOk(w.levels[h], fs) && !HasKey(w.levels[h], fs, k)
    ensures DeepLookup(w, fs, i, k, readSeq) == None
    decreases MAX_LEVELS - i
  {
    hide Visible, LevelLookup, HasKey, Answered, TablesOk, Ranked;
    if i < MAX_LEVELS {
      LevelAnswers(w, fs, readSeq, i, k);
      if Answered(w.levels[i], fs, k) { AnsweredHasKey(w.levels[i], fs, k); }
      NothingDeep(w, fs, readSeq, i + 1, k);
    }
  }

  lemma ReadsNewest(v: Version, w: Version, fs: Files, job: Job, maxLevel: nat, readSeq: nat, k: Bytes, e: Entry)
    requires VersionOk(v, fs, maxLevel) && JobOk(v, fs, job, maxLevel) && FileLayered(v, fs)
    requires Picks(v, job, maxLevel) && Midway(v, w, fs, job, maxLevel) && AllOnDisk(w, fs)
    requires Visible(w, fs, readSeq) && HeldCoherent(w, fs) && NewestHeld(w, fs, k, e)
    ensures FileLookup(w, fs, k, readSeq) == Some(e) <==> !Passed(w, fs, job.level + 1, e)
  {
    hide VersionOk, JobOk, FileLayered, Find, Between, HeldCoherent, NewestHeld, TableOk, Visible, Passed, FirstHitAt, SortMetas,
         DeepLookup, HasKey;
    SortedOnDisk(w.levels[0], fs, NewestFirst);
    L0Answers(w, fs, readSeq, k);
    var h := FirstHitAt(SortMetas(NewestFirst, w.levels[0]), fs, k, readSeq);
    if h.Some? {
      var a :| NewestWith(w.levels[0], fs, k, a) && Find(fs[a.id], k) == h;
      EndsInL0(v, w, fs, job, maxLevel, a, k, e);
    } else {
      AboveOutputs(v, w, fs, job, maxLevel, readSeq, 1, k, e);
    }
  }

  lemma ReadsNothing(w: Version, fs: Files, readSeq: nat, k: Bytes)
    requires Tidy(w) && AllOnDisk(w, fs) && Visible(w, fs, readSeq)
    requires forall h :: 0 <= h < MAX_LEVELS ==> TablesOk(w.levels[h], fs)
    requires forall x :: Held(w, fs, x) ==> x.key != k
    ensures FileLookup(w, fs, k, readSeq) == None
  {
    hide Held, Find, TableOk, Visible, FirstHitAt, SortMetas, DeepLookup, Ranked;
    forall h, m | 0 <= h < MAX_LEVELS && m in w.levels[h] && m.id in fs && Find(fs[m.id], k).Some?
      ensures false
    {
      FindCovered(m, fs, k);
      HeldBy(w, fs, h, m, Find(fs[m.id], k).value);
    }
    SortedOnDisk(w.levels[0], fs, NewestFirst);
    L0Answers(w, fs, readSeq, k);
    NothingDeep(w, fs, readSeq, 1, k);
  }

  /** Between two edits a read finds the newest version the files have exactly when that is not missed. */
  lemma MidwayReads(v: Version, w: Version, fs: Files, job: Job, maxLevel: nat, readSeq: nat, k: Bytes)
    requires VersionOk(v, fs, maxLevel) && JobOk(v, fs, job, maxLevel) && FileLayered(v, fs)
    requires Picks(v, job, maxLevel) && Midway(v, w, fs, job, maxLevel) && AllOnDisk(w, fs)
    requires Visible(w, fs, readSeq) && HeldCoherent(w, fs)
    ensures Right(w, fs, k, FileLookup(w, fs, k, readSeq)) <==> !Missed(w, fs, job.level + 1, k)
  {
    hide VersionOk, JobOk, FileLayered, Held, Between, HeldCoherent, TableOk, Visible, Passed, FileLookup;
    if e :| NewestHeld(w, fs, k, e) {
      ReadsNewest(v, w, fs, job, maxLevel, readSeq, k, e);
      forall x | NewestHeld(w, fs, k, x)
        ensures x == e
      {
        OnlyNewest(w, fs, k, x, e);
      }
    } else {
      forall x | Held(w, fs, x)
        ensures x.key != k
      {
        var n := NewestExists(w, fs, x);
      }
      ReadsNothing(w, fs, readSeq, k);
    }
  }

  // ---- Prefixes of the edit list ----

  lemma AddsMidway(v: Version, fs: Files, job: Job, maxLevel: nat, j: nat)
    requires VersionOk(v, fs, maxLevel) && JobOk(v, fs, job, maxLevel) && j <= |job.outs|
    ensures forall e :: e in Adds(job.outs[..j]) ==> InRange(e)
    ensures Midway(v, UpdateAll(v, Adds(job.outs[..j])), fs, job, maxLevel)
  {
    hide Inputs, Less, Merging, Compacted, LevelOk, TablesOk, Ranked, UpdateAll, Between;
    AddPrefixBetween(v, fs, job, maxLevel, j);
    OutputsFresh(v, fs, job, maxLevel);
    PrefixDistinct(v.levels[job.level + 1], job.outs, j);
    AddAll(v, job.outs[..j], job.level + 1);
    BetweenTables(v, UpdateAll(v, Adds(job.outs[..j])), fs, job, maxLevel);
  }

  lemma DeletesMidway(v: Version, fs: Files, job: Job, maxLevel: nat, d: nat)
    requires VersionOk(v, fs, maxLevel) && JobOk(v, fs, job, maxLevel) && d <= |Merging(v, job, maxLevel)|
    ensures var es := Adds(job.outs) + Deletes(Merging(v, job, maxLevel)[..d]);
            (forall e :: e in es ==> InRange(e)) && Midway(v, UpdateAll(v, es), fs, job, maxLevel)
  {
    hide Inputs, Less, Merging, Compacted, LevelOk, TablesOk, Ranked, UpdateAll, Minus, Hits, Between;
    var ins := Merging(v, job, maxLevel);
    DeletePrefixBetween(v, fs, job, maxLevel, d);
    OutputsFresh(v, fs, job, maxLevel);
    MergingFacts(v, job, maxLevel);
    AddAll(v, job.outs, job.level + 1);
    DeleteAll(UpdateAll(v, Adds(job.outs)), ins[..d]);
    UpdateAllConcat(v, Adds(job.outs), Deletes(ins[..d]));
    BetweenTables(v, UpdateAll(v, Adds(job.outs) + Deletes(ins[..d])), fs, job, maxLevel);
  }

  lemma BetweenTables(v: Version, w: Version, fs: Files, job: Job, maxLevel: nat)
    requires VersionOk(v, fs, maxLevel) && JobOk(v, fs, job, maxLevel)
    requires Picks(v, job, maxLevel) && w.WellFormed() && Between(v, w, job, maxLevel)
    ensures forall i :: 0 <= i < MAX_LEVELS ==> TablesOk(w.levels[i], fs)
  {
    hide Inputs, Merging, Compacted, LevelOk, TableOk, Between, Tidy, AscendingIds;
    forall i, m | 0 <= i < MAX_LEVELS && m in w.levels[i]
      ensures TableOk(m, fs)
    {
      BetweenOrigin(v, w, job, maxLevel, i, m);
      FileOrOutput(v, fs, job, maxLevel, i, m);
    }
  }

  lemma FileOrOutput(v: Version, fs: Files, job: Job, maxLevel: nat, i: nat, m: Meta)
    requires VersionOk(v, fs, maxLevel) && JobOk(v, fs, job, maxLevel) && i < MAX_LEVELS
    requires m in v.levels[i] || m in job.outs
    ensures TableOk(m, fs)
  {
    hide Inputs, Merging, Compacted, LevelOk, TableOk, AscendingIds, Ranked;
  }

  /** What the files hold midway they held before. */
  lemma MidwaySame(v: Version, w: Version, fs: Files, job: Job, maxLevel: nat, readSeq: nat)
    requires VersionOk(v, fs, maxLevel) && JobOk(v, fs, job, maxLevel)
    requires Picks(v, job, maxLevel) && Midway(v, w, fs, job, maxLevel)
    requires Visible(v, fs, readSeq) && HeldCoherent(v, fs)
    ensures Visible(w, fs, readSeq) && HeldCoherent(w, fs) && AllOnDisk(w, fs)
    ensures forall x :: Held(w, fs, x) ==> Held(v, fs, x)
  {
    hide VersionOk, JobOk, Held, Between, Tidy, Sorted;
    forall x | Held(w, fs, x)
      ensures Held(v, fs, x)
    {
      BetweenHolds(v, w, fs, job, maxLevel, x);
    }
  }

  /** The version once the first j edits of a compaction are applied. */
  ghost function AfterEdits(v: Version, job: Job, maxLevel: nat, j: nat): (w: Version)
    requires Applicable(v, job, maxLevel) && j <= |CommitEdits(v, job, maxLevel)|
    ensures w.WellFormed()
  {
    assert forall x :: x in CommitEdits(v, job, maxLevel)[..j] ==> x in CommitEdits(v, job, maxLevel);
    UpdateAll(v, CommitEdits(v, job, maxLevel)[..j])
  }

  lemma PrefixMidway(v: Version, fs: Files, job: Job, maxLevel: nat, j: nat)
    requires VersionOk(v, fs, maxLevel) && JobOk(v, fs, job, maxLevel) && j <= |CommitEdits(v, job, maxLevel)|
    ensures Applicable(v, job, maxLevel) && Midway(v, AfterEdits(v, job, maxLevel, j), fs, job, maxLevel)
  {
    hide VersionOk, Merging, UpdateAll, Compacted, Inputs, Midway;
    CommitKeepsVersionOk(v, fs, job, maxLevel);
    var es, n := CommitEdits(v, job, maxLevel), |job.outs|;
    if j <= n {
      assert es[..j] == Adds(job.outs[..j]);
      AddsMidway(v, fs, job, maxLevel, j);
    } else {
      assert es[..j] == Adds(job.outs) + Deletes(Merging(v, job, maxLevel)[..j - n]);
      DeletesMidway(v, fs, job, maxLevel, j - n);
    }
  }

  lemma PrefixOnDisk(v: Version, fs: Files, job: Job, maxLevel: nat, j: nat)
    requires VersionOk(v, fs, maxLevel) && JobOk(v, fs, job, maxLevel) && j <= |CommitEdits(v, job, maxLevel)|
    ensures Applicable(v, job, maxLevel) && AllOnDisk(AfterEdits(v, job, maxLevel, j), fs)
  {
    hide VersionOk, JobOk, CommitEdits, Tidy, Between, Sorted, AfterEdits;
    PrefixMidway(v, fs, job, maxLevel, j);
  }

  /**
   * At every prefix of a compaction's manifest edits a read of the files finds the newest version
   * they hold if and only if that is not missed; with no tombstone dropped, that is to find what
   * it found before the compaction.
   */
  lemma PrefixReadExact(v: Version, fs: Files, job: Job, maxLevel: nat, j: nat, readSeq: nat, k: Bytes)
    requires VersionOk(v, fs, maxLevel) && JobOk(v, fs, job, maxLevel) && FileLayered(v, fs) && v.WellFormed()
    requires HeldCoherent(v, fs) && Visible(v, fs, readSeq) && j <= |CommitEdits(v, job, maxLevel)|
    ensures Applicable(v, job, maxLevel) && AllOnDisk(v, fs) && AllOnDisk(AfterEdits(v, job, maxLevel, j), fs)
    ensures var w := AfterEdits(v, job, maxLevel, j);
            && (Right(w, fs, k, FileLookup(w, fs, k, readSeq)) <==> !Missed(w, fs, job.level + 1, k))
            && (!Bottom(job, maxLevel) ==>
                  (FileLookup(w, fs, k, readSeq) == FileLookup(v, fs, k, readSeq) <==> !Missed(w, fs, job.level + 1, k)))
  {
    hide VersionOk, JobOk, FileLayered, Visible, HeldCoherent, CommitEdits, FileLookup, Missed, Between, Tidy, Held, Right,
         AfterEdits;
    PrefixMidway(v, fs, job, maxLevel, j);
    var w := AfterEdits(v, job, maxLevel, j);
    MidwaySame(v, w, fs, job, maxLevel, readSeq);
    MidwayReads(v, w, fs, job, maxLevel, readSeq, k);
    FileOkShape(v, fs, maxLevel);
    if !Bottom(job, maxLevel) {
      FileLookupIsRight(v, fs, maxLevel, readSeq, k);
      SameNewest(v, fs, job, maxLevel, j, k);
      RightIsUnique(v, w, fs, k, FileLookup(v, fs, k, readSeq), FileLookup(w, fs, k, readSeq));
    }
  }

  /** In every run, a compaction's outputs being written, its commit can be read at any edit. */
  lemma RunPrefixRead(run: seq<System>, steps: seq<Step>, maxLevel: nat, i: nat, j: nat, k: Bytes)
    requires IsRun(run, steps, maxLevel) && 1 <= maxLevel <= MAX_LEVELS && i < |run|
    requires run[i].proc.Up? && run[i].proc.compactor.Written?
    ensures var v, fs, job, readSeq := run[i].disk.version, run[i].disk.ssts, run[i].proc.compactor.job, run[i].proc.mem.seqNo;
            && v.WellFormed() && Applicable(v, job, maxLevel) && AllOnDisk(v, fs)
            && (j <= |CommitEdits(v, job, maxLevel)| ==>
                  var w := AfterEdits(v, job, maxLevel, j);
                  && AllOnDisk(w, fs)
                  && (Right(w, fs, k, FileLookup(w, fs, k, readSeq)) <==> !Missed(w, fs, job.level + 1, k))
                  && (!Bottom(job, maxLevel) ==>
                        (FileLookup(w, fs, k, readSeq) == FileLookup(v, fs, k, readSeq) <==> !Missed(w, fs, job.level + 1, k))))
  {
    hide IsRun, VersionOk, JobOk, FileLayered, Visible, HeldCoherent, CommitEdits, FileLookup, Missed, Right, AfterEdits, UpInv;
    var s := run[i];
    var v, fs, job := s.disk.version, s.disk.ssts, s.proc.compactor.job;
    RunKeepsInv(run, steps, maxLevel, i);
    WrittenFacts(s, maxLevel);
    CommitKeepsVersionOk(v, fs, job, maxLevel);
    FileOkShape(v, fs, maxLevel);
    if j <= |CommitEdits(v, job, maxLevel)| {
      PrefixReadExact(v, fs, job, maxLevel, j, s.proc.mem.seqNo, k);
    }
  }

  lemma WrittenFacts(s: System, maxLevel: nat)
    requires s.proc.Up? && UpInv(s, maxLevel) && s.proc.compactor.Written?
    ensures var v, fs := s.disk.version, s.disk.ssts;
            && v.WellFormed() && VersionOk(v, fs, maxLevel) && FileLayered(v, fs) && JobOk(v, fs, s.proc.compactor.job, maxLevel)
            && HeldCoherent(v, fs) && Visible(v, fs, s.proc.mem.seqNo)
  {
    hide VersionOk, JobOk, FileLayered, Held, MemTablesOk, WriterOk, FlusherOk, LogsExact, Represented, FlushedRep;
    DrawnCoherent(s.disk.version, s.disk.ssts, s.hist);
  }

  lemma FileLookupIsRight(v: Version, fs: Files, maxLevel: nat, readSeq: nat, k: Bytes)
    requires VersionOk(v, fs, maxLevel) && FileLayered(v, fs) && v.WellFormed() && Visible(v, fs, readSeq) && AllOnDisk(v, fs)
    ensures Right(v, fs, k, FileLookup(v, fs, k, readSeq))
  {
    hide VersionOk, FileLayered, Visible, FileLookup;
    FileLookupIsBest(v, fs, maxLevel, readSeq, k);
  }

  lemma SameNewest(v: Version, fs: Files, job: Job, maxLevel: nat, j: nat, k: Bytes)
    requires VersionOk(v, fs, maxLevel) && JobOk(v, fs, job, maxLevel) && HeldCoherent(v, fs) && !Bottom(job, maxLevel)
    requires Applicable(v, job, maxLevel) && j <= |CommitEdits(v, job, maxLevel)|
    ensures forall e :: NewestHeld(AfterEdits(v, job, maxLevel, j), fs, k, e) <==> NewestHeld(v, fs, k, e)
  {
    hide VersionOk, JobOk, HeldCoherent, NewestHeld, CommitEdits;
    forall e
      ensures NewestHeld(AfterEdits(v, job, maxLevel, j), fs, k, e) <==> NewestHeld(v, fs, k, e)
    {
      EditPrefixKeepsNewest(v, fs, job, maxLevel, j, k, e);
    }
  }

  lemma RightIsUnique(v: Version, w: Version, fs: Files, k: Bytes, r: Option<Entry>, s: Option<Entry>)
    requires v.WellFormed() && w.WellFormed() && HeldCoherent(v, fs) && Right(v, fs, k, r)
    requires forall e :: NewestHeld(w, fs, k, e) <==> NewestHeld(v, fs, k, e)
    requires forall x :: Held(w, fs, x) ==> Held(v, fs, x)
    ensures Right(w, fs, k, s) <==> s == r
  {
    hide Held;
  }

  // ---- A read that goes back in time ----

  const FIRST := Entry(KEY, 1, Value, [7])
  const SECOND := Entry(KEY, 2, Value, [8])
  const OLDER := Meta(1, 0, KEY, KEY, 0)
  const NEWER := Meta(2, 0, KEY, KEY, 0)
  const OUTPUT := Meta(3, 1, KEY, KEY, 0)
  const TABLES: Files := map[1 := [FIRST], 2 := [SECOND], 3 := [SECOND]]
  const LISTED := Version([[OLDER, NEWER], [], [], [], [], [], []], 0, 0, 3)
  const MERGE := Job(0, 2, [OUTPUT])

  lemma StaleLevels(i: nat)
    requires i < MAX_LEVELS
    ensures LISTED.levels[i] == if i == 0 then [OLDER, NEWER] else []
  {
  }

  lemma FindOnly(e: Entry, k: Bytes)
    ensures Find([e], k) == if e.key == k then Some(e) else None
  {
    assert [e][1..] == [];
  }

  lemma StaleVersion()
    ensures VersionOk(LISTED, TABLES, MAX_LEVELS)
  {
    forall i | 0 <= i < MAX_LEVELS
      ensures LISTED.levels[i] == if i == 0 then [OLDER, NEWER] else []
    {
      StaleLevels(i);
    }
    assert TableOk(OLDER, TABLES) && TableOk(NEWER, TABLES);
  }

  lemma StaleLayers()
    ensures FileLayered(LISTED, TABLES)
  {
    hide Find;
    forall i, a, j, b, k | 0 <= i < MAX_LEVELS && 0 <= j < MAX_LEVELS && a in LISTED.levels[i] && b in LISTED.levels[j]
                           && a.id in TABLES && b.id in TABLES && ReadBefore(i, a, j, b)
                           && Find(TABLES[a.id], k).Some? && Find(TABLES[b.id], k).Some?
      ensures Find(TABLES[a.id], k).value.seqno >= Find(TABLES[b.id], k).value.seqno
    {
      StaleLevels(i);
      StaleLevels(j);
      FindOnly(FIRST, k);
      FindOnly(SECOND, k);
    }
  }

  lemma StaleHeld(e: Entry)
    ensures Held(LISTED, TABLES, e) <==> e == FIRST || e == SECOND
  {
    assert OLDER in LISTED.levels[0] && NEWER in LISTED.levels[0];
    if e == FIRST { HeldBy(LISTED, TABLES, 0, OLDER, e); }
    if e == SECOND { HeldBy(LISTED, TABLES, 0, NEWER, e); }
    if Held(LISTED, TABLES, e) {
      var i, m :| 0 <= i < MAX_LEVELS && m in LISTED.levels[i] && m.id in TABLES && e in TABLES[m.id];
      StaleLevels(i);
    }
  }

  lemma StaleMerging()
    ensures Picks(LISTED, MERGE, MAX_LEVELS) && Inputs(LISTED, 0, 2) == [OLDER, NEWER]
    ensures Merging(LISTED, MERGE, MAX_LEVELS) == [NEWER, OLDER]
  {
    StaleLevels(0);
    StaleLevels(1);
    assert [OLDER, NEWER][..2] == [OLDER, NEWER];
    assert [OLDER, NEWER][1..] == [NEWER];
    assert SortMetas(MergePriority, [NEWER]) == [NEWER];
  }

  lemma StaleOutput()
    ensures Compacted([[SECOND], [FIRST]], false) == [SECOND]
  {
    var cs := [[SECOND], [FIRST]];
    var r := Compacted(cs, false);
    CompactedExact(cs, false);
    FindOnly(SECOND, KEY);
    assert SECOND in cs[0] && FIRST in cs[1];
    forall e | e in r
      ensures e == SECOND
    {
      assert IsNewest(cs, e.key, e);
      assert forall i, x :: 0 <= i < |cs| && x in cs[i] ==> x == SECOND || x == FIRST;
    }
    assert FirstHit(cs, KEY).Some?;
    var e :| IsNewest(cs, KEY, e) && e in r;
    AscendingOnce(r, SECOND);
  }

  lemma AscendingOnce(r: seq<Entry>, e: Entry)
    requires Ascending(r) && e in r && forall x :: x in r ==> x == e
    ensures r == [e]
  {
    hide Ascending;
    assert forall i :: 0 <= i < |r| ==> r[i] in r;
    if |r| >= 2 {
      AscendingApart(r);
    }
  }

  lemma AscendingApart(r: seq<Entry>)
    requires Ascending(r) && |r| >= 2
    ensures r[0] != r[1]
  {
    hide Less;
    LessIsTotalOrder();
    assert Less(r[0].key, r[1].key);
  }

  lemma StaleJob()
    ensures JobOk(LISTED, TABLES, MERGE, MAX_LEVELS) && !Bottom(MERGE, MAX_LEVELS)
  {
    hide Merging, Inputs, Compacted;
    StaleMerging();
    StaleOutput();
    assert Contents([NEWER, OLDER], TABLES) == [[SECOND], [FIRST]];
    assert Contents([OUTPUT], TABLES) == [[SECOND]];
    assert Flatten([[SECOND]]) == [SECOND] by { assert [[SECOND]][1..] == []; }
    assert TableOk(OUTPUT, TABLES);
    forall i, a | 0 <= i < MAX_LEVELS && a in LISTED.levels[i]
      ensures a.id != OUTPUT.id
    {
      StaleLevels(i);
    }
  }

  lemma StaleCoherent()
    ensures HeldCoherent(LISTED, TABLES) && Visible(LISTED, TABLES, 2)
  {
    hide Held;
    forall e | Held(LISTED, TABLES, e)
      ensures e == FIRST || e == SECOND
    {
      StaleHeld(e);
    }
  }

  /** Once the newer file of L0 is deleted, only the older one is left there. */
  lemma StaleCut()
    requires Applicable(LISTED, MERGE, MAX_LEVELS) && 2 <= |CommitEdits(LISTED, MERGE, MAX_LEVELS)|
    requires JobOk(LISTED, TABLES, MERGE, MAX_LEVELS) && VersionOk(LISTED, TABLES, MAX_LEVELS)
    ensures forall m :: m in AfterEdits(LISTED, MERGE, MAX_LEVELS, 2).levels[0] <==> m == OLDER
  {
    hide VersionOk, JobOk, UpdateAll, Merging, Between;
    StaleMerging();
    StaleLevels(0);
    var es := CommitEdits(LISTED, MERGE, MAX_LEVELS);
    assert [NEWER, OLDER][..1] == [NEWER];
    assert es[..2] == Adds(MERGE.outs) + Deletes([NEWER]);
    DeletesCut(LISTED, TABLES, MERGE, MAX_LEVELS, 1);
    var w := AfterEdits(LISTED, MERGE, MAX_LEVELS, 2);
    CutIsWellFormed(LISTED, w, MERGE, MAX_LEVELS, 1);
    forall m | m in w.levels[0]
      ensures m in LISTED.levels[0]
    {
      BetweenOrigin(LISTED, w, MERGE, MAX_LEVELS, 0, m);
    }
  }

  /**
   * Two files of L0 with two versions of a key are merged. When the manifest has deleted the newer
   * file and not yet the older, a read returns the older version: what was overwritten is back.
   */
  lemma PrefixReadExample()
    ensures VersionOk(LISTED, TABLES, MAX_LEVELS) && JobOk(LISTED, TABLES, MERGE, MAX_LEVELS)
    ensures FileLayered(LISTED, TABLES) && HeldCoherent(LISTED, TABLES) && !Bottom(MERGE, MAX_LEVELS)
    ensures Applicable(LISTED, MERGE, MAX_LEVELS) && 2 < |CommitEdits(LISTED, MERGE, MAX_LEVELS)|
    ensures AllOnDisk(LISTED, TABLES) && AllOnDisk(AfterEdits(LISTED, MERGE, MAX_LEVELS, 2), TABLES)
    ensures FileLookup(LISTED, TABLES, KEY, 2) == Some(SECOND)
    ensures FileLookup(AfterEdits(LISTED, MERGE, MAX_LEVELS, 2), TABLES, KEY, 2) == Some(FIRST)
  {
    hide VersionOk, JobOk, FileLayered, HeldCoherent, Visible, FileLookup, CommitEdits, AfterEdits, Merging, Held;
    StaleVersion();
    StaleLayers();
    StaleCoherent();
    StaleJob();
    StaleEdits();
    PrefixOnDisk(LISTED, TABLES, MERGE, MAX_LEVELS, 2);
    FileOkShape(LISTED, TABLES, MAX_LEVELS);
    StaleBefore();
    StaleAfter();
  }

  lemma StaleEdits()
    ensures Picks(LISTED, MERGE, MAX_LEVELS) && |CommitEdits(LISTED, MERGE, MAX_LEVELS)| == 3
  {
    hide Merging, Inputs;
    StaleMerging();
  }

  lemma StaleBefore()
    requires VersionOk(LISTED, TABLES, MAX_LEVELS) && FileLayered(LISTED, TABLES) && Visible(LISTED, TABLES, 2)
    requires AllOnDisk(LISTED, TABLES)
    ensures FileLookup(LISTED, TABLES, KEY, 2) == Some(SECOND)
  {
    hide VersionOk, FileLayered, Visible, FileLookup, Held;
    FileLookupIsRight(LISTED, TABLES, MAX_LEVELS, 2, KEY);
    forall e
      ensures Held(LISTED, TABLES, e) <==> e == FIRST || e == SECOND
    {
      StaleHeld(e);
    }
  }

  lemma StaleAfter()
    requires VersionOk(LISTED, TABLES, MAX_LEVELS) && JobOk(LISTED, TABLES, MERGE, MAX_LEVELS)
    requires Applicable(LISTED, MERGE, MAX_LEVELS) && |CommitEdits(LISTED, MERGE, MAX_LEVELS)| == 3
    requires HeldCoherent(LISTED, TABLES) && Visible(LISTED, TABLES, 2)
    requires AllOnDisk(AfterEdits(LISTED, MERGE, MAX_LEVELS, 2), TABLES)
    ensures FileLookup(AfterEdits(LISTED, MERGE, MAX_LEVELS, 2), TABLES, KEY, 2) == Some(FIRST)
  {
    hide VersionOk, JobOk, HeldCoherent, Visible, CommitEdits, AfterEdits, Find, FirstHitAt, SortMetas, Between, DeepLookup,
         Ranked;
    var w := AfterEdits(LISTED, MERGE, MAX_LEVELS, 2);
    PrefixMidway(LISTED, TABLES, MERGE, MAX_LEVELS, 2);
    MidwaySame(LISTED, w, TABLES, MERGE, MAX_LEVELS, 2);
    SortedOnDisk(w.levels[0], TABLES, NewestFirst);
    L0Answers(w, TABLES, 2, KEY);
    StaleCut();
    FindOnly(FIRST, KEY);
    assert OLDER in w.levels[0] && TABLES[OLDER.id] == [FIRST];
    assert HasKey(w.levels[0], TABLES, KEY);
  }
}
