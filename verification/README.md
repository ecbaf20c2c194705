# Verified model of an LSM-tree storage engine and its cluster protocols

A Dafny model of the storage engine in `internal/engine`, the formats under it
(write-ahead log, skip list, SSTable, bloom filter, manifest) and three cluster
protocols (cross-shard transaction journal, slot migration, Raft state machine
with its checkpoint). Every part is a fast or crash-tolerant structure; each is
proved to agree with a simple one.

`dafny verify dfyconfig.toml` checks the whole project.

## How the parts fit

| part | files | simple form it is proved against |
|---|---|---|
| keys, merging, de-duplication | `Keys`, `Merge`, `EmptyKey` | first hit in a list of sorted lists |
| manifest | `Manifest`, `ManifestLog` | the live version |
| levels and compaction | `Levels`, `Compaction`, `Commit`, `Meaning`, `BottomPrefix`, `PrefixRead` | the newest version of every key over all files |
| engine as a state machine | `Engine`, `EngineInv`, `EngineSteps`, `EngineRecovery`, `EngineRead`, `EngineRun` | one map given the same writes |
| engine as an object | `LSMEngine`, `Scan` | the state machine, and through it the map |
| log | `Records`, `Wal`, `WalLog` | the list of records appended |
| memtable | `Table`, `SkipList`, `MemTable` | a sorted list |
| table file | `Codec`, `Varint`, `Block`, `SSTable`, `TableFile`, `Bloom` | a sorted list |
| the engine's files | `DiskBytes` | the disk of the state machine |
| reader cache | `TableCache` | pin counts |
| cluster | `Shards`, `Routing`, `Txn`, `Cluster`, `Migration`, `ClusterScan`, `RaftFsm` | one map per cluster, the fold of the log |

The engine is modelled twice. Besides memory, a step of `Engine.Step` changes at most
one file or appends one manifest record, so a run can crash between any two such
effects: taking a sequence number and logging the batch, creating a table file and
finishing it, each output of a compaction and each unlinked input are steps of their
own, and the flush and compaction workers interleave freely with writes. The one
exception is the manifest records of a single commit, which are one step; what a read
finds between two of them is the subject of `PrefixRead`. A batch's log record is one
step because any part of its bytes reads back as none of it
(`DiskBytes.RunTornAppend`). `EngineInv.Inv` is the invariant, and `EngineRun` draws
the conclusions for every run. `LSMEngine.LSMEngine` is the object: each method does
its work with loops and field updates and carries, as ghost state, the run of the
state machine it has performed, so the theorems about runs are theorems about the
methods.

Crash points of the cluster code are handled the same way: a node keeps a trace
with one durable state per atomic effect, and the contracts speak about every
state of the trace.

## Where a property holds only under a condition

* Replaying the manifest gives the live version if and only if no edit carries an
  auxiliary number above what the live version has recorded
  (`Manifest.ReplayMatchesLive`); edits that leave foreign fields at zero always do.
  `Manifest.ReplayDiffersExample` is an edit that does not.
* `Get` agrees with the plain map if and only if it is not asked for an empty
  value served from a file (`EngineRun.GetIsPlain`): the block iterator returns
  nil for an empty value and `Get` reads nil as a tombstone. `Scan` goes by the
  entry type and has no such case. `LSMEngine.EmptyValueExample` is a run in which
  a value put is missing once it is flushed.
* De-duplication recognises older versions of every key but the empty one. It
  emits one version per key if and only if at most one surviving version of the
  empty key comes in (`EmptyKey.OnePerKey`), and a bottom-level drop revives the
  empty key if and only if a tombstone hides an older value among its inputs
  (`EmptyKey.EmptyKeyRevived`, with an example in `EmptyKey.EmptyKeyRevivedExample`).
  Runs of the engine take non-empty keys.
* At every prefix of a compaction's manifest edits the newest version of every key is
  unchanged when the output level is not the bottom one (`Meaning.EditPrefixKeepsNewest`).
  Into the bottom level a key keeps its live value if and only if it is not exposed: the
  tombstone that hides a value is held only by inputs already deleted, and the value by
  one that is not yet (`BottomPrefix.BottomPrefixExact`). The code deletes upper inputs
  first, so such a prefix exists (`BottomPrefix.BottomPrefixExample`).
* What the files hold at such a prefix is not always what `Get` finds, live or after a
  crash there, although a comment calls the order of the edits crash-safe
  (`internal/engine/background.go:405-410`): `Get` stops at the first L0 file that knows
  the key, and opens one file of a level that overlaps itself. It finds the newest version
  if and only if that is not missed: the newest version is at the output level and not
  above it, and either an older one is in L0, or every file of the level that has it is
  shadowed, that is, a file listed after it starts at or before the key, and it is not
  found again further down (`PrefixRead.PrefixReadExact`, for every run
  `PrefixRead.RunPrefixRead`). The L0 inputs go newest first, so an overwritten value can
  be back (`PrefixRead.PrefixReadExample`).
* A scan over all shards shows a key as a routed lookup does if and only if the key is
  not astray: the shard the scan takes it from holds something else than the one a lookup
  reads (`ClusterScan.ScanAgreesWithLookup`). With a readable plan such a key is a stray,
  held by some shard while its owner lacks it (`ClusterScan.StrayIsAstray`). A migration,
  wherever it is interrupted, leaves no stray where there was none
  (`ClusterScan.MigrationLeavesNoStray`), but it can leave a copy beside the owner's: after
  a revert, or after the flip and before the source is cleared. A client's delete then
  reaches the owner alone, and the deleted key is back in scans
  (`ClusterScan.DeleteMakesStray`, `ClusterScan.DeletedComesBack`).
* The manifest reads back if and only if it carries checksums or its first record is not
  exactly as long as the magic number read as a length, about 1.1 GiB
  (`ManifestLog.RecoverInvertsLog`); otherwise the file is read as one with checksums
  (`ManifestLog.MagicMistaken`, with an input in `ManifestLog.MagicMistakenExample`).
* The 48-byte footer reads back if and only if the two handles take at most 32 bytes, or
  33 with the last one equal to 1, the byte the version puts there
  (`Varint.FooterReadsBack`, with an input that is lost in `Varint.FooterLostExample`); in
  particular when all four numbers are below 2^56 (`Varint.FooterRoundTrip`).
* A comment in `internal/memtable/memtable.go:97` says that the entry type takes
  part in the search order; the comparison in `internal/sstable/format.go:33-39`
  ignores it, and so does the model.

## Model

| member | source | states |
|---|---|---|
| `Keys.LessIsTotalOrder` | internal/sstable/format.go:33-39 | The byte order behind the internal-key order is a strict total order. |
| `Keys.FindIsNewest` | internal/sstable/format.go:29-39 | In a list sorted by internal key the first entry of a user key carries its highest sequence number. |
| `Merge.MergedIsPermutation` | internal/compaction/iterator.go:61-109 | The k-way merge loses, repeats and invents no entry. |
| `Merge.MergedIsOrdered` | internal/compaction/iterator.go:31-41 | The merge of sorted sources comes out in the heap's order. |
| `Merge.MergedByKeyFind` | internal/engine/engine.go:1139-1160 | Merged by user key and priority, the first entry of every key is the one found by probing the sources in order. |
| `Merge.MergedByVersionFind` | internal/engine/background.go:194-216 | Merged by internal key, the first entry of every key is its newest version over all sources, and a key is missing only if no source has it. |
| `Merge.SurvivorsExact` | internal/engine/background.go:300-324 | De-duplication keeps exactly the first version of every non-empty key, minus tombstones when these are dropped, one per key in ascending order. |
| `EmptyKey.EmptyKeySurvivors` | internal/engine/background.go:300-311 | Every version of the empty user key passes the duplicate test, because the remembered key stays nil. |
| `EmptyKey.OnePerKey` | internal/engine/background.go:300-311 | The loop emits one version per key if and only if at most one surviving version of the empty key comes in. |
| `EmptyKey.EmptyKeyRevived` | internal/engine/background.go:314-324 | With tombstones dropped the empty key reads as its newest version says, except exactly when that is a tombstone over an older value. |
| `EmptyKey.EmptyKeyRevivedExample` | internal/engine/background.go:301-324 | A concrete input on which a deleted empty key comes back. |
| `Manifest.SortMetasOrdered` | internal/manifest/manifest.go:393-403 | Sorting a level puts its files in the level's order. |
| `Manifest.SortIsUnique` | internal/manifest/manifest.go:393-403 | With distinct file ids a sorted level does not depend on the order it was built in. |
| `Manifest.ReplayMatchesLive` | internal/manifest/manifest.go:105-170 | For all edits, replaying the log gives the live version if and only if no edit carries a number above the live marks. |
| `Manifest.ReplayDiffersExample` | internal/manifest/manifest.go:105-170 | An edit list whose replay has a greater next file id than the live version. |
| `Manifest.CanonicalReplay` | internal/manifest/manifest.go:105-170 | When auxiliary fields are zero outside their own kind, replay gives the same levels in the same order and the same three marks. |
| `Manifest.UpdateAllMonotone` | internal/manifest/manifest.go:139-166 | Edits that leave foreign fields at zero never carry a number above the live marks, so no mark is lowered. |
| `ManifestLog.EditRoundTrip` | internal/manifest/version_edit.go:51-128 | Decoding inverts encoding, and also reads old records that lack the last field. |
| `ManifestLog.RecoverInvertsLog` | internal/manifest/manifest.go:230-386 | Recovering the written bytes gives the live version raised by the marks of the edits, and the format they were written in, if and only if they carry checksums or the first record is not as long as the magic number says. |
| `ManifestLog.MagicMistaken` | internal/manifest/manifest.go:230-386 | Otherwise the outcome is that of reading the records after the first four bytes as records with checksums. |
| `ManifestLog.MagicMistakenExample` | internal/manifest/manifest.go:230-386 | A file without checksums, one added table, that does not recover to its version. |
| `ManifestLog.ManifestFile.constructor` | internal/manifest/manifest.go:60-92 | A new or empty file gets the magic and checksums; one that holds edits is left as it is. |
| `ManifestLog.ManifestFile.Reopen` | internal/engine/engine.go:243-256 | Taking up a file with edits in either format gives the version they make, its marks raised, and the format to go on with, whenever that can be told; a file that cannot be read changes nothing. |
| `ManifestLog.ManifestFile.Apply` | internal/manifest/manifest.go:105-198 | An edit is refused exactly when it would overlap its level; otherwise version and file both move, and the file always replays. |
| `ManifestLog.ManifestFile.RecoversCurrent` | internal/manifest/manifest.go:230-386 | At any time the file recovers to the version in memory raised by its marks, and to the version itself when foreign fields are zero, if and only if its format can be told. |
| `ManifestLog.Recover` | internal/manifest/manifest.go:230-386 | The reading loop is the specified parse, with its truncation, corruption and panic outcomes. |
| `Levels.FindLevelCandidate` | internal/engine/engine.go:1362-1377 | On any level ordered by first key, also one that overlaps itself, the binary search returns the last file that starts at or before the key, unless it ends before it. |
| `Levels.CandidateIs` | internal/engine/engine.go:1362-1377 | On a level of disjoint files that is the one file whose range covers the key. |
| `Levels.CandidateSuffices` | internal/engine/engine.go:825-853 | Looking at the candidate alone gives what probing the whole level would. |
| `Commit.DedupeByFileID` | internal/compaction/leveled.go:76-86 | The first occurrence of every file id is kept, in order. |
| `Commit.PickInputs` | internal/engine/background.go:126-174 | All of L0, or the first file of a level, with the overlapping files of the next level, in merge order; nothing at the bottom or on an empty level. |
| `Commit.CommitReplaces` | internal/engine/background.go:405-436 | After all manifest edits the version has the outputs in place of the inputs and every other file where it was. |
| `Compaction.MergeInputs` | internal/engine/background.go:271-367 | The concatenated outputs are the merged, de-duplicated input; none is empty, all but the last are full, and none was full before its last entry. |
| `Compaction.CompactedExact` | internal/engine/background.go:295-346 | The outputs hold, for every key of the inputs, exactly its newest version, once and in ascending order, unless it is a tombstone reaching the bottom. |
| `Meaning.CommitKeepsVersionOk` | internal/engine/background.go:126-174 | A compaction keeps every level below L0 sorted and pairwise disjoint. |
| `Meaning.CommitKeepsLayered` | internal/engine/background.go:126-454 | After a compaction the file read first for a key still holds its newest version. |
| `Meaning.CommitKeepsNewest` | internal/engine/background.go:194-346 | The newest version of every key is unchanged; only a tombstone may go, and only when no older version of its key is left anywhere. |
| `Meaning.EditPrefixKeepsNewest` | internal/engine/background.go:405-436 | At every prefix of the edit list, when the output level is not the bottom, the newest version of every key over all listed files is unchanged. |
| `BottomPrefix.BottomPrefixExact` | internal/engine/background.go:314-436 | At every prefix of the edits of a compaction into the bottom level a key keeps its newest live value if and only if it is not exposed: its newest version a tombstone held only by inputs already deleted, and the newest version in the inputs not yet deleted a value. |
| `BottomPrefix.BottomPrefixExample` | internal/engine/background.go:427-436 | A deleted value that is back between the two deletions of a compaction of one L0 and one L1 file. |
| `PrefixRead.PrefixReadExact` | internal/engine/background.go:405-436 | At every prefix of the edits of any compaction a read of the files finds the newest version they hold if and only if it is not missed; when no tombstone can be dropped, that is if and only if it finds what it found before the compaction. |
| `PrefixRead.RunPrefixRead` | internal/engine/background.go:405-436 | The same in every run, at every edit of every compaction about to commit. |
| `PrefixRead.PrefixReadExample` | internal/engine/background.go:230-436 | Two L0 files with two versions of a key are merged: after the deletion of the newer file a read returns the older version. |
| `PrefixRead.CandidateLast` | internal/engine/engine.go:1362-1377 | On any level ordered by first key the search lands on a file if and only if it covers the key and no later file starts at or before it. |
| `PrefixRead.MidwayPair` | internal/engine/background.go:405-436 | Between two edits a file listed above another still has the newer version, but for L0 above the outputs of its own compaction. |
| `EngineSteps.NumberKeeps` | internal/engine/engine.go:566-582 | Taking the next sequence number for an operation keeps the invariant; the other workers can step between it and the log record. |
| `EngineSteps.RefuseKeeps` | internal/engine/engine.go:566-569 | Abandoning the numbers a refused batch has taken keeps the invariant. |
| `EngineSteps.AppendKeeps` | internal/engine/engine.go:583-590 | The log record of a numbered batch keeps the invariant of the engine. |
| `EngineSteps.ApplyKeeps` | internal/engine/engine.go:591-597 | Inserting the batch into the memtable keeps the invariant. |
| `EngineSteps.RotateCreateKeeps` | internal/engine/engine.go:705-710 | Creating the next log keeps the invariant. |
| `EngineSteps.RotateNoteKeeps` | internal/engine/engine.go:711-718 | Recording its number keeps the invariant. |
| `EngineSteps.RotateSwapKeeps` | internal/engine/engine.go:720-734 | Moving the full memtable to the immutables keeps the invariant. |
| `EngineSteps.FlushCreateKeeps` | internal/engine/flush.go:68-74 | Creating that file keeps the invariant: nothing refers to it. |
| `EngineSteps.FlushWriteKeeps` | internal/engine/flush.go:75-110 | Filling and finishing the table file of the oldest immutable keeps the invariant. |
| `EngineSteps.FlushEmptyKeeps` | internal/engine/flush.go:86-95 | Dropping an empty immutable without a file keeps the invariant. |
| `EngineSteps.FlushListKeeps` | internal/engine/flush.go:111-123 | Listing it in the manifest keeps the invariant. |
| `EngineSteps.FlushSealKeeps` | internal/engine/flush.go:125-133 | Recording the sequence number keeps the invariant. |
| `EngineSteps.FlushDropKeeps` | internal/engine/flush.go:135-139 | Dropping the immutable keeps the invariant: the files answer for everything it held. |
| `EngineSteps.FlushUnlinkKeeps` | internal/engine/flush.go:141-145 | Removing its log keeps the invariant: the recorded number covers it. |
| `EngineSteps.CompactPickKeeps` | internal/engine/background.go:126-174 | Picking inputs keeps the invariant while flushes go on. |
| `EngineSteps.CompactCreateKeeps` | internal/engine/background.go:271-289 | Creating the next output file keeps the invariant. |
| `EngineSteps.CompactWriteKeeps` | internal/engine/background.go:272-346 | Finishing one output with any next stretch of the surviving entries keeps the invariant. |
| `EngineSteps.CompactCloseKeeps` | internal/engine/background.go:355-367 | Once all surviving entries are written the job can be committed. |
| `EngineSteps.CompactCommitKeeps` | internal/engine/background.go:405-436 | The completed edit list keeps the invariant. |
| `EngineSteps.CompactSweepKeeps` | internal/engine/background.go:438-445 | Unlinking one input after another keeps the invariant. |
| `EngineSteps.CrashKeeps` | internal/engine/engine.go:243-370 | What is on disk alone satisfies the invariant of a stopped engine. |
| `EngineRecovery.LoadedTable` | internal/engine/engine.go:278-300 | Replaying every log rebuilds exactly the writes above what the files are known to cover. |
| `EngineRecovery.NothingMissing` | internal/engine/engine.go:263-276 | No file the manifest names is ever missing, so opening does not fail on one. |
| `EngineRecovery.OpenLoadKeeps` | internal/engine/engine.go:243-300 | Loading keeps the invariant. |
| `EngineRecovery.OpenCleanKeeps` | internal/engine/engine.go:302-320 | Removing an orphan keeps the invariant: it is never a file the manifest names. |
| `EngineRecovery.OpenCreateKeeps` | internal/engine/engine.go:322-341 | Creating the new active log keeps the invariant. |
| `EngineRecovery.OpenRewriteKeeps` | internal/engine/engine.go:457-485 | Rewriting recovered entries one by one keeps the invariant. |
| `EngineRecovery.OpenUnlinkKeeps` | internal/engine/engine.go:342-346 | Old logs can go one by one. |
| `EngineRecovery.OpenFlushCreateKeeps` | internal/engine/engine.go:375-382 | Creating a file for an oversized recovered memtable keeps the invariant. |
| `EngineRecovery.OpenFlushWriteKeeps` | internal/engine/engine.go:384-412 | Writing it keeps the invariant. |
| `EngineRecovery.OpenFlushListKeeps` | internal/engine/engine.go:413-429 | Listing the flushed file and dropping the recovered memtable keeps the invariant. |
| `EngineRecovery.OpenNoteKeeps` | internal/engine/engine.go:360-367 | Recording the number of the active log keeps the invariant. |
| `EngineRecovery.OpenDoneKeeps` | internal/engine/engine.go:227-231 | Opening the active log and starting up keeps the invariant. |
| `EngineRead.FileLookupIsBest` | internal/engine/engine.go:784-855 | Among the files, L0 newest first and then one candidate per level, the first hit is the newest version anywhere. |
| `EngineRun.StepKeeps` | internal/engine/engine.go:243-749 | Every step of the engine, recovery included, keeps the invariant. |
| `EngineRun.RunKeepsInv` | internal/engine/engine.go:243-749 | The invariant holds at every state of every run from an empty directory. |
| `EngineRun.GetIsPlain` | internal/engine/engine.go:752-856 | With no write in flight Get returns what a plain map given the same writes returns, if and only if it is not asked for an empty value served from a file; then it returns nothing. |
| `EngineRun.RunReadsPlainMap` | internal/engine/engine.go:556-856 | The same at every state of every run with any number of writes, rotations, flushes, compactions, crashes and recoveries. |
| `EngineRun.RunForgetsNothing` | internal/engine/engine.go:243-485 | The durable and the acknowledged writes only grow along a run, and only a log record adds to the durable ones. |
| `EngineRun.CrashLosesNothing` | internal/engine/engine.go:243-604 | After a crash at any point and any recoveries and further crashes, once the engine is up with nothing logged since, every read answers as the plain map of the writes acknowledged at the crash, or of these and one whole batch then being written, but for empty values in a file. |
| `EngineRun.RunIsOneBatchAhead` | internal/engine/engine.go:556-604 | What is durable beyond the acknowledged writes is nothing, or one batch in flight as a whole. |
| `EngineRun.RunNumbersAbove` | internal/engine/engine.go:257-300 | Every listed file is on disk and holds only entries of the history, and while the engine is open or opening no entry is numbered above its counter. |
| `LSMEngine.LSMEngine.Write` | internal/engine/engine.go:556-604 | A batch is applied to the map as a whole, or refused with the map unchanged exactly when a value is too large; the steps taken are a number for each operation, the log record, the insertion and, exactly when the table has become full, the rotation, or the numbers up to the refused operation. |
| `LSMEngine.LSMEngine.StampBatch` | internal/engine/engine.go:565-582 | Consecutive numbers, one step each, taken up to the first value that is too large and no further. |
| `LSMEngine.LSMEngine.Put` | internal/engine/engine.go:607-645 | The map gets the binding, or stays, with no number used, exactly when the value is too large. |
| `LSMEngine.LSMEngine.Delete` | internal/engine/engine.go:648-676 | The map loses the key. |
| `LSMEngine.LSMEngine.RotateMemTable` | internal/engine/engine.go:678-749 | The table becomes the newest immutable, by creating a log, recording it and swapping; the map stays. A second waiting writer can rotate an empty table. |
| `LSMEngine.LSMEngine.Flush` | internal/engine/flush.go:63-151 | The steps of a flush in order, or those that drop an empty table; the oldest immutable leaves memory and the map stays. |
| `LSMEngine.LSMEngine.Get` | internal/engine/engine.go:752-856 | The loops over memtables, L0 and levels compute the specified lookup, hence the plain map's answer but for empty values in files. |
| `LSMEngine.EmptyValueExample` | internal/engine/engine.go:556-856 | A run in which an empty value is put and flushed, and Get then does not find it. |
| `LSMEngine.LSMEngine.CompactLevel` | internal/engine/background.go:126-454 | Nothing happens at the bottom or on an empty level; otherwise the steps are the pick, the creation and the writing of each output, rolled exactly when full, the commit and the removal of each input; the map stays. |
| `LSMEngine.LSMEngine.CommitOutputs` | internal/engine/background.go:405-446 | Applying the edits one by one is the committing step of a run, and the inputs are then removed one step each; nothing durable is lost. |
| `LSMEngine.LSMEngine.RemoveInputs` | internal/engine/background.go:438-445 | Exactly the input files go, each by a step of a run. |
| `LSMEngine.LSMEngine.Recover` | internal/engine/engine.go:243-370 | From whatever files a crash left, the engine comes up with exactly the durable writes, and with no recovered table above the size limit. |
| `LSMEngine.LSMEngine.CleanOrphans` | internal/engine/engine.go:302-320 | Exactly the table files the manifest names remain. |
| `LSMEngine.LSMEngine.FoldLogs` | internal/engine/engine.go:333-348 | Creating the new log, rewriting the recovered entries and unlinking the old logs are steps of a run that lose nothing. |
| `LSMEngine.ActiveNumber` | internal/engine/engine.go:305-335 | The number of the new log is above every table and log file on disk and not below the recorded one. |
| `LSMEngine.LSMEngine.constructor` | internal/engine/engine.go:243-261 | An engine over the files some run left starts as the continuation of that run. |
| `LSMEngine.LSMEngine.Load` | internal/engine/engine.go:243-300 | Reading the manifest and replaying the logs is the loading step of a run. |
| `LSMEngine.LSMEngine.ReplayLogs` | internal/engine/engine.go:278-300 | The loops rebuild the table, its size and the highest number from all logs in order. |
| `LSMEngine.LSMEngine.RewriteTable` | internal/engine/engine.go:457-485 | Rewriting entry by entry is a run of rewriting steps. |
| `LSMEngine.LSMEngine.RemoveLogs` | internal/engine/engine.go:342-346 | Unlinking the old logs is a run of unlinking steps. |
| `LSMEngine.LSMEngine.FlushOversized` | internal/engine/engine.go:375-429 | The oversized table goes to L0 by the three steps of a run that create, write and list its file. |
| `LSMEngine.LSMEngine.LogBatch` | internal/engine/engine.go:583-597 | The numbered batch becomes durable by one step and visible by the next, as a whole. |
| `LSMEngine.LSMEngine.WriteTable` | internal/engine/flush.go:63-133 | Writing, listing and sealing the table file are steps of a run. |
| `LSMEngine.LSMEngine.ReleaseImmutable` | internal/engine/flush.go:135-145 | The immutable goes and its log after it. |
| `LSMEngine.LSMEngine.SearchMemTables` | internal/engine/engine.go:752-782 | The newest table holding the key answers. |
| `LSMEngine.LSMEngine.SearchFiles` | internal/engine/engine.go:784-855 | L0 is searched newest first, then the deeper levels. |
| `LSMEngine.LSMEngine.Pick` | internal/engine/background.go:126-174 | The inputs are picked by a step of a run and are all on disk. |
| `LSMEngine.LSMEngine.WriteOutputs` | internal/engine/background.go:271-380 | Each output is created and finished under a new number, by two steps of a run, and together they hold the surviving entries. |
| `LSMEngine.HasFile` | internal/manifest/manifest.go:36-45 | The nested loops find a file exactly when the version names it. |
| `LSMEngine.SortedLogs` | internal/engine/engine.go:431-455 | The logs come in ascending order of number, each once. |
| `Scan.ScanWithError` | internal/engine/engine.go:1178-1360 | The sources in priority order, merged by key until the limit, give the first entries of the merged live range. |
| `Scan.SkippedIsEmpty` | internal/engine/engine.go:1379-1387 | A file the range test skips holds nothing in the range. |
| `Scan.FileOrderHit` | internal/engine/engine.go:1285-1325 | Probing files in scan order finds what Get finds. |
| `Scan.ScanIsPlain` | internal/engine/engine.go:1178-1360 | The result is, strictly ascending, exactly the first limit bindings (all when the limit is not positive) of the plain map in the range. |
| `Scan.ScanAgreesWithGet` | internal/engine/engine.go:1178-1360 | Get agrees on every key returned, if and only if it is not an empty value in a file. |
| `Scan.MergeLoop` | internal/engine/engine.go:1327-1359 | The heap loop emits the first live version of every key until the limit. |
| `Scan.LiveRangeExact` | internal/engine/engine.go:1178-1360 | The merged range is strictly ascending and holds exactly the live bindings of the history in the range. |
| `Scan.AddSources` | internal/engine/engine.go:1285-1325 | Files out of range are skipped and the others clipped, in reading order. |
| `Scan.ClipFind` | internal/engine/engine.go:1178-1325 | Clipping a source to the range changes no lookup inside it. |
| `Records.EntryRoundTrip` | internal/wal/record.go:34-92 | An encoded entry reads back whatever follows it. |
| `Records.EncodeBatch` | internal/wal/record.go:49-70 | The loop writes the count and every entry with its length. |
| `Records.DecodeEntries` | internal/wal/record.go:95-133 | The loop is the specified parse, rejecting short, overlong and trailing bytes. |
| `Records.RecordRoundTrip` | internal/wal/record.go:34-133 | A single entry or a batch decodes to exactly its entries. |
| `Records.UnframedInverts` | internal/wal/record.go:95-133 | Length-framed entries decode to themselves. |
| `Wal.Reassemble` | internal/wal/reader.go:28-88 | The nested block loops are the specified reassembly of payloads. |
| `Wal.ReadEmitted` | internal/wal/reader.go:37-81 | A record written at any block offset, in any number of fragments and with either padding, is read back before whatever follows. |
| `Wal.ReadCut` | internal/wal/reader.go:37-59 | A record cut anywhere yields nothing. |
| `Wal.ReadPrefix` | internal/wal/reader.go:28-88 | Every byte prefix of a log yields exactly the records it holds in full. |
| `Wal.WholeIsGreatest` | internal/wal/reader.go:28-88 | That count is the greatest whose records fit the prefix. |
| `Wal.LandingIsLength` | internal/wal/wal.go:140-204 | The block position a writer keeps is the file length modulo the block size. |
| `Wal.ReadFragment` | internal/wal/reader.go:37-81 | One intact fragment moves the reader past it, keeping, starting or finishing a record as its type says. |
| `WalLog.WAL.constructor` | internal/wal/wal.go:38-58 | Opening a new file, or one a writer closed, goes on at the right block position. |
| `WalLog.WAL.WriteRecord` | internal/wal/wal.go:140-204 | The fragmenting loop appends exactly the specified bytes. |
| `WalLog.WAL.AppendBatch` | internal/wal/wal.go:96-123 | A batch is one record; the counter ends at the highest number seen. |
| `WalLog.WAL.AppendWithSeqNo` | internal/wal/wal.go:74-93 | The entry is one record and the counter never goes back. |
| `WalLog.RecoverWAL` | internal/wal/reader.go:14-89 | The recovered entries are those of the payloads that decode, in order. |
| `WalLog.RecoverPrefix` | internal/wal/reader.go:14-89 | A log cut at any byte gives back the entries of the records before the cut and no part of the one it goes through. |
| `WalLog.RecoverInverts` | internal/wal/reader.go:14-89 | The whole log gives back every entry appended. |
| `WalLog.WAL.Append` | internal/wal/wal.go:61-71 | The entry is logged under the next sequence number. |
| `WalLog.EmitAllAppend` | internal/wal/wal.go:140-204 | Appending a record to a log appends its bytes at the position reached. |
| `DiskBytes.RunTornAppend` | internal/engine/engine.go:583-590 | In every run, with any part of the bytes of a batch's record in the active log, recovery reads the log as before the batch, or, if all are there, as after it. |
| `DiskBytes.RunLogsReadBack` | internal/engine/engine.go:278-300 | In every state of every run the bytes of the logs recover to exactly the entries the state says they hold. |
| `DiskBytes.RunReadsBytes` | internal/engine/engine.go:752-856 | In every run Get reading the bytes of the table files, filters, indexes and blocks included, answers as the plain map does if and only if it is not asked for an empty value in a file, while no length overflows its field. |
| `DiskBytes.ByteGetIs` | internal/engine/engine.go:784-855 | Reading the bytes of the files gives what reading their entries gives. |
| `DiskBytes.TornRecord` | internal/wal/reader.go:14-89 | A log cut anywhere in its last record reads back without that record, and whole, with it. |
| `DiskBytes.RunIsBare` | internal/engine/engine.go:570-582 | No tombstone in a run carries a value. |
| `Table.InsertSorted` | internal/memtable/skiplist.go:54-84 | Inserting keeps the list strictly sorted. |
| `Table.InsertAllMember` | internal/memtable/skiplist.go:54-84 | Inserting a batch of new numbers adds exactly its entries. |
| `SkipList.SkipList.Search` | internal/memtable/skiplist.go:55-62 | On every level the walk stops at the last node before the key. |
| `SkipList.SkipList.Insert` | internal/memtable/skiplist.go:54-84 | For any level drawn, the linked nodes afterwards list the old entries with the new one in place, on a node of that level, or with its value replaced. |
| `SkipList.LevelsNest` | internal/memtable/skiplist.go:19-33 | Every level is a sorted sublist of the one below. |
| `SkipList.SkipList.FindLE` | internal/memtable/skiplist.go:88-104 | The first entry not before the search key is returned if it has the same user key. |
| `SkipList.SkipList.Entries` | internal/memtable/memtable.go:145-166 | The iterator visits every entry in order. |
| `SkipList.SkipList.AddNode` | internal/memtable/skiplist.go:68-83 | A new node of any level is linked in at its place on every level up to its own. |
| `SkipList.SkipList.Overwrite` | internal/memtable/skiplist.go:63-67 | Only the value of the equal entry changes. |
| `MemTable.SoughtIsNewest` | internal/memtable/memtable.go:91-99 | That entry is the newest version not above the given number. |
| `MemTable.MemTable.Put` | internal/memtable/memtable.go:43-54 | The contents gain the entry and the size its estimate. |
| `MemTable.MemTable.Delete` | internal/memtable/memtable.go:57-67 | The contents gain the tombstone. |
| `MemTable.MemTable.Get` | internal/memtable/memtable.go:71-88 | The newest version of the key, told apart from absence and deletion. |
| `MemTable.MemTable.GetAtSeqNo` | internal/memtable/memtable.go:91-107 | The version with the greatest number not above the given one. |
| `MemTable.MemTable.Add` | internal/memtable/memtable.go:43-67 | The entry is inserted, the size grows and the highest sequence number is kept. |
| `MemTable.NewestIsFirst` | internal/memtable/memtable.go:71-88 | A search at the greatest number finds what probing the sorted list finds. |
| `Varint.UvarintRoundTrip` | internal/sstable/varint.go:7-18 | A 64-bit number reads back with its length, whatever follows. |
| `Varint.KeyRoundTrip` | internal/sstable/varint.go:21-39 | An internal key decodes to its three parts. |
| `Varint.HandleRoundTrip` | internal/sstable/varint.go:42-55 | A block handle reads back with its length. |
| `Varint.FooterReadsBack` | internal/sstable/builder.go:159-169 | For all 64-bit numbers the footer reads back if and only if the handles leave byte 32 free, or end on it with the value written there. |
| `Varint.FooterLostExample` | internal/sstable/builder.go:159-169 | Two handles of greatest numbers that do not read back. |
| `Varint.FooterRoundTrip` | internal/sstable/reader.go:42-65 | In particular when all four numbers are below 2^56. |
| `Block.BlockBuilder.Add` | internal/sstable/block_builder.go:54-83 | The buffer and restart array are those of the pairs added so far, the new one last. |
| `Block.BlockBuilder.Finish` | internal/sstable/block_builder.go:86-96 | The restart array and its length follow the entries. |
| `Block.BlockDecodes` | internal/sstable/block_builder.go:118-132 | Decoding a finished block gives its entries' bytes and its restart offsets. |
| `Block.DecodeBlock` | internal/sstable/block_builder.go:118-132 | The loop over the restart array is the specified parse. |
| `Block.WalkBuilt` | internal/sstable/block_builder.go:173-214 | The iterator yields exactly the pairs the block was built from. |
| `Block.WalkRestart` | internal/sstable/block_builder.go:217-221 | Seeking to any stored restart offset yields exactly the pairs from that entry on. |
| `Block.BlockIterator.Next` | internal/sstable/block_builder.go:173-214 | The iterator moves by one entry, and past the last one stays there. |
| `Block.BlockIterator.SeekToRestart` | internal/sstable/block_builder.go:217-221 | The iterator yields what follows the restart offset. |
| `Block.BlockBuilder.SharedPrefix` | internal/sstable/block_builder.go:54-83 | The loop finds the length of the common prefix. |
| `Block.BlockBuilder.Reset` | internal/sstable/block_builder.go:104-109 | The block is empty; that a key was added before is still remembered, as an empty key. |
| `Block.WalkFrom` | internal/sstable/block_builder.go:173-214 | From the start of any entry, with the key before it, the iterator yields exactly the rest. |
| `SSTable.OpensBuilt` | internal/sstable/reader.go:33-109 | The reader opens what the builder wrote and has its index and filter. |
| `SSTable.LoadsBuilt` | internal/sstable/reader.go:163-244 | Every index entry leads to its block, which yields its entries. |
| `SSTable.BlockDecides` | internal/sstable/reader.go:163-173 | The first block whose last user key is not below the key decides the lookup, also when versions straddle blocks. |
| `SSTable.GetFindsNewest` | internal/sstable/reader.go:113-158 | Get at a number not below the newest finds that version or its tombstone, and nothing for an absent key. |
| `SSTable.BlockReads` | internal/sstable/reader.go:180-244 | A finished block decodes to its entry bytes and restarts, and yields its pairs. |
| `SSTable.ScannedIs` | internal/sstable/reader.go:113-158 | The scan of a sorted block stops at the first version not above the read number. |
| `TableFile.SSTableBuilder.Add` | internal/sstable/builder.go:63-91 | The file, the open block and the index stay those of the entries added, the new one last. |
| `TableFile.SSTableBuilder.Finish` | internal/sstable/builder.go:126-190 | The file is exactly the table of the entries added: blocks cut at the block size, the filter over their keys, the index and the footer. |
| `TableFile.FindDataBlock` | internal/sstable/reader.go:163-173 | The index scan returns the specified entry. |
| `TableFile.Get` | internal/sstable/reader.go:113-158 | The filter test and the scan of one block compute the specified answer. |
| `TableFile.GetIsFind` | internal/sstable/reader.go:113-158 | Filter included, the answer is that of the sorted list. |
| `TableFile.SSTableIterator.Next` | internal/sstable/reader.go:246-318 | The iterator moves by one entry, across blocks, and past the last one stays there. |
| `TableFile.ReadAll` | internal/sstable/reader.go:246-318 | A pass yields every pair of every block. |
| `TableFile.IteratorYieldsAll` | internal/sstable/reader.go:246-318 | That is exactly the list the table was built from. |
| `TableFile.Build` | internal/sstable/builder.go:63-190 | Adding any sorted list entry by entry and finishing gives the table of that list. |
| `TableFile.BuildAndGet` | internal/sstable/builder.go:63-190 | A table built from any sorted list, opened and asked, answers as the list does, whenever its blocks fit 32-bit and its file 56-bit lengths. |
| `TableFile.SSTableBuilder.FlushDataBlock` | internal/sstable/builder.go:93-103 | The open block is appended to the file, its handle kept and its index entry left pending. |
| `TableFile.SSTableBuilder.IndexPending` | internal/sstable/builder.go:73-111 | The pending entry is written under the last key of its block. |
| `TableFile.SSTableBuilder.CloseBlocks` | internal/sstable/builder.go:127-138 | Nothing is left open or pending, and the blocks are those the entries are cut into. |
| `TableFile.BlockedIsFull` | internal/sstable/builder.go:82-88 | Every block but the last reaches the block size, and only with its last entry. |
| `TableFile.SSTableIterator.AdvanceToNextDataBlock` | internal/sstable/reader.go:247-318 | The next block that loads is entered, without skipping a pair. |
| `Bloom.BloomFilter.constructor` | internal/bloom/bloom.go:44-74 | The bits are those of FilterBits, which FilterExact and FilterAdmits are about. |
| `Bloom.FilterExact` | internal/bloom/bloom.go:56-72 | A bit of a new filter is set if and only if one of the rounds of some key looks at it. |
| `Bloom.FilterAdmits` | internal/bloom/bloom.go:44-97 | A key the filter was built from is never reported absent. |
| `Bloom.BloomFilter.MayContain` | internal/bloom/bloom.go:77-97 | True exactly when every probed bit is set, or the filter is of an unknown kind. |
| `Bloom.FilterBytes` | internal/bloom/bloom.go:44-111 | The serialized filter is the bytes of the filter over the keys. |
| `Bloom.WrittenFilterAdmits` | internal/bloom/bloom.go:44-111 | Nor is it after the filter has been written and read back. |
| `Bloom.AskFilter` | internal/bloom/bloom.go:77-111 | A filter read back from its bytes lets a key through as the written bits say. |
| `Bloom.FilterRoundTrip` | internal/bloom/bloom.go:100-111 | Deserializing the serialized bits gives them back. |
| `Bloom.MarkAll` | internal/bloom/bloom.go:63-71 | The nested loops set the probed bits of one key after another, starting from the bits given. |
| `TableCache.Cache.Register` | internal/engine/table_cache.go:57-99 | A duplicate is closed; at capacity the least recently used unpinned reader is closed if there is one, and no other; pinned readers stay open. |
| `TableCache.Cache.Get` | internal/engine/table_cache.go:105-117 | A registered reader is pinned, open and moved to the front. |
| `TableCache.Cache.Release` | internal/engine/table_cache.go:118-127 | The last release of an unregistered reader is the one that must close it. |
| `TableCache.Cache.Unregister` | internal/engine/table_cache.go:134-154 | The reader can no longer be had; it is to be closed now exactly if nobody pins it. |
| `TableCache.Cache.Finish` | internal/engine/table_cache.go:118-154 | A reader is closed for the first and only time, with no pin, whatever came between. |
| `TableCache.Cache.CloseAll` | internal/engine/table_cache.go:158-169 | With nothing pinned, every reader that is not still on its way to being closed has been closed exactly once. |
| `TableCache.Cache.Victim` | internal/engine/table_cache.go:74-85 | The least recently used unpinned reader, or none when all are pinned. |
| `TableCache.Cache.Evict` | internal/engine/table_cache.go:74-85 | It leaves the cache and is closed once. |
| `Routing.NewRoutingPlan` | internal/cluster/routing.go:32-50 | Slots are dealt round the shards. |
| `Routing.Normalize` | internal/cluster/routing.go:140-161 | The loop computes the normalized plan, which LoadedIsNormal and PersistedIsLoaded are about. |
| `Routing.RouteForKey` | internal/cluster/routing.go:98-127 | On a normalized plan a key goes to its slot's owner, with the target beside it while the slot moves. |
| `Routing.PersistedIsLoaded` | internal/cluster/sharded.go:666-712 | The plan that is read is the one last persisted. |
| `Routing.LoadedIsNormal` | internal/cluster/sharded.go:666-683 | Whatever plan is loaded, every owner and target in it names a shard. |
| `Routing.RouteIsOwner` | internal/cluster/sharded.go:714-730 | A key is routed to the owner its loaded plan names, and to the target as well while its slot moves. |
| `Txn.ShardedNode.Prepare` | internal/cluster/sharded.go:536-573 | One true pre-image for every shard and key the batches touch, and for no other. |
| `Txn.ShardedNode.ApplyTransaction` | internal/cluster/sharded.go:575-592 | All batches are applied, or a failing child leads back to the state before; every state between can be undone. |
| `Txn.ShardedNode.Rollback` | internal/cluster/sharded.go:602-626 | The listed shards return to their pre-images, through states that can still be undone. |
| `Txn.ShardedNode.WriteCrossShardBatch` | internal/cluster/sharded.go:512-534 | The shards end at the post-state or the pre-state as the result says, the journal is empty, and every crash state is recoverable. |
| `Txn.ShardedNode.Save` | internal/cluster/txn_journal.go:45-65 | The record appears under its pending or its committed name. |
| `Txn.ShardedNode.Delete` | internal/cluster/txn_journal.go:67-77 | The pending file goes before the committed one. |
| `Txn.ShardedNode.LoadAll` | internal/cluster/txn_journal.go:79-118 | Finished transactions are cleared; it fails exactly when a transaction had both files; otherwise it lists the pending ones. |
| `Txn.ShardedNode.RecoverTransactions` | internal/cluster/sharded.go:628-657 | From any crash state, through recoverable states only, success leaves the pre-state of an unfinished transaction or the post-state of a finished one; it fails only after clearing both files of one. |
| `Txn.UndoShard` | internal/cluster/sharded.go:602-626 | Rolling a shard back gives its pre-state however much of the transaction it has seen. |
| `Txn.ShardedNode.WriteShard` | internal/cluster/sharded.go:575-592 | One child write is one atomic durable effect. |
| `Txn.ShardedNode.UndoBatches` | internal/cluster/sharded.go:602-618 | Grouping the pre-images by shard gives each shard exactly its undo operations, in order. |
| `Txn.ShardedNode.ReadPending` | internal/cluster/txn_journal.go:104-115 | The listed records are read, or reading fails exactly when one was cleared meanwhile. |
| `Txn.ShardedNode.RecoverRecord` | internal/cluster/sharded.go:628-657 | A pending record is rolled back and removed, through recoverable states. |
| `Txn.WriteIsUndone` | internal/cluster/sharded.go:575-626 | A partly applied transaction can still be undone from its pre-images. |
| `Txn.UndoKey` | internal/cluster/sharded.go:602-626 | The undo operations give every imaged key its old value or absence and leave the others alone. |
| `Cluster.Split` | internal/cluster/sharded.go:271-298 | Each shard gets, in order, the entries it owns or is about to own; a reserved key refuses the batch. |
| `Cluster.Write` | internal/cluster/sharded.go:261-305 | All shards take their part or none does, and every state a crash can leave is recoverable. |
| `Cluster.WriteIsOneMap` | internal/cluster/sharded.go:261-326 | Through the routing the shards behave like one map given the same batch. |
| `Cluster.WriteKeepsAgreement` | internal/cluster/sharded.go:276-298 | A write on a moving slot keeps owner and target in agreement. |
| `Cluster.Survive` | internal/cluster/sharded.go:512-657 | Any crash in the write, any crashes in recovery, then recovery retried: pre-state or post-state, post-state if the write returned success, pre-state if it returned failure. |
| `Cluster.OnlyBatch` | internal/cluster/sharded.go:299-303 | A shard is singled out exactly when it is the only one with a batch. |
| `Migration.CopySlotKeys` | internal/cluster/sharded.go:921-985 | The target ends with exactly the source's keys of the slot, through states that only move towards them; without faults it succeeds. |
| `Migration.DeleteSlotKeys` | internal/cluster/sharded.go:987-1022 | The source ends with none of the slot's keys and keeps every other key; without faults it succeeds. |
| `Migration.PersistPlan` | internal/cluster/sharded.go:699-712 | One atomic write of shard 0. |
| `Migration.MigrateSlot` | internal/cluster/sharded.go:868-919 | Whichever operation or wait fails, clients see the same map at every durable state, and no key is on any shard that was on none; on success the target owns the slot and the source has none of its keys; without faults it succeeds. |
| `Migration.Replan` | internal/cluster/sharded.go:868-919 | Changing one slot of the stored plan keeps the client's map when old and new owner agree on the slot, and touches no key but the plan's. |
| `Migration.CopyStep` | internal/cluster/sharded.go:868-985 | A copy, however far it gets, leaves what clients see unchanged; when it succeeds target and source agree on the slot. |
| `Migration.Revert` | internal/cluster/sharded.go:868-919 | Putting the old owner back, or failing to, leaves what clients see unchanged; when it works the slot is settled at the source. |
| `Migration.OwnedUntouched` | internal/cluster/sharded.go:921-1022 | Changes to the slot's keys are invisible to clients on a shard that does not own the slot, or that already holds what they are changed to. |
| `Migration.PlanKeepsView` | internal/cluster/sharded.go:699-712 | Storing a plan that differs in one slot leaves the client's map unchanged when old and new owner agree on that slot. |
| `ClusterScan.ScanShards` | internal/cluster/sharded.go:328-378 | Whatever plan is stored, or none: keys ascending, the owner's value first, cut to the limit, and nothing left out before that. |
| `ClusterScan.ScanAgreesWithLookup` | internal/cluster/sharded.go:328-378 | With any stored plan, readable or not, the scan shows a key as a lookup does if and only if the key is not astray. |
| `ClusterScan.StrayIsAstray` | internal/cluster/sharded.go:328-378 | With a readable plan the keys astray are those some shard holds and their owner lacks. |
| `ClusterScan.MigrationLeavesNoStray` | internal/cluster/sharded.go:868-1022 | No durable state of a migration has a stray that was none before. |
| `ClusterScan.DeleteMakesStray` | internal/cluster/sharded.go:261-305 | A delete of a key that another shard still has a copy of, in a slot at rest, leaves a stray. |
| `ClusterScan.DeletedComesBack` | internal/cluster/sharded.go:868-919 | A migration that goes back after its first copy, then a client's delete: the key is gone for lookups and listed by scans. |
| `ClusterScan.Gather` | internal/cluster/sharded.go:335-364 | The map built shard by shard holds, for exactly the keys in range, the owner's value or else the first shard's that has one. |
| `ClusterScan.SortedKeys` | internal/cluster/sharded.go:365-370 | The keys come out strictly ascending, each once. |
| `RaftFsm.BatchTwice` | internal/cluster/raft_node.go:935-950 | Applying a command again changes nothing. |
| `RaftFsm.RaftFSM.Apply` | internal/cluster/raft_node.go:920-969 | An entry at or below the checkpoint is skipped; otherwise the engine holds the fold up to it, through durable states that track the log. |
| `RaftFsm.RaftFSM.TakeSnapshot` | internal/cluster/raft_node.go:971-1014 | The snapshot's engine and checkpoint track the log. |
| `RaftFsm.RaftFSM.Restore` | internal/cluster/raft_node.go:1016-1056 | The node is at the snapshot, and tracks the log from there. |
| `RaftFsm.Run` | internal/cluster/raft_node.go:920-1056 | Over any redelivery, crash, snapshot and restore the engine holds the fold of the log up to its checkpoint or to the next effective entry; with deliveries alone it holds the fold of the entries delivered. |
| `RaftFsm.ApplyReaches` | internal/cluster/raft_node.go:920-969 | From a state that holds the log up to the checkpoint, or one entry more, applying the next entry reaches the fold up to it. |
| `RaftFsm.Restart` | internal/cluster/raft_node.go:1016-1056 | From any durable state a crash leaves, the node is valid for the position redelivered from, with the state as it was or, if torn, as a snapshot has it. |

## Left out

- Engine.DoCompactCommit: the manifest records of one compaction are one step, so a crash or a read between two of them is not part of a run, because reads can go wrong there; exactly when is stated by `PrefixRead.RunPrefixRead`, `Meaning.EditPrefixKeepsNewest` and `BottomPrefix.BottomPrefixExact`.
- A write counts as acknowledged once it is in the memtable, although its caller may still wait for a rotation; theorems about acknowledged writes cover more writes for it.
- LSMEngine.LSMEngine.Write: does not cover a batch with an empty key, because de-duplication mistakes the empty key and a compaction can bring an old value of it back; `EmptyKey` says exactly what compaction does with it.
- LSMEngine.LSMEngine.Put: does not cover the empty key, for the same reason.
- LSMEngine.LSMEngine.Delete: does not cover the empty key, for the same reason.
- `Get` and `Scan` are single steps of the engine; a read that overlaps a flush or spans several manifest records is not modelled.
- The number of live files is taken to be within the capacity of the table cache; an evicted file would be skipped by reads.
- The write-ahead log is synced on every write; with `SyncWAL` off a crash may lose acknowledged writes.
- Errors of the file system other than crashes: a failed manifest append, flush, log removal, rollback or journal write.
- A torn manifest record, which makes opening fail; manifest appends are atomic in runs, and `ManifestLog.Recover` states what reading a damaged file returns.
- Size-tiered and time-window compaction: they pass files outside the level invariants.
- Engine.MetaOf: the file size recorded in the manifest is 0 in runs. The reader finds the footer 48 bytes before that size (internal/sstable/reader.go:43) and compaction is triggered by it; the model opens a table by its own length and compacts at any time.
- The log number in the manifest is recorded but never read back to decide anything, so it appears in runs without a role.
- Write-stall timeouts, background-error flags, events, statistics, timers and health checks.
- Sequence numbers and file ids are unbounded in the engine; the formats state their 64-bit fields.
- Skip lists: an equal key and sequence number with a different type keeps the old type, as in the code; the engine never inserts one.
- Table reads at a sequence number below the newest version of a key whose versions straddle blocks: the code looks at one block only.
- Block lengths that overflow 64-bit integers in a corrupt file.
- The block cache, memory mapping, and the buffering of the log writer: files are byte sequences.
- CRC32, FNV and the bloom hash are arbitrary functions; nothing is claimed about collisions or false-positive rates.
- JSON of journal records and routing plans is taken to read back what was written, which needs keys and values in UTF-8.
- A shard of the cluster is a plain map: that the engine under it answers `Get` for an empty value in a file with "not found" is not carried into pre-images and scans.
- Client writes interleaved with a slot migration: `Migration.MigrateSlot` is stated without them, `Cluster.WriteKeepsAgreement` for a write on a moving slot by itself.
- Raft itself: the order of the committed log and the choice of the newest snapshot at start-up are given.
- The HTTP gateway, authentication, rate limiting, metrics, tracing, peer registry, front end and simulation.
