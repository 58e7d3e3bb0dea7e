# Verified model of any-sync-sdk's projection, storage and sync core

This project models the parts of any-sync-sdk whose correctness depends on
order, crashes or interleaving, and proves what they promise.

- **Records** (`Values`, `Versions`, `Merge`, `Gated`, `Histories`,
  `Convergence`, `Exactness`): a record is a value tree and a compressed `_ver`
  tree. A gated `$set` or `$unset` at any depth is modelled as the code performs
  it, merge around newer finer entries and compaction included. The main results:
  effective versions are a pointwise maximum, so they do not depend on order or
  repeats; all delivery orders of a set of writes agree on the whole tree exactly
  when every path is settled, a condition on the writes alone; and `$set`-only
  histories end as plain overwriting from oldest to newest would exactly when no
  order drops a payload key `*`.
- **Record lifecycle** (`Lifecycle`, `OpEffects`, `Deletion`, `LiveRecords`,
  `Creation`, `Stamps`): what every op and every refusal does to every path;
  creation, modification, sticky tombstones, edits that arrive before the
  creation, the creation marker and the stamps, over whole runs of edits.
- **The apply transaction** (`ApplySeq`, `Replay`, `Reindex`): the apply-sequence
  axis, the consumer that pages it, crash-safe replay, and the rebuild after a
  handler change.
- **Space stores** (`SpaceStore`, `SpaceProgress`): the reference-counted
  lifecycle as a protocol of any number of goroutines: what it never does, and
  what it achieves.
- **Sync** (`SyncCounting`, `SyncExactness`, `SyncPass`, `PeerLimit`, `ParkBuffer`,
  `GlobalBatch`): what the close-time gate counts, one pass of the sync job, the
  per-peer budget, the retry buffer and the coalescing queue.
- **Algorithms** (`AccountValues`, `Coalesce`, `Profiles`, `Invites`).

## Reading the model

Where the code overwrites fields, a class does the same and each method is
proved equal to a specification function (`Record.GatedSet` to `Put`,
`Collection.ApplyRecordChange` to `Modify`, `Store.ApplyChange` to `Step`,
`StorageProvider.Close` to `Step`, and so on). The properties are proved of those
functions, over all runs. Each branch of such a function is also told by what it
achieves, without naming the function: for records in `OpEffects`, elsewhere in
lemmas whose names end in `Means`, `Shows` or `Iff`. Protocols are state machines:
each section the code runs under a mutex, each transaction and each external
effect is one step, and a run is any sequence of steps of any number of
goroutines.

Versions are natural numbers with 0 for "no version"; only their order matters.
A `_ver` level without a default has default 0. Op paths are what `validatePath`
lets through, as far as the results depend on it: not empty and without the
segment `*` (`Basics.Nameable`); payload values hold any keys. The creation
marker `_ver.id` is kept apart from the `_ver` tree of the fields, which no field
path can name. Database transactions are atomic, queries are ordered, and an upsert that
modifies nothing stores nothing.

## Where the code does not do what its comments say

Each of these is proved with a run that fails, from the empty state where there
is one. A lemma whose name ends in `Iff` (and `AccountValues.DiffReachesFixpoint`)
gives the exact condition.

- A level's default lives under the key `*` of `_ver`, so a merge takes a payload
  key `*` for an enumerated entry and drops it
  (internal/crdt/apply.go:225-235; internal/crdt/validate.go:59-95 bars the key in
  op paths only). Three `$set`s in two orders end differently
  (`Exactness.StarKeyIsLost`). `$set`-only histories agree, and agree with plain
  overwriting, exactly when no order drops such a key (`Exactness.SetsAgreeIff`,
  `Exactness.OverwriteIff`), which payloads without the key guarantee
  (`Convergence.PlainPayloadsLoseNothing`).
- Sets and unsets do not always converge: `Exactness.AgreeIffSettled` says
  exactly when they do; `Exactness.ScalarAboveUnset`,
  `Exactness.UnsetLeavesShell` and `Exactness.StarKeyIsLost` are the three ways
  they fail.
- `opTook` does not report a broad write that lands around a newer finer one
  (`Histories.LandsUnreported`; `Histories.RunReportedIff` over any run,
  `Gated.ReportedIff` for one write).
- The creation marker depends on the delivery order unless the oldest upsert is
  older than every delete (`Deletion.MarkerOrderFreeIff`), because a tombstone
  keeps the marker of the first edit it saw and a delete never lowers a live one.
  Where only deletes create the record, the oldest one must upsert too or be the
  only one (`Deletion.MarkerOfDeletesOrderFreeIff`).
- `_addSeq` is documented as never regressing; a record created under AddSeq 2
  and deleted under AddSeq 1 goes from 2 to 1 (`Stamps.AddSeqFallsExample`), since
  the tombstone is built afresh. `Stamps.AddSeqFallsIff` says which runs do.
- A tombstone that absorbs an older upsert changes without a new `_applySeq`
  (`Stamps.SilentExample`; over any run, `Stamps.SilentIff`), so `ChangedSince`
  does not see it.
- Purging an object that was never announced takes its read-state row with the
  only record of that row's sequence; after a crash the sequence is handed out
  again (`ApplySeq.MarkSeqHandedOutTwice`, `ApplySeq.PurgeForgetsIff`; over any
  run, `ApplySeq.MarkHandedOutAgainIff`).
- A rebuild interrupted between its reset and its wipe is replayed over the old
  rows when the next load registers the stored handler versions, and every change
  counts twice (`Reindex.RollbackReplaysTwice`). So is one whose wipe fails to
  drop a collection, which is logged and passes for success: the load replays over
  the rows left and stamps them current (`Reindex.FailedDropReplaysTwice`).
  `Reindex.UnwipedRowsIff` says when a load starts from exact rows.
- A rebuild loses device-local values for good: those of a dataset not registered
  when it captures, and those whose restore is refused
  (`Reindex.UnregisteredLeafIsLost`, `Reindex.RefusedLeafIsLost`).
  `Reindex.LoadKeepsIff` says for any load which values come through.
- When clearing the in-flight mark fails, the next load puts captured local
  values back over newer ones, and if it finds a stale version it wipes what was
  written to any other leaf (`Reindex.FailedFinishUndoesAWrite`,
  `Reindex.FailedFinishLosesAWrite`). `Reindex.WriteAfterFailedFinishIff` says
  which writes come through.
- The close-time gate reads the parked trees before the queue and the inline
  syncs, each under its own lock. A tree that a round syncs inline, stores and
  parks between the reads is counted nowhere, and its boot replay is skipped
  (`SyncCounting.GateMissesInlineTree`). `SyncCounting.GateSoundIff` says when a
  zero sum is right; about the trees the job fetched it always is
  (`SyncCounting.GateClearsJobTrees`).
- An edit that reaches a record before its creating upsert is skipped for good, on
  purpose; so replicas that received the same edits can differ
  (`Creation.EarlyEditIsLost`). All orders agree exactly when what the upserts write covers what the
  other edits write (`Creation.VersionsOrderFreeIff`).
- Mirroring account values reaches a fixpoint exactly when an op may name every
  path to write and no batch fails; a carrier property `*` is diffed anew at every
  pass (`AccountValues.DiffReachesFixpoint`, `AccountValues.StarPropertyNeverSettles`).
- `Coalesce` multiplies seconds into 64-bit nanoseconds, so changes 584 years
  apart group (`Coalesce.FarApartChanges`, `Coalesce.WindowHoldsIff`).
- `DecodeInvite` accepts an empty space id, which `EncodeInvite` refuses
  (`Invites.DecodesEmptySpaceId`); `Invites.DecodedIsEncodableIff` says that
  nothing else it accepts is refused, but for a key that does not marshal.

## Model

| member | source | states |
|---|---|---|
| `Versions.GateVersion` | internal/crdt/versions.go:229-266 | the walk down `_ver` finds the one version that gates the path, or the subtree with finer entries |
| `Versions.GetVersion` | internal/crdt/versions.go:57-86 | the lookup is the greatest effective version at or below the path |
| `Versions.MaxVersionOf` | internal/crdt/versions.go:90-108 | the greatest version in a node, its default included, in any visiting order |
| `Versions.GateMeaning` | internal/crdt/versions.go:229-266 | what a gate says is the effective version of every path at and below the one written |
| `Versions.SubBounds` | internal/crdt/versions.go:57-86 | a lookup is an upper bound of every effective version below the path |
| `Versions.SubAttained` | internal/crdt/versions.go:57-86 | and some path below attains it |
| `Versions.PutNodeEv` | internal/crdt/versions.go:186-220 | writing a node splits collapsed ancestors and pushes defaults down so that no other path's version moves |
| `Versions.PutNodeLayered` | internal/crdt/versions.go:134-220 | explicit entries stay at least as new as their level's default |
| `Versions.CompactEv` | internal/crdt/versions.go:339-397 | compaction changes no effective version |
| `Versions.CompactLayered` | internal/crdt/versions.go:277-310 | compaction keeps entries at least as new as their defaults |
| `Versions.CompactIsTight` | internal/crdt/versions.go:277-310 | what compaction leaves split has something below newer than its default |
| `Values.SetNestedAt` | internal/crdt/apply.go:457-474 | what every path holds after `setNested`, scalars on the way replaced by objects |
| `Values.UnsetNestedAt` | internal/crdt/apply.go:476-496 | what every path holds after `unsetNested`, which stops at a scalar |
| `Merge.MergeEv` | internal/crdt/apply.go:162-252 | a merge raises every version below to at least the write's and lowers none |
| `Merge.MergeLayered` | internal/crdt/apply.go:162-252 | the merged node keeps entries at least as new as its default |
| `Merge.MergeKind` | internal/crdt/apply.go:162-252 | newer entries keep their values, positions above them stay objects, the rest takes the written value, but for the key `*` where the level has a default |
| `Merge.MergeCollapses` | internal/crdt/apply.go:228-252 | the node collapses to one version exactly when nothing below is as new as the write |
| `Gated.Record.GatedSet` | internal/crdt/apply.go:76-99 | the in-place set leaves exactly the record `Put` gives |
| `Gated.Record.GatedUnset` | internal/crdt/apply.go:116-138 | the in-place unset leaves exactly the record `Put` gives |
| `Gated.Record.Inc` | internal/crdt/apply.go:288-301 | the in-place increment leaves exactly the record `Increment` gives |
| `Gated.Record.IncGated` | internal/crdt/apply.go:303-317 | and the versioned one the record `IncrementGated` gives |
| `Gated.IncrementMeans` | internal/crdt/apply.go:288-301 | what every path holds after an increment: the sum at its own, objects above, nothing else moved, no version moved; gated or not a number, nothing changes |
| `Gated.IncrementGatedMeans` | internal/crdt/apply.go:303-317 | the versioned increment leaves the same fields and puts its version on the path |
| `Gated.IncrementsAddUp` | internal/crdt/apply.go:288-301 | plain increments add up in any order to the deltas newer than the path's version |
| `Gated.IncrementGatedIsASet` | internal/crdt/apply.go:303-317 | a versioned increment is a gated set of the sum |
| `Gated.PutEv` | internal/crdt/apply.go:76-138 | a write raises the versions at and below its path to at least its own and moves no other |
| `Gated.PutValid` | internal/crdt/apply.go:140-161 | every write keeps explicit entries at least as new as their defaults |
| `Gated.PutGated` | internal/crdt/apply.go:76-86 | a write not newer than the version at its path changes nothing |
| `Gated.PutKind` | internal/crdt/apply.go:76-138 | what every path holds after a write that lands, dropped keys included |
| `Gated.PutNewest` | internal/crdt/apply.go:76-99 | a write newer than everything around it is a plain overwrite exactly when its value holds nothing under a key the merge drops |
| `Gated.ReportedIff` | internal/crdt/controller.go:2027-2044 | `opTook` reports a write exactly when nothing at or below its path was newer |
| `Gated.CompactInvisible` | internal/crdt/versions.go:339-397 | compaction changes no field and no lookup |
| `Histories.RunTracks` | internal/crdt/apply.go:76-138 | after any history every path's version is the greatest of the writes that cover it |
| `Histories.TracksSub` | internal/crdt/versions.go:41-86 | a lookup reaches a version exactly when a write at, above or below the path does |
| `Histories.RunKind` | internal/crdt/apply.go:162-252 | in every order a path holds what the newest covering write says, or an object, or nothing where a merge may drop it; and which of them is settled by the writes in the cases named |
| `Histories.CoveredWrite` | internal/crdt/apply.go:80-86 | a write already covered at its path changes nothing |
| `Histories.RunReportedIff` | internal/crdt/controller.go:2027-2044 | after any run a write is reported exactly when none at, above or below its path was newer |
| `Histories.LandsUnreported` | internal/crdt/controller.go:2027-2044 | a run whose second write lands a field and is not reported |
| `Convergence.VersionsConverge` | internal/crdt/apply.go:76-138 | all versions are the same in every order, with repeats and compactions |
| `Convergence.RepeatIsNoOp` | internal/crdt/apply.go:76-138 | a write delivered again later changes nothing |
| `Convergence.SettledConverge` | internal/crdt/apply.go:140-252 | runs that settle every path leave the same tree |
| `Convergence.PlainPayloadsLoseNothing` | internal/crdt/apply.go:225-235 | payloads without the key `*` are never dropped from |
| `Convergence.DifferAtShellsOnly` | internal/crdt/apply.go:249-251 | in every case two orders differ at a path only in an object, or a dropped key `*`, against the newest covering value |
| `Convergence.SetsConverge` | internal/crdt/apply.go:140-252 | `$set`-only histories that lose no key `*` have one outcome |
| `Convergence.SetsAreLastWriterWins` | internal/crdt/apply.go:140-252 | and it is plain overwriting in ascending version order |
| `Convergence.InOrderOverwrites` | internal/crdt/apply.go:76-99 | delivered from oldest to newest, gating never intervenes; overwriting leaves under a key `*` what the newest covering write says |
| `Convergence.LeavesAreLastWriterWins` | internal/crdt/apply.go:76-138 | with sets and unsets, and no scalar above a named path, each leaf no merge may drop is the newest covering write's |
| `Convergence.PrunedConverge` | internal/crdt/apply.go:476-496 | and records whose leaves no merge drops agree once empty objects are erased |
| `Exactness.AgreeIffSettled` | internal/crdt/apply.go:162-252 | all orders of a set of writes agree on the tree exactly when every path is settled, payload keys `*` included |
| `Exactness.QuietDelivery` | internal/crdt/apply.go:476-496 | some order leaves an unsettled path as the newest covering write says |
| `Exactness.LoudDelivery` | internal/crdt/apply.go:249-251 | and another leaves an object there |
| `Exactness.LossyDelivery` | internal/crdt/apply.go:225-235 | and, where a merge may drop a key, another leaves nothing there |
| `Exactness.SetsAgreeIff` | internal/crdt/apply.go:140-252 | all orders of `$set`s agree exactly when none drops a key `*` |
| `Exactness.OverwriteIff` | internal/crdt/apply.go:140-252 | and exactly then all leave what overwriting from oldest to newest leaves |
| `Exactness.PrunedAgreeIff` | internal/crdt/apply.go:476-496 | with unsets, and no scalar above a named path, the orders agree up to empty objects exactly when none drops a leaf |
| `Exactness.StarKeyIsLost` | internal/crdt/apply.go:225-235 | three `$set`s whose two orders keep and drop a payload key `*` |
| `Exactness.ScalarAboveUnset` | internal/crdt/apply.go:489-492 | a scalar and a newer unset below it end differently in the two orders |
| `Exactness.UnsetLeavesShell` | internal/crdt/apply.go:249-251 | so do a finer set followed by unsets, up to an empty object |
| `Lifecycle.Collection.ApplyRecordChange` | internal/crdt/controller.go:1405-1455 | one edit leaves exactly the row, result and rejection `Modify` gives, and no other row moves; what that is for every op and refusal, `OpEffects` says |
| `Lifecycle.RunOps` | internal/crdt/controller.go:1796-1907 | the ops of an edit run in place, in order, and compact once |
| `Lifecycle.RunOp` | internal/crdt/apply.go:34-56 | each op leaves exactly the record `ApplyOp` gives, which the `OpEffects` rows tell path by path |
| `Lifecycle.RunWrites` | internal/crdt/apply.go:58-114 | a multi-field payload is the run of its single-path writes |
| `OpEffects.SetWrites` | internal/crdt/apply.go:58-74 | after a `$set` every path at and below is at its version or a newer one, keeps what was as new, is an object above it, and else holds the value's part; newer than all of it, the set leaves the value, exactly when the merge drops none of it |
| `OpEffects.UnsetWrites` | internal/crdt/apply.go:101-114 | likewise a `$unset`: newer than everything at and below, it leaves nothing there, at its version |
| `OpEffects.SetManyWrites` | internal/crdt/apply.go:58-70 | each entry of a multi-field `$set` as if it were alone |
| `OpEffects.UnsetManyWrites` | internal/crdt/apply.go:101-112 | each entry of a multi-field `$unset` as if it were alone |
| `OpEffects.OtherPaths` | internal/crdt/apply.go:76-138 | a path no entry covers keeps its version and what it holds, but for becoming an object above an entry that lands |
| `OpEffects.IncWrites` | internal/crdt/apply.go:288-317 | what the two counter ops leave at their path, and every path's version |
| `OpEffects.EditVersions` | internal/crdt/controller.go:1890-1900 | after an edit's ops a path is at the edit's version, or a newer one, exactly when one of them covers it |
| `OpEffects.FirstOpStands` | internal/crdt/apply.go:80-86 | of two ops of one edit the first stands: a later one on a path it covers changes nothing |
| `OpEffects.LiveEditVersions` | internal/crdt/controller.go:1932-1967 | for any handler, a live record's path moves to the edit's version exactly when the handler lets an op or a key cover it, and the edit has written exactly when it lets anything through |
| `OpEffects.SetKeys` | internal/crdt/controller.go:1948-1967 | of a multi-field `$set` every key let through, with the op or by itself, is written, and every other keeps value and version |
| `OpEffects.UnsetKeys` | internal/crdt/controller.go:1948-1967 | and of a multi-field `$unset` |
| `OpEffects.RefusedPathKept` | internal/crdt/controller.go:1932-1967 | a path apart from everything the handler lets through keeps value and version, counters included |
| `OpEffects.RefusedEditKeepsRecord` | internal/crdt/controller.go:1932-1965 | an edit refused in every op and key leaves fields and versions as they were and has not written |
| `OpEffects.RejectedRowStays` | internal/crdt/controller.go:1801-1880 | which edits are rejected and why; a refused creation or delete, and a strict edit of an absent record, leave the row as it was |
| `OpEffects.WroteIff` | internal/crdt/controller.go:1396-1404 | an edit has written exactly when it created, deleted, or changed a live record by something let through |
| `Deletion.TombstoneIsSticky` | internal/crdt/controller.go:1801-1880 | under any edits and any handler a tombstone stays one; its marker only falls, to at most every upsert seen |
| `Deletion.DeletedIffSomeDelete` | internal/crdt/controller.go:1803-1826 | in every order, and for any handler, a record is deleted exactly when some edit deletes it and the handler lets it |
| `Deletion.MarkerBounds` | internal/crdt/apply.go:372-430 | the marker is the version of a creating edit, and no plain upsert is older |
| `Deletion.MarkerIsOldestUpsert` | internal/crdt/apply.go:414-430 | an upsert older than every delete fixes the marker in every order |
| `Deletion.MarkerOrderFreeIff` | internal/crdt/apply.go:372-430 | all orders agree on the marker exactly when the oldest plain upsert is older than every delete |
| `Deletion.MarkerOfDeletesOrderFreeIff` | internal/crdt/controller.go:1803-1826 | without plain upserts, exactly when the oldest delete upserts too or is the only one |
| `LiveRecords.LiveRecordIsARun` | internal/crdt/controller.go:1828-1907 | a record created first and never deleted holds what its history of gated writes leaves |
| `LiveRecords.LiveRecordsConverge` | internal/crdt/controller.go:1828-1907 | live records that received the same edits, the creation first, agree on versions, marker and content, under the conditions of the histories |
| `LiveRecords.HistoryWrites` | internal/crdt/apply.go:58-114 | a record's history holds exactly the writes of its edits |
| `Creation.RecordFromCreation` | internal/crdt/controller.go:1420-1434 | a record holds what its edits from the first upsert on leave; earlier ones are skipped |
| `Creation.EarlyEditsIff` | internal/crdt/controller.go:1420-1434 | a delivery leaves the versions a creation-first one leaves exactly when what it wrote from the creation on covers all the writes |
| `Creation.VersionsOrderFreeIff` | internal/crdt/controller.go:1420-1434 | wherever the creation stands, all orders agree on the versions exactly when the upserts' writes cover the other edits' |
| `Creation.ContentOrderFree` | internal/crdt/apply.go:140-252 | and then on the content, under the conditions of the histories |
| `Creation.EarlyEditIsLost` | internal/crdt/controller.go:1420-1434 | an edit and a creation whose two orders keep and lose the edit |
| `Stamps.AddSeqRegressesIff` | internal/crdt/apply.go:330-340 | one edit lowers `_addSeq` exactly when it deletes a live record with an older AddSeq |
| `Stamps.AddSeqFallsIff` | internal/crdt/apply.go:324-340 | over any run it falls exactly when the first delete has an older AddSeq than an edit the record saw |
| `Stamps.AddSeqFallsExample` | internal/crdt/controller.go:1803-1826 | a create and a delete that take it from 2 to 1 |
| `Stamps.ChangeWithoutApplySeqIff` | internal/crdt/controller.go:1870-1880 | one edit changes a record without its `_applySeq` exactly when a tombstone absorbs an older upsert |
| `Stamps.SilentIff` | internal/crdt/controller.go:1870-1880 | over any run, exactly when a plain upsert after a delete is older than everything that counted for the marker |
| `Stamps.SilentExample` | internal/crdt/controller.go:1870-1880 | a delete and an older upsert: the marker moves, the apply sequence does not |
| `Stamps.StampIsGreatest` | internal/crdt/apply.go:324-340 | until the first delete the stamp is the greatest AddSeq the record saw |
| `Stamps.FirstDeleteStands` | internal/crdt/apply.go:372-430 | the tombstone names the first delete's version whatever follows, and its `_addSeq` is the greatest among that delete's and those of the upserts that lowered the marker since |
| `Stamps.MarkerIsLeast` | internal/crdt/apply.go:372-430 | the marker is the least version among the edits that count for it |
| `ApplySeq.Store.Next` | internal/crdt/applyseq.go:60-93 | lazily seeded, then strictly increasing |
| `ApplySeq.Store.PersistMeta` | internal/crdt/meta.go:154-177 | sets the AddSeq watermark, raises the apply sequence, keeps the purge mark |
| `ApplySeq.Store.ApplyChange` | internal/crdt/controller.go:1168-1268 | stamps, watermarks and mirrors move together, or roll back with the sequence spent |
| `ApplySeq.Store.PurgeObject` | internal/spaceobjects/store.go:2005-2036 | the read-state row goes first, then the row; the mark is stamped with a fresh sequence exactly when the object was announced here |
| `ApplySeq.Store.ResetForReindex` | internal/crdt/reindex.go:198-206 | leaves exactly the space the re-index step gives |
| `ApplySeq.AddSeqMoves` | internal/crdt/reindex.go:198-220 | after any run, the next event moves an object's AddSeq watermark only so: a re-index takes it and its mirror to 0, a commit raises it to the change's; a re-index leaves apply sequence, purge mark, stamps and read marks |
| `ApplySeq.CommitShows` | internal/crdt/controller.go:1168-1268 | a commit puts watermark, mirror and the stamps of exactly the records it wrote at one sequence above everything before, and moves no other object |
| `ApplySeq.DrawsShow` | internal/crdt/applyseq.go:60-93 | a rollback spends one sequence and changes nothing else; a read mark carries the one drawn for it |
| `ApplySeq.MemoryStepsShow` | internal/crdt/applyseq.go:60-77 | seeding, loading, evicting and crashing touch no disk, and what they leave in memory |
| `ApplySeq.DropsShow` | internal/spaceobjects/store.go:2334-2356 | dropped records lose their stamps and nothing else moves |
| `ApplySeq.PurgeAnnouncesIff` | internal/spaceobjects/store.go:2005-2036 | a purge is announced exactly for an object that has a `_meta` row |
| `ApplySeq.Store.ChangedSince` | internal/crdt/precondition.go:31-60 | refused for the shared collection; the watermark shortcut never answers differently from the scan of the object's stamps |
| `ApplySeq.FreshSeq` | internal/spaceobjects/changefeed.go:92-106 | a sequence handed out exceeds every watermark, read mark and stamp on disk |
| `ApplySeq.InvRun` | internal/crdt/applyseq.go:24-43 | every run keeps the allocator ahead, stamps covered by watermarks, mirrors covering stamps, and watermarks distinct |
| `ApplySeq.WatermarksOnlyRise` | internal/crdt/meta.go:147-177 | no watermark is rewound and no purge mark taken back, in any run with crashes |
| `ApplySeq.CommitExceedsHistory` | internal/crdt/controller.go:1172-1189 | a commit after any run exceeds every watermark and stamp that was on disk, and every read mark no purge took unrecorded |
| `ApplySeq.PurgeForgetsIff` | internal/spaceobjects/store.go:2005-2036 | exactly when a purge and a crash right after it let a read mark's sequence be handed out again |
| `ApplySeq.MarkHandedOutAgainIff` | internal/crdt/applyseq.go:60-93 | over any run, exactly when the allocator is seeded from a disk on which nothing reaches the mark's sequence and a sequence is drawn then or later |
| `ApplySeq.MarkSeqHandedOutTwice` | internal/spaceobjects/store.go:2005-2036 | a run in which they do |
| `ApplySeq.PurgeSurfacesAndSticks` | internal/crdt/meta.go:445-460 | a purge surfaces above everything announced and stays deleted |
| `ApplySeq.PollKeeps` | internal/crdt/meta.go:196-246 | a page under any limit can be continued from its last entry, and advances |
| `ApplySeq.NothingIsMissed` | internal/crdt/meta.go:196-246 | a consumer whose next page is empty knows every announced object as it is |
| `Replay.Replica.ReplayLocked` | internal/object/object.go:840-961 | a replay that dies anywhere leaves what the same number of commits leaves |
| `Replay.PassKeeps` | internal/crdt/controller.go:1227-1268 | rows always equal one pass over the changes up to the watermark |
| `Replay.ExactlyOnce` | internal/crdt/controller.go:1169-1268 | after any crashes one completed load leaves each change applied exactly once, idempotent or not |
| `Replay.EachChangeOnce` | internal/crdt/controller.go:1169-1268 | with rows that list what took effect: every payload of the tree once, in log order, and nothing else |
| `Reindex.Controller.constructor` | internal/crdt/meta.go:370-383 | loading reads the watermarks, the stale verdict and a rebuild in flight off the row |
| `Reindex.Controller.ResetForReindex` | internal/crdt/reindex.go:198-206 | rewinds the AddSeq watermark and puts the leaves on the row in one write |
| `Reindex.Controller.ReindexPrepare` | internal/spaceobjects/reindex.go:87-107 | a rebuild in flight re-uses its leaves, a new one captures those of registered datasets it can read |
| `Reindex.Controller.PersistVersions` | internal/crdt/reindex.go:214-220 | stamps versions, clears the mark, and leaves nothing stale |
| `Reindex.RebuildsAreSafe` | internal/crdt/reindex.go:175-220 | through loads, crashes and writes in which every wipe drops what it must, rows hold each change up to the watermark once or are marked for wiping |
| `Reindex.LoadedObjectIsWhole` | internal/spaceobjects/store.go:2716-2831 | a loaded object shows each change once, and each local value exactly when it is not accounted as lost |
| `Reindex.LossesAreAccounted` | internal/spaceobjects/reindex.go:87-118 | in every run a local value is in the rows or on the `_meta` row exactly when it is not accounted as lost |
| `Reindex.LoadOutcome` | internal/spaceobjects/reindex.go:87-118 | what the rows hold after a load, whatever its capture, wipe and restore fail at, and in whatever order changes arrive |
| `Reindex.LoadKeepsIff` | internal/spaceobjects/reindex.go:120-177 | a load keeps a local value exactly when the recorded capture has it, or the new one takes it, and its restore is not refused; or when the wipe spares it or fails to drop it |
| `Reindex.LoadWipesIff` | internal/crdt/reindex.go:36-50 | a load wipes exactly when some dataset it registers was written by another version, older or newer; else it replays over the rows |
| `Reindex.WipeTakes` | internal/spaceobjects/reindex.go:311-368 | a wipe takes all rows and every leaf but those in space collections of unregistered datasets; one that dies half-way takes some |
| `Reindex.LoadedTakes` | internal/crdt/controller.go:1168-1268 | a replaying or loaded object takes the next change once, with its AddSeq; a loaded one takes local values of the datasets it registers only |
| `Reindex.UnregisteredLeafIsLost` | internal/spaceobjects/reindex.go:124-128 | a run that loses the value of a dataset no longer registered |
| `Reindex.RefusedLeafIsLost` | internal/spaceobjects/reindex.go:422-442 | a run that loses a captured value whose restore is refused |
| `Reindex.WipedUnderZero` | internal/crdt/reindex.go:179-185 | wiped rows sit under watermark 0 until a change is re-applied |
| `Reindex.ApplySeqNeverRewinds` | internal/crdt/reindex.go:193-197 | the apply-sequence watermark is never rewound |
| `Reindex.UnwipedRowsIff` | internal/spaceobjects/store.go:2723-2793 | a load replays over exact rows exactly when it finds a stale version and its wipe leaves no row, or finds none and exact rows; otherwise no replay repairs them |
| `Reindex.RollbackReplaysTwice` | internal/spaceobjects/store.go:2723-2793 | otherwise a change counts twice |
| `Reindex.FailedDropReplaysTwice` | internal/spaceobjects/store.go:2334-2356 | a run in which a stale load whose drop fails counts a change twice and declares the rows current |
| `Reindex.FailedFinishUndoesAWrite` | internal/spaceobjects/reindex.go:112-118 | a run from the fresh state in which the load after a failed finish overwrites a newer local value |
| `Reindex.FailedFinishLosesAWrite` | internal/spaceobjects/reindex.go:91-92 | a run in which such a load, finding a stale version, re-uses the old capture and wipes a value written since |
| `Reindex.WriteAfterFailedFinishIff` | internal/spaceobjects/reindex.go:87-118 | a value written then comes through exactly when the load restores the same one, or restores none and does not take it away |
| `SpaceStore.StorageProvider.AcquireTurn` | internal/anysyncx/storage.go:278-312 | one turn of acquire, with the handle it hands out |
| `SpaceStore.StorageProvider.OpenEntry` | internal/anysyncx/storage.go:314-331 | an open ends with the first handle or with the entry gone |
| `SpaceStore.StorageProvider.Close` | internal/anysyncx/storage.go:84-87 | a handle's release leaves exactly the state the protocol's step gives; `SpaceStore.ReleaseCloses` and `SpaceStore.WaitEndsIff` say what that achieves |
| `SpaceStore.ReleaseCloses` | internal/anysyncx/storage.go:334-356 | a handle releases once; the last release of an unclaimed open store leaves its goroutine about to close the database, any other only counts down |
| `SpaceStore.WaitEndsIff` | internal/anysyncx/storage.go:341-347 | in every reachable state a waiting delete goes on without a timeout exactly when no handle is live, and can time out only under one |
| `SpaceStore.OpenIsHeld` | internal/anysyncx/storage.go:334-364 | no database stays open without a live handle or a goroutine at work on it |
| `SpaceStore.StorageProvider.ClaimTurn` | internal/anysyncx/storage.go:506-541 | one turn of a claim: a placeholder, the open entry, or nothing |
| `SpaceStore.StorageProvider.ReleaseTurn` | internal/anysyncx/storage.go:479-501 | giving a claim back closes a database nobody holds |
| `SpaceStore.InvRun` | internal/anysyncx/storage.go:278-603 | every interleaving keeps the protocol's invariants |
| `SpaceStore.OneOpenAndExactRefs` | internal/anysyncx/storage.go:278-364 | at most one open database per space, and reference counts equal live handles |
| `SpaceStore.ClosedOnce` | internal/anysyncx/storage.go:334-364 | a close acts on an open database and no other goroutine is about to close it |
| `SpaceStore.ShutStays` | internal/anysyncx/storage.go:334-364 | a closed database is never opened or closed again |
| `SpaceStore.ClosedUnderHandle` | internal/anysyncx/storage.go:431-460 | only a delete that stopped waiting or a shutdown closes under a live handle |
| `SpaceStore.FileRemovedAfterClose` | internal/anysyncx/storage.go:437-460 | the file goes only when no database of the space is open |
| `SpaceStore.NoHandleDuringClaim` | internal/anysyncx/storage.go:387-410 | no handle to a space is handed out while a claim on it lasts |
| `SpaceProgress.AcquireMeans` | internal/anysyncx/storage.go:278-312 | a turn of acquire hands out a handle exactly to an open shared store, and starts an open exactly where there is none, before a shutdown |
| `SpaceProgress.ClaimMeans` | internal/anysyncx/storage.go:506-541 | a turn of a claim takes it exactly where there is no store or a shared one, before a shutdown |
| `SpaceProgress.NobodyIsStuck` | internal/anysyncx/storage.go:278-603 | no deadlock: every goroutine can take its next step, which brings it nearer to its end, but a shutdown that waits for one that can |
| `SpaceProgress.ShutdownTakesAll` | internal/anysyncx/storage.go:565-603 | however goroutines interleave, a finished shutdown has taken every database in the map when it began, and nothing opens after it began |
| `SpaceProgress.FilesFollow` | internal/anysyncx/storage.go:437-460 | every open database has its file, and a file goes only by a delete of its space whose removal succeeds |
| `SyncCounting.StoredIsCounted` | internal/anysyncx/treesyncer.go:575-613 | a stored tree is materialized, deleted or counted, in every interleaving |
| `SyncCounting.ZeroMeansMaterialized` | internal/anysyncx/treesyncer.go:575-587 | where both counts are zero at one moment, nothing stored is missing from the projection |
| `SyncCounting.GateClearsJobTrees` | sdk.go:879-884 | with the job closed, a zero sum over the gate's separate reads is right about every tree the job fetched |
| `SyncCounting.GateSoundIff` | sdk.go:879-884 | and about any tree exactly when no sync parks it, stored and unprojected, between the first read and the last |
| `SyncCounting.GateMissesInlineTree` | internal/anysyncx/treesyncer.go:564-587 | a run in which an inline sync does |
| `SyncCounting.JobHolds` | internal/anysyncx/syncjob.go:366-389 | a tree the job fetched is queued or parked until it is in the projection or deleted |
| `SyncCounting.WaitSawThemFinish` | internal/anysyncx/syncjob.go:187-200 | a wait that returned nil has seen every item finish, or the job closed |
| `SyncCounting.NilOnClose` | internal/anysyncx/syncjob.go:187-200 | a run in which a close makes it return nil with its item queued |
| `SyncCounting.FinishedOnce` | internal/anysyncx/syncjob.go:337-348 | an item finishes once and never returns to the queue |
| `SyncCounting.SettleKeeps` | internal/anysyncx/treesyncer.go:289-330 | parking, clearing and leaving queued keep every stored tree counted |
| `SyncExactness.ParkedIff` | internal/anysyncx/treesyncer.go:598-613 | after any run a tree is parked exactly when some step marked it and none since took the mark off |
| `SyncExactness.MissingStep` | internal/anysyncx/treesyncer.go:591-606 | and counts as missing once a handling since said so |
| `SyncExactness.QueuedIff` | internal/anysyncx/syncjob.go:337-348 | a tree is queued exactly when it was added and no worker has left with it since |
| `SyncExactness.FinishedIff` | internal/anysyncx/syncjob.go:337-348 | an item has finished exactly when a worker has left with it |
| `SyncExactness.DoneIff` | internal/anysyncx/treesyncer.go:289-330 | storage, projection and deletion hold exactly what some handling did |
| `SyncExactness.BeginWorkMeans` | internal/anysyncx/syncjob.go:239-278 | a worker takes up a queued tree exactly when the job is open and no other has it |
| `SyncExactness.WaitMeans` | internal/anysyncx/syncjob.go:187-200 | a wait ticks off exactly the finished items, and is an error only when its context ends it |
| `SyncExactness.EverySyncEnds` | internal/anysyncx/syncjob.go:325-389 | whatever a handling comes to, its goroutine's own steps end it and take the tree off its count |
| `SyncPass.SyncJob.Pass` | internal/anysyncx/syncjob.go:239-278 | a pass empties the queue and finishes, in this order: the trees the first answer names among two or more queued, if there were any those the second names among two or more left, the missing ones whose fetch fails, the definitions in storage, the other trees in storage, the changed and the retried ones; it replays those in storage |
| `SyncPass.GroupsMean` | internal/anysyncx/syncjob.go:250-276 | which of these groups a tree is in, from its kind, its fetch and its root's type |
| `SyncPass.PickedInOrder` | internal/anysyncx/syncjob.go:281-292 | within a group trees come in queue order |
| `SyncPass.NamedInOrder` | internal/anysyncx/syncjob.go:298-321 | and the trees an answer names in the answer's order |
| `SyncPass.SyncJob.StorageGroups` | internal/anysyncx/syncjob.go:250-271 | after the missing trees are fetched, those that are not finish, then the definitions in storage, then the rest; the others stay |
| `SyncPass.SyncJob.MaterializeGroup` | internal/anysyncx/syncjob.go:255-271 | the fetched trees split by root type, definitions first |
| `SyncPass.SyncJob.Add` | internal/anysyncx/syncjob.go:137-185 | a round queues every tree it names, once, behind those queued; a parked retry the diff offers becomes a fetch or a ping; it waits for the whole queue |
| `SyncPass.AddMeans` | internal/anysyncx/syncjob.go:137-185 | a new tree is fetched when the diff misses it, pinged when it changed, else retried; of those queued only an unfetched retry changes its kind |
| `SyncPass.SyncJob.FirstTurn` | internal/anysyncx/syncjob.go:241-248 | the trees an answer names are handled and finish, in its order |
| `SyncPass.SyncJob.TakeFirst` | internal/anysyncx/syncjob.go:298-321 | exactly the queued ids the registry names, in its order, each once, unless the queue has one |
| `SyncPass.SyncJob.Take` | internal/anysyncx/syncjob.go:281-292 | exactly the accepted items, each once, in queue order |
| `SyncPass.SyncJob.Finish` | internal/anysyncx/syncjob.go:339-348 | one item leaves and its channel closes |
| `SyncPass.SyncJob.FetchEach` | internal/anysyncx/syncjob.go:366-389 | fetched trees stay queued with their root's type, the others finish |
| `PeerLimit.Budgeter.AcquireTurn` | internal/anysyncx/peerlimit.go:81-102 | a slot exactly when there is room, the reserved one for first requests |
| `PeerLimit.Budgeter.Release` | internal/anysyncx/peerlimit.go:106-125 | leaves exactly the budget `AfterRelease` gives, within its bounds |
| `PeerLimit.AnswersWiden` | internal/anysyncx/peerlimit.go:117-123 | requests answered in a row widen a narrowed budget by one exactly when they complete four for each slot of its width |
| `PeerLimit.RefusalNarrows` | internal/anysyncx/peerlimit.go:106-116 | a refusal of the current epoch halves the width and ends the streak, a late one only gives its slot back |
| `PeerLimit.AcquireMeans` | internal/anysyncx/peerlimit.go:81-102 | a request takes a slot exactly when fewer than the width are in use, a first one also when one more is; else it waits, and cancelling ends the wait |
| `PeerLimit.WokenTakes` | internal/anysyncx/peerlimit.go:81-125 | after any release every waiter may ask again and gets a slot exactly when there is room |
| `PeerLimit.EveryInterleaving` | internal/anysyncx/peerlimit.go:81-125 | width 1 to 8, at most 9 in use and counted exactly, streak bound, one narrowing per epoch, no lost wake-up |
| `PeerLimit.BurstHalvesOnce` | internal/anysyncx/peerlimit.go:70-73 | a burst refused together halves the width once, in any order |
| `ParkBuffer.Buffer.Park` | internal/anysyncx/peermanager.go:757-785 | the oldest messages make room, and the bounds hold afterwards |
| `ParkBuffer.ExcessIsLeast` | internal/anysyncx/peermanager.go:757-769 | no message is dropped that need not: before each, 256 are held or they and the new one exceed 8 MiB |
| `ParkBuffer.StepsShow` | internal/anysyncx/peermanager.go:757-849 | where parking, taking, sending, failing and overflowing put the messages |
| `ParkBuffer.Buffer.FlushParked` | internal/anysyncx/peermanager.go:814-849 | everything up to the first overflow leaves in order, the rest stays |
| `ParkBuffer.EveryInterleaving` | internal/anysyncx/peermanager.go:757-849 | exact byte count, at most 257 messages, each message in exactly one place, sent in parking order |
| `ParkBuffer.ParkCounts` | internal/anysyncx/peermanager.go:757-769 | parking keeps the byte count exact and within the bound unless one message alone exceeds it |
| `GlobalBatch.Coalescer.Coalesce` | internal/anysyncx/peermanager.go:614-638 | a head update replaces the held one of its object, anything else queues |
| `GlobalBatch.Coalescer.Flush` | internal/anysyncx/peermanager.go:653-664 | the batch goes out in queue order and nothing is left held |
| `GlobalBatch.FlushSendsLatest` | internal/anysyncx/peermanager.go:607-664 | a flush holds the latest update of every object and, in order, all other messages |
| `GlobalBatch.LatestMeans` | internal/anysyncx/peermanager.go:614-638 | the latest update of an object is the last message about a tree of that id |
| `GlobalBatch.KeptMeans` | internal/anysyncx/peermanager.go:614-638 | and every other message is kept, as often and in the order it came |
| `AccountValues.ValuePaths` | internal/accountvalues/accountvalues.go:180-198 | exactly the two-segment value paths under unreserved object heads |
| `AccountValues.CollectSets` | internal/accountvalues/accountvalues.go:106-124 | pass 1 collects exactly the owed sets |
| `AccountValues.CollectUnsets` | internal/accountvalues/accountvalues.go:126-150 | pass 2 adds exactly the owed unsets |
| `AccountValues.Diff` | internal/accountvalues/accountvalues.go:100-165 | exactly the owed writes, each once, in strictly ascending versions; nothing without a carrier |
| `AccountValues.MirrorRecord` | internal/spaceimpl/accountmirror.go:249-292 | an absent row stays absent; otherwise every path ends as specified, in line with the carrier where an op may name it and its batch did not fail |
| `AccountValues.ActedPathsAgree` | internal/accountvalues/accountvalues.go:79-99 | a written path is at the carrier's version, and holds the carrier's value exactly when the merge drops nothing of it |
| `AccountValues.OtherPathsUntouched` | internal/accountvalues/accountvalues.go:85-96 | every other path, those no op may name and those of failed batches included, keeps its value and version |
| `AccountValues.DiffReachesFixpoint` | internal/accountvalues/accountvalues.go:98-99 | after a pass a second diff is empty exactly when an op may name every path that had to be written and no batch of them failed |
| `AccountValues.LeftToDo` | internal/crdt/controller.go:1354-1395 | what a pass leaves to do are the paths no op may name and those of failed batches |
| `AccountValues.ScopeDecides` | internal/accountvalues/accountvalues.go:100-165 | told without the diff: a path takes the carrier's value and version exactly when its property is account-scoped, an op may name it, something is there to mirror, the carrier is newer and its batch does not fail; every other keeps both |
| `AccountValues.StarPropertyNeverSettles` | internal/crdt/validate.go:83-85 | a carrier built by a `$set` and an empty record: each pass finds the property `*` to write and leaves the record as it was |
| `Coalesce.Coalesce` | internal/history/coalesce.go:38-85 | the page is tiled by maximal runs, split exactly where neighbours may not chain or another entry lists the older one as a parent, each run represented as specified |
| `Coalesce.OldestOf` | internal/history/coalesce.go:60-68 | the inner loop finds the maximal run from an entry |
| `Coalesce.GroupOf` | internal/history/coalesce.go:69-81 | the head stands for the group, with the oldest member's parents and cursor |
| `Coalesce.ParentRefs` | internal/history/coalesce.go:47-54 | counts for every id the entries' mentions of it, whose use `Coalesce.LinkMeans` settles |
| `Coalesce.UnionTouched` | internal/history/coalesce.go:106-126 | one entry per record with exactly the ops its parts list |
| `Coalesce.UnionTraces` | internal/history/coalesce.go:128-134 | the duplicate-free union of the traces |
| `Coalesce.UnionStrings` | internal/history/coalesce.go:136-150 | appends what is missing, keeping order and distinctness |
| `Coalesce.GroupsEndWhereLinksDo` | internal/history/coalesce.go:58-84 | a group starts at an entry exactly when it may not chain with its newer neighbour or another entry lists it as a parent |
| `Coalesce.LinkMeans` | internal/history/coalesce.go:47-68 | neighbours link exactly when they may chain and no other entry of the page lists the older one |
| `Coalesce.GroupShows` | internal/history/coalesce.go:69-81 | a group shows its newest member, continues at the oldest one's parents and cursor, counts its members and touches and traces exactly what they do; a change alone is shown as it is |
| `Coalesce.GroupListsOnce` | internal/history/coalesce.go:106-150 | and lists each record and each trace once |
| `Coalesce.MembersChain` | internal/history/coalesce.go:87-104 | inside a group each member is the sole parent of its newer neighbour, and no other entry of the page lists it |
| `Coalesce.SizesAddUp` | internal/history/coalesce.go:69-81 | for raw pages the group sizes add up to the page |
| `Coalesce.WindowBoundsSpread` | internal/history/coalesce.go:99-103 | neighbours within 292 years group only inside the window |
| `Coalesce.WindowHoldsIff` | internal/history/coalesce.go:92-104 | for any two timestamps, exactly when grouping agrees with the window |
| `Coalesce.FarApartChanges` | internal/history/coalesce.go:99-103 | beyond that the multiplication wraps |
| `Profiles.SplitJoin` | space/identity.go:144-150 | splitting undoes joining for fields without NUL |
| `Profiles.RoundTripIff` | space/identity.go:144-177 | decoding undoes encoding exactly for profiles without NUL, with and without avatar |
| `Profiles.DecodeMeans` | space/identity.go:158-177 | what the decoder makes of any number of fields |
| `Invites.ReadBack` | space/invite.go:90-126 | a length written as a varint reads back, whatever follows |
| `Invites.RoundTrip` | space/invite.go:70-138 | decoding undoes encoding for every space id, key and kind |
| `Invites.DecodesIff` | space/invite.go:102-138 | a text decodes to an invite exactly when it is not empty and stands for a version byte, a readable length, a space id of that length and bytes its key comes from |
| `Invites.ReadFits` | space/invite.go:120-123 | a length that reads back fits 64 bits |
| `Invites.DecodedIsEncodableIff` | space/invite.go:70-138 | a decoded invite encodes again, to the same invite, exactly when its space id is not empty and its key marshals |
| `Invites.DecodesEmptySpaceId` | space/invite.go:120-138 | a token with an empty space id decodes, and the encoder refuses the invite |

## Left out

- Arrays, `$addToSet` and `$pull`: they do not advance `_ver`, and add and pull of one element do not commute.
- Floating-point rounding of `$inc`: counters are integers.
- Field-class filtering (`filterOpFields`), record-id resolution, traces and keyed ids: edits enter the model after them, with paths an op may name and disjoint payload keys.
- `Lifecycle.Collection.ApplyRecordChange`: handlers are what they accept, op by op and without regard to the record; which ops were rejected one by one is not reported, and derived ops and sibling writes follow the same `Modify` with an accepting handler and are not separate members.
- `Values.SetNestedAt` and `Values.UnsetNestedAt`: the nested walk is on values; the record's two trees are class fields that are overwritten whole, so sharing of subtrees between records is not captured.
- The stored record when a handler refuses a creation: the bare `{id}` the upsert starts from is taken as not stored.
- The one-off backfill of apply sequences, read-state rows beyond their sequence, and the space generation.
- `ApplySeq.Store.Next`: the seed query's answer is a parameter tied to the persisted maximum, because the database is not modelled.
- Draining parked changes: only the AddSeq-ordered replay is modelled.
- `Replay.Replica.ReplayLocked`: a failed gate or apply ends the pass like a crash; which error it was is not modelled.
- `Reindex.LoadKeepsIff`: the leaves a capture misses, past its cap of 20000 or a failed read, are a parameter; that replayed changes may delete a record with its local values is not modelled.
- `Reindex.RebuildsAreSafe`: assumes a load that finds an unfinished wipe sees a stale version and no drop of a wipe fails over rows; `Reindex.UnwipedRowsIff` shows both necessary.
- Husk files, companion files, `AllSpaceIds`, load scopes and the set-change callback of the storage provider.
- The rest of `storeClaim.Delete` and `closeAll` as class methods: their sections are steps of the same state machine.
- `SyncCounting.StoredIsCounted`: selective sync is a fixed set of declined trees, never stored; a tree stored by one round while another, under a changed selection, declines it is outside the model.
- `SyncPass.SyncJob.Pass`: fetches run one after another; in the code up to eight run side by side.
- `SyncPass.SyncJob.FetchEach`: likewise sequential; that a failed fetch parks its tree is a step of `SyncCounting`, not of this method.
- `ParkBuffer.Buffer.FlushParked`: nothing parks while the method runs; parking between its sends is covered by `ParkBuffer.EveryInterleaving`.
- `SyncPass.SyncJob.Add`: the peers an item is fetched from and pinged with, and rounds that add while a pass has an item in hand.
- The `busy` and `first` flags, pings and reports of the sync job: they do not decide what is queued or counted.
- Streams, retries' timing, peer selection and send targets: a send succeeds, overflows or fails.
- `AccountValues.Diff`: the order of ops inside one batch, which a caller cannot observe through distinct paths.
- `AccountValues.MirrorRecord`: a batch applies whole or fails whole; the target dataset's declared heads and its handler's own refusals are not modelled, and a tombstoned row counts as absent.
- `Coalesce.GroupOf`: fields of a head entry that the grouping copies unchanged beyond version, author and timestamp.
- `Invites.RoundTrip`: base58 and the key's own encoding are parameters with the inverse law the code relies on; a space id is shorter than 2^64 bytes, as every Go string is.
- Cryptography, wallet, ACL, coordinator, transport and configuration code.
