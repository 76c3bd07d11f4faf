# TwinTidy: verification model

TwinTidy finds byte-identical files and replaces verified copies with hardlinks. This
project models the parts of it on which data safety and exactness depend, and proves what
the program promises about them, for every input, every run and every reachable state.
`dafny verify dfyconfig.toml` checks everything.

## What is modelled

- **Hardlink consolidation** (`FileSystem`, `Consolidation`, `ConsolidationSafety`,
  `ConsolidationItem`, `ConsolidationCancellation`, `ConsolidationRequest`,
  `ConsolidationProgress`, `ConsolidationSession`). A volume is a map
  from paths to object identities and from identities to objects; held handles restrict
  what others may do by their share modes. One candidate is a machine whose steps are the
  single system calls; each call may fail, cancellation may strike at each context check,
  and arbitrary interference happens between calls. `ConsolidationSession` is the same
  protocol as structured code on a mutable disk, whose recorded history is proved to be a
  behaviour of the machine. Whole requests are then followed without outside writers:
  what they keep whatever fails, and what they achieve when nothing does.
- **Request policies** (`RecycleRequest`, `RequestGuarantees`, `Recycling`, `RecyclePlan`,
  `PlanGuarantees`, `KeepRules`, `DuplicateTable`, `SurvivingRows`, `FoldedPaths`). The independent guards
  that a physical copy is kept: request validation, the recycle policy over an arbitrary
  adapter, the plan made from checked rows, the keep rules and the table they act on.
- **The duplicate scan** (`Scan`, `FileHashing`, `ScanEngine`, `Sorting`). Three filter stages compared
  with one-pass grouping by (size, SHA-256); both hashes are uninterpreted functions.
- **Concurrency of the surface scan** (`DirectoryQueue`, `DirectoryTraversal`,
  `SurfaceInventory`, `InventoryFiles`, `Sums`). The worker queue with its condition variable, and the
  reservation loops with the totals they feed, under every interleaving.
- **The image generator** (`Png`, `PngRoundTrip`, `PngEncoding`, `PngEncoder`,
  `PngDecoder`, `ScanlineFilter`, `ScanlineBytes`, `Checksums`, `AxisWeights`, `BoxFilter`,
  `BoxScaling`, `BoxExactness`, `AssetGenerator`). PNG reader and writer (RFC 2083), stored-block zlib (RFC 1950 and
  1951), CRC-32, Adler-32, scanline filters and the exact integer box filter.
- **Foreground state of the application** (`OperationState`, `OperationRuns`,
  `OperationHistory`, `ForegroundOperations`, `PreviewQueue`, `PreviewGenerations`). Operations, tokens, cancellation and deferred
  close over whole runs; the latest-value queue against a concurrent consumer; preview
  generations.
- **Serializers and binary parsers** (`ReportDocument`, `Json`, `JsonLayout`,
  `JsonReport`, `JsonWriter`, `JsonExport`, `CsvText`,
  `CsvWriter`, `CsvReport`, `ReportWriter`, `AtomicFile`, `SourceTree`,
  `SourceTreeBytes`, `StreamInfo`, `StreamWalk`). The streamed JSON and CSV reports, atomic replacement of the report
  file, the canonical source-tree text and the `FILE_STREAM_INFO` walker.

`Bytes`, `Records`, `Strings` and `Int64` hold shared types, text and 64-bit arithmetic.

Where the program changes state in place (operations, queues, tables, streams, pixel
buffers, the disk), the model is a class or a method over an array with loop invariants,
proved against a function on values; the properties are lemmas about that function.
A format function that is costly to unfold is handed to the proofs as a ghost function
parameter with a predicate that says it is that function (`crc` with `IsCrc32`, `rule`
with `IsRule`, `make` with `Makes`); `Decode` and `Encode` are correct for every check
function, and the program's is the one of `Checksums`.

## Where the code does less than its comments say

- The three-stage scan equals one-pass grouping exactly when no member of a true class is
  alone at the boundary stage. That always holds if SHA-256 does not collide on the
  scanned files; `Scan.CollisionSplitsGroup` is the counterexample otherwise.
- "No content is ever lost" (internal/scanner/hardlink.go:13-16) is proved from the moment
  the candidate has been verified. Before that, or after its handle has been released,
  nothing prevents another process from deleting the file.
- Not "each selected duplicate" is replaced (internal/scanner/hardlink.go:54-55). A linked
  keeper has two names and no longer verifies, and a verifying keeper on another volume
  than the candidate ends the search (lines 86-89). So without faults keepers are used in
  order, each at most once, and all candidates are replaced if and only if there are at
  least as many keepers and each shares its volume with the candidate of its index
  (`ConsolidationProgress.ConsolidatesExactly`). Requests that leave one are
  `ConsolidationProgress.SecondCandidateStays` and, with a usable keeper behind one on
  another volume, `ConsolidationProgress.FarKeeperInTheWay` and
  `RequestGuarantees.AcceptedRequestInVain`.
- The second identity guard of request validation (internal/scanner/delete.go:118-120)
  can never fire (`RecycleRequest.NewKeyNewIdentity`).
- Applying a keep rule leaves a group exactly one unselected row if and only if no file
  that is not kept, of any shown group, has the folded path of the group's best file;
  otherwise it leaves none (`DuplicateTable.LeftExactly`). A group of `D/A` and `D/a` is an
  input that loses both (`FoldedPaths.FoldedPathsSelectAll`, `FoldedPaths.TwoCasesExist`);
  the recycle plan then refuses.
- Generation counters wrap. A token can be accepted for an operation that is not its own
  only after a multiple of 2^64 generations; `OperationRuns.StaleTokenAccepted` is such a
  run and `OperationRuns.TokensEqualExactly` the exact condition.
- A failed report export leaves its staging file behind exactly when the removal, the
  last call made, fails too, which is not reported (`AtomicFile.Exporter.WriteFileAtomic`;
  `AtomicFile.StagingLeftBehind` is such a run).
- The estimates of a report are 64-bit: `ReportDocument.TotalExactly` says when
  the total is the real one, and `ReportDocument.TotalTooLarge` is an input for which it is
  not.

## Model

| member | source | states |
|---|---|---|
| `ConsolidationSafety.ContentNeverLost` | internal/scanner/hardlink.go:13-16 | At every intermediate state of every behaviour, with failing calls, cancellations and interference: from its verification until its handle is released the candidate's bytes are named by the original or the backup path; once given up, the original path names a keeper with the same digest |
| `ConsolidationSafety.ReportTellsWhere` | internal/scanner/hardlink_windows.go:36-94 | When the outcome is decided, whatever others do: every status but Consolidated means the verified candidate is at the reported backup path, or at its own path if none is reported; Consolidated means the path names the verified keeper |
| `ConsolidationSafety.ReportTellsWhereAtReturn` | internal/scanner/hardlink_windows.go:36-94 | The same at return, with interference at any time before the candidate's handle is released: the verified candidate is where the report says, or the path names the keeper with the group's digest and the backup is gone |
| `ConsolidationSafety.DisposedOnlyAfterIdentityCheck` | internal/scanner/hardlink_windows.go:186-196 | Nothing is marked for deletion or reported Consolidated before a step found the original path to name the keeper's identity |
| `ConsolidationSafety.VerifiedBytesStable` | internal/scanner/hardlink.go:134-160 | The bytes hashed under the handle stay the candidate's bytes for the rest of the run |
| `ConsolidationSafety.BehaviourStaysValid` | internal/scanner/hardlink_windows.go:36-94 | The invariant of every program point (handles held, names bound, digests verified) holds in every state of every behaviour |
| `ConsolidationSafety.StepPreservesValid` | internal/scanner/hardlink_windows.go:36-94 | Each call of the protocol, however it ends, keeps that invariant |
| `ConsolidationSafety.InterferencePreservesValid` | internal/scanner/file_snapshot_windows.go:137-170 | Whatever the share modes of the held handles let others do keeps it too |
| `ConsolidationSafety.OnlyReplacementTouchesDisk` | internal/scanner/hardlink_windows.go:99-127 | No call before the rename aside changes a name or an object |
| `ConsolidationSafety.CandidateWasVerified` | internal/scanner/hardlink_windows.go:99-127 | In every behaviour: before anything is renamed or disposed of, a step found the disk to be as the candidate's record says, its path the only name of the object scanned, size and time as recorded, no stream, the bytes carrying the group's digest; those are the bytes kept |
| `ConsolidationSafety.KeeperWasVerified` | internal/scanner/delete.go:214-252 | The same of the keeper, whenever one is held |
| `Consolidation.RefusedUnlessAsRecorded` | internal/scanner/delete.go:225-236 | An opened file passes exactly with the recorded metadata, one name and no stream; other names or streams make it a protected one |
| `Consolidation.StepLowersRank` | internal/scanner/hardlink.go:79-132 | Every call lowers a rank, so each candidate's run ends |
| `ConsolidationItem.DisposedTargetVanishes` | internal/scanner/hardlink_windows.go:224-248 | Closing the disposed candidate removes its only name, the backup, and the object |
| `ConsolidationItem.RunSettles` | internal/scanner/hardlink.go:79-94 | Without outside writers the final disk is fixed by the reported item: relinked and the copy gone, untouched, or set aside at the reported backup |
| `ConsolidationCancellation.CancelledCleanly` | internal/scanner/hardlink.go:79-94 | Cancellation noticed at any context check, whatever failed before, is reported, and every name and object is as before |
| `ConsolidationCancellation.CancelledWasNoticed` | internal/scanner/hardlink.go:79-94 | Nothing is reported cancelled unless a call noticed it |
| `ConsolidationRequest.EveryPathStillReads` | internal/scanner/hardlink.go:59-77 | Over a whole request every path that read the group's bytes still reads them, or its reported backup does |
| `ConsolidationRequest.CopiesDropByConsolidated` | internal/scanner/hardlink.go:59-77 | The number of distinct objects holding the group's bytes drops by exactly the number of Consolidated items; every unselected object is unchanged |
| `ConsolidationRequest.KeepersSurvive` | internal/scanner/hardlink.go:59-77 | Every keeper object survives the request with its bytes |
| `ConsolidationRequest.UnselectedStays` | internal/scanner/hardlink.go:59-77 | Every name of an object that no candidate is keeps naming it, with its content |
| `ConsolidationRequest.UsedKeepers` | internal/scanner/delete.go:225-228 | The keepers already linked to are as many as the Consolidated items, and have two names each |
| `ConsolidationRequest.AtMostOnePerKeeper` | internal/scanner/delete.go:225-228 | A linked keeper stops verifying, so Consolidated items never exceed the keepers |
| `ConsolidationRequest.NothingAfterCancellation` | internal/scanner/hardlink.go:67-72 | Once cancellation is seen every later candidate is reported cancelled and nothing is touched |
| `ConsolidationProgress.ConsolidatedExactly` | internal/scanner/hardlink.go:79-94 | Without faults the disk alone decides the item, every status included: consolidated if and only if some keeper is as its record says with one name, no stream and the group's digest, the first such is another file of the candidate's volume, so is the candidate itself as recorded, and the backup name is unused; its path then names that keeper, and nothing is left aside |
| `ConsolidationProgress.ConsolidatedIfKeeperLeft` | internal/scanner/hardlink.go:79-94 | On a disk where only names were added to keepers since the scan: if and only if the first keeper that still has just one name is on the candidate's volume, and that keeper is linked; if it is on another, the candidate is skipped |
| `ConsolidationProgress.ConsolidatesExactly` | internal/scanner/hardlink.go:54-77 | Without faults, on the disk as scanned, the status of every item: the keepers are used in order, each at most once, by the candidates that find the next one on their volume; all candidates are consolidated if and only if there are at least as many keepers and each shares its volume with the candidate of its index; on one volume the lesser of candidates and keepers are |
| `ConsolidationProgress.OneTurn` | internal/scanner/hardlink.go:79-94 | One candidate of such a request: its item, and that the used keepers stay the first ones |
| `ConsolidationProgress.NoKeeperLeft` | internal/scanner/hardlink.go:100-134 | When every keeper has been linked the search reports them as protected |
| `ConsolidationProgress.LeftCandidateStays` | internal/scanner/hardlink.go:79-89 | A candidate for which no keeper is left, or whose next keeper is on another volume, changes nothing and keeps its object and path |
| `ConsolidationProgress.SecondCandidateStays` | internal/scanner/hardlink.go:54-77 | A concrete valid request of one keeper and two candidates on one volume, without faults, of which the second stays |
| `ConsolidationProgress.FarKeeperInTheWay` | internal/scanner/hardlink.go:86-89 | A concrete valid request, without faults, whose only candidate stays because a keeper on another volume comes before one on its own |
| `ConsolidationSession.Session.ConsolidateOne` | internal/scanner/hardlink.go:79-94 | The structured code on the mutable disk, others acting before each call: its history is a behaviour of the machine that ends by returning its item, all handles closed |
| `ConsolidationSession.Session.ConsolidateTarget` | internal/scanner/hardlink_windows.go:36-94 | The platform sequence runs the machine from opening the candidate to releasing it |
| `ConsolidationSession.Session.ReplaceWithLink` | internal/scanner/hardlink_windows.go:59-94 | Rename aside, link, prove, dispose or restore, in that order, as the machine does |
| `ConsolidationSession.Session.OpenVerifiedKeeperRecord` | internal/scanner/hardlink.go:100-132 | The first keeper that verifies, its handle held, or the status of the search; cancellation ends it |
| `ConsolidationSession.Session.OpenVerifiedRecord` | internal/scanner/delete.go:214-252 | One keeper record opened, inspected, hashed and proved stable; on any failure its handle is closed; on success the disk is as the record says, with one name, no stream and the digest |
| `ConsolidationSession.Session.OpenVerifiedConsolidationTarget` | internal/scanner/hardlink_windows.go:99-127 | The same for the candidate, with delete access and proved through the handle; on success the disk is as its record says |
| `ConsolidationSession.Session.RenameTargetAside` | internal/scanner/hardlink_windows.go:201-220 | Rename by handle, never overwriting |
| `ConsolidationSession.Session.VerifyPathHasIdentity` | internal/scanner/hardlink_windows.go:186-196 | The original path, opened afresh, must be the keeper |
| `ConsolidationSession.Session.DisposeByHandle` | internal/scanner/hardlink_windows.go:224-248 | The candidate is marked through its own handle |
| `ConsolidationSession.Session.RestoreOrReport` | internal/scanner/hardlink_windows.go:175-183 | The rename is undone, or the backup reported |
| `RecycleRequest.ValidateRecycleRequest` | internal/scanner/delete.go:68-143 | Accepts exactly the acceptable requests, returns their split, and otherwise the error of the first guard that fails |
| `RecycleRequest.CheckMembers` | internal/scanner/delete.go:81-105 | The first error among the members, or their index by folded path and identity |
| `RecycleRequest.ChooseMembers` | internal/scanner/delete.go:107-126 | The first error among the candidates, or the members they stand for |
| `RecycleRequest.Keepers` | internal/scanner/delete.go:131-136 | The members whose identity is not selected, in order |
| `RecycleRequest.RefusedExactly` | internal/scanner/delete.go:68-143 | The guards let through exactly the acceptable requests |
| `RecycleRequest.AcceptableExactly` | internal/scanner/delete.go:68-143 | What is acceptable, written out in the fields of the records |
| `RecycleRequest.RefusalExplained` | internal/scanner/delete.go:68-143 | Every error names a fault that is there, members before candidates |
| `RecycleRequest.WithoutAppends` | internal/scanner/delete.go:131-136 | Keepers stay in the order of the group |
| `RecycleRequest.AcceptedSplitsGroup` | internal/scanner/delete.go:124-142 | Selected and keepers split the group: every member is in one, none in both, identities disjoint, at least one keeper |
| `RecycleRequest.SplitUnique` | internal/scanner/delete.go:68-143 | The accepted form is determined by the request |
| `RecycleRequest.NewKeyNewIdentity` | internal/scanner/delete.go:118-121 | The guard against a repeated identity is implied by the guards before it |
| `RequestGuarantees.AcceptedIsValidated` | internal/scanner/delete.go:68-143 | Validation gives what the consolidation theorems need |
| `RequestGuarantees.AcceptedRequestKeepsGroup` | internal/scanner/hardlink.go:59-77 | Carrying out an accepted request: every member still reads at its path or backup, every keeper object is unchanged, and some keeper is another file than every candidate, its object unchanged and still named by its path |
| `RequestGuarantees.OneMemberKept` | internal/scanner/hardlink.go:59-77 | That keeper, for every choice of failures and cancellations |
| `RequestGuarantees.AcceptedRequestConsolidates` | internal/scanner/hardlink.go:54-77 | An accepted request, without faults and on the disk as scanned, reports the foretold status of every item, and replaces every selected duplicate if and only if no more members are selected than not and each shares its volume with the keeper of its index |
| `RequestGuarantees.AcceptedRequestInVain` | internal/scanner/delete.go:68-143 | A concrete request over two volumes that validation accepts, with enough keepers and one on the candidate's volume, that consolidates nothing |
| `Recycling.RecycleExactDuplicates` | internal/scanner/delete.go:48-66 | An unacceptable request, or one without an adapter, is rejected with every item failed and nothing called; otherwise one item per candidate of its split, in order, each with the outcome of what ended it, and the adapter calls, those of the items that got that far, were all made with a verified candidate and a verified keeper held open that outlives the call; if others leave the files alone and the adapter all but its target, every keeper that held the group's bytes still holds them at the end of the request, and so does the keeper of every call; keeper and candidate had each been found as recorded, with one name and no stream |
| `Recycling.Recycler.RecycleSelected` | internal/scanner/delete.go:58-65 | The loop over the candidates, cancellations included; the adapter calls are those of the items that got that far, and only their targets are touched by a request nobody else interferes with |
| `Recycling.Recycler.RecycleOne` | internal/scanner/delete.go:145-179 | The outcome is that of what ended it: a failed keeper search, a candidate that does not verify, cancellation, or the one adapter call; all handles closed at the end |
| `Recycling.Recycler.CallAdapter` | internal/scanner/delete.go:161-178 | Exactly which status each answer, receipt, later cancellation and look at the source path lead to |
| `Recycling.Recycler.OpenVerifiedKeeper` | internal/scanner/delete.go:181-212 | The first keeper that verifies, its handle held, those before it having failed; otherwise the status of the whole search: cancelled, else changed, else protected, else failed |
| `Recycling.Recycler.VerifySourcePathAbsent` | internal/scanner/delete.go:254-267 | Succeeds exactly if the look does and the source path names nothing |
| `Recycling.RecycledIsConfirmed` | internal/scanner/delete.go:168-178 | Recycled is only ever the outcome of a call with a fitting receipt after which the source path was seen empty |
| `Recycling.OutcomeExactly` | internal/scanner/delete.go:145-179 | Exactly when an item is Recycled, and exactly when Cancelled; which errors of the candidate mean protected and which changed |
| `Recycling.HeldKeeperStays` | internal/scanner/file_snapshot_windows.go:150-152 | A keeper handle that shares neither writing nor deletion keeps path and bytes through everything others may do |
| `RecyclePlan.BuildRecyclePlan` | internal/gui/app_windows.go:1091-1163 | The accumulating loops return the plan, or the error, of the specification |
| `RecyclePlan.RemovesAllExactly` | internal/gui/app_windows.go:1132-1142 | A group is refused exactly when the physical copy of every member is checked through some row |
| `RecyclePlan.PlanLeavesACopy` | internal/gui/app_windows.go:1091-1163 | However rows were checked, a plan leaves in each group a file whose physical copy is unchecked, and asks only for checked rows |
| `RecyclePlan.PlanMissesNothing` | internal/gui/app_windows.go:1091-1163 | Every checked duplicate row is asked for |
| `RecyclePlan.RefusedExactly` | internal/gui/app_windows.go:1091-1163 | Consistent rows are refused for removing all copies exactly when some group with a checked row would lose every one |
| `RecyclePlan.PlannedExactlyWhen` | internal/gui/app_windows.go:1091-1163 | Inconsistent exactly when two rows of a group differ in hash or size, nothing checked exactly when no duplicate row is; a plan counts every checked row once |
| `RecyclePlan.PlannedGroupExactly` | internal/gui/app_windows.go:1143-1158 | A planned group asks for exactly the files of the rows with its key and the checked ones, under the number, hash and size of one of its rows |
| `RecyclePlan.SameCopyExactly` | internal/gui/app_windows.go:1132-1142 | Two files count as one copy exactly with the same identity or, without any, the same folded path |
| `RecyclePlan.KeyTells` | internal/gui/app_windows.go:1106-1109 | A key made of size and hash tells both |
| `RecyclePlan.KeylessGroup` | internal/gui/app_windows.go:1106-1109 | Rows without a key are of one group exactly with the same size and hash |
| `PlanGuarantees.AcceptedIfGroupGood` | internal/gui/app_windows.go:1091-1163 | Of the guards of validation only those on the group itself can refuse a planned request |
| `PlanGuarantees.AcceptedIfFoldDistinct` | internal/gui/app_windows.go:1091-1163 | For the rows of a scan a planned request is accepted if and only if no two members of its group fold to the same path |
| `PlanGuarantees.RowOfGroupKept` | internal/gui/app_windows.go:1091-1163 | Carrying out an accepted planned request, whatever fails, leaves an unchecked row of its group whose file is unchanged and still at its path |
| `KeepRules.NormalizeSelectionPolicy` | internal/scanner/keeprules.go:50-75 | Cleaned folders without blanks, or the first error |
| `KeepRules.SelectKeeperIndex` | internal/scanner/keeprules.go:114-143 | The member kept is in the earliest folder tier that has any, and none in the tier is better, for any behaviour of the unstable sort |
| `KeepRules.BestUnique` | internal/scanner/keeprules.go:114-143 | With distinct paths there is one best member |
| `KeepRules.BestExactly` | internal/scanner/keeprules.go:133-141 | The best member is the one with the earliest time under keep-oldest, the latest under keep-newest, and of several the first path |
| `KeepRules.TierExactly` | internal/scanner/keeprules.go:115-131 | It is chosen among the members below the first priority folder that has any, or among all |
| `KeepRules.NormalFoldersExactly` | internal/scanner/keeprules.go:60-73 | Every folder that is not blank is resolved, in order, and one that cannot be fails the policy |
| `KeepRules.NormalizedStrategy` | internal/scanner/keeprules.go:50-59 | Only the two strategies run, and none means keep-newest |
| `KeepRules.ValidateSelectionInvariant` | internal/scanner/keeprules.go:149-173 | The independent check decides the stated invariant |
| `KeepRules.InvariantExactly` | internal/scanner/keeprules.go:149-173 | It passes exactly when no marked member has the keeper's path |
| `KeepRules.AllButOne` | internal/scanner/keeprules.go:77-81 | An accepted selection marks all members but one, the keeper, which has its path to itself |
| `KeepRules.ApplySelectionPolicy` | internal/scanner/keeprules.go:82-108 | One right selection for every group of two or more; an error exactly for an unusable policy or a group in which the best member's path is repeated; every kept file is the oldest or the newest of its tier, as was asked |
| `DuplicateTable.Table.ApplyPolicy` | internal/gui/app_windows.go:1632-1672 | The rows selected are those whose folded path is marked; on an error nothing changes |
| `DuplicateTable.LeftExactly` | internal/gui/app_windows.go:1630-1671 | What a rule leaves of a group, read off the rows alone: exactly one row, the best file's, unless a file that is not kept, of any shown group of two or more, has the best file's folded path; then none |
| `DuplicateTable.MarkedExactly` | internal/gui/app_windows.go:1662-1667 | The marked folded paths are exactly those of the files that are not the best of their group |
| `DuplicateTable.SelectedExactly` | internal/gui/app_windows.go:1662-1671 | Only duplicate rows are selected, those with a marked folded path, and nothing else of a row changes |
| `DuplicateTable.ExactlyOneLeft` | internal/gui/app_windows.go:1662-1671 | With fold-distinct paths every group is left with exactly one unselected row, its best file's |
| `DuplicateTable.Table.SetGroups` | internal/gui/app_windows.go:1534-1553 | The rows of a scan, group by group, nothing selected |
| `DuplicateTable.ScanRowsKeyed` | internal/gui/app_windows.go:1534-1553 | Every such row is keyed by its own size and hash |
| `DuplicateTable.ScanRowAt` | internal/gui/app_windows.go:1534-1553 | Where each file of each group stands in the table, and what its row says |
| `FoldedPaths.FoldedPathsSelectAll` | internal/gui/app_windows.go:1662-1671 | For every scanned group of two whose paths differ but fold together, keeping the newer selects both rows, the keeper's included; the recycle plan then refuses |
| `FoldedPaths.TwoCasesExist` | internal/gui/app_windows.go:1534-1553 | Such a group exists: two distinct good members `D/A` and `D/a` under a valid digest |
| `FoldedPaths.FullySelectedRefused` | internal/gui/app_windows.go:1132-1142 | A group with every row selected is never planned |
| `DuplicateTable.Table.RemoveDeleted` | internal/gui/app_windows.go:1674-1704 | The rows are the survivors, renumbered |
| `SurvivingRows.KeepRows` | internal/gui/app_windows.go:1675-1683 | The rows not deleted, in order, with the count of each group |
| `SurvivingRows.RenumberRows` | internal/gui/app_windows.go:1685-1703 | The rows of groups of two or more, numbered anew |
| `SurvivingRows.SurvivesExactly` | internal/gui/app_windows.go:1674-1704 | A row survives exactly when its file is not deleted and two rows of its group are not; no group of one is left |
| `SurvivingRows.NumberedWithoutGaps` | internal/gui/app_windows.go:1685-1703 | Rows count from one; group numbers agree exactly for equal keys |
| `SurvivingRows.EveryNumberUsed` | internal/gui/app_windows.go:1685-1703 | No group number is skipped |
| `Scan.ThreeStagesEqualOnePass` | internal/scanner/engine.go:187-241 | The three-stage list is the list of one-pass grouping by (size, SHA-256) over the records that verify in both hash stages, if and only if no member of a true class is alone at the boundary stage |
| `Scan.FiltersInventNothing` | internal/scanner/engine.go:187-241 | What survives the filters and shares its full key is verified and truly shares it |
| `Scan.FiltersLoseExactly` | internal/scanner/engine.go:716-772 | Nothing is lost exactly under that condition |
| `Scan.ReachesLastStage` | internal/scanner/engine.go:1003-1024 | A member of a true class reaches the last stage exactly if another file has its boundary key |
| `Scan.CollisionFreeSplitsNothing` | internal/scanner/engine.go:716-772 | Equal bytes have equal heads and tails: without a SHA-256 collision the condition holds |
| `Scan.NoTrueGroupLost` | internal/scanner/engine.go:187-241 | Then two verified files are in one group exactly when their sizes and bytes are equal |
| `Scan.CollisionSplitsGroup` | internal/scanner/engine.go:716-772 | Two files with different heads whose digests collide: the pipeline drops the pair that one-pass grouping reports |
| `Scan.ReportedTogether` | internal/scanner/engine.go:785-889 | Two records are in one group of the list exactly when they share a key |
| `Scan.DuplicateListUnique` | internal/scanner/engine.go:867-888 | The list is determined by the set of records: both comparators leave no freedom |
| `Scan.GroupDetermined` | internal/scanner/engine.go:872-878 | A group is determined by its key, the order of its members included |
| `Scan.ReportOrder` | internal/scanner/engine.go:872-886 | Groups stand by size and hash, members newest first, then by path |
| `Scan.BoundaryHashExactly` | internal/scanner/engine.go:716-772 | Of a file that opens and is not too short: the hash of size, first and last 4096 bytes, or as many as there are; otherwise which error |
| `Scan.LittleEndianValue` | internal/scanner/engine.go:762-766 | The eight bytes of the size tell it |
| `ScanEngine.ScanSizeGroups` | internal/scanner/engine.go:187-241 | The pipeline, for every order of delivery and every reader: its list is that of the classes and no candidate's error was fatal; it fails with such an error only if there is one, and as cancelled only if the context was seen done |
| `ScanEngine.EqualContentsReported` | internal/scanner/engine.go:187-241 | From end to end: two files with which nothing is wrong share a group of the report if and only if their contents are equal, unless SHA-256 collides on the scanned files |
| `ScanEngine.UnreadableNotReported` | internal/scanner/engine.go:716-924 | A file that does not open, is too short, is not read to its end or does not stay the same is in no group |
| `ScanEngine.FatalScanExactly` | internal/scanner/engine.go:684-845 | Only a changed root or a missing scope ends a scan |
| `ScanEngine.CollectResults` | internal/scanner/engine.go:675-705 | The consumer loop: cancelled exactly when the context is done before a result, or after all of them with no fatal error; failed exactly on a fatal error otherwise; else the delivered results grouped and the ignored errors counted |
| `ScanEngine.MapByFullHash` | internal/scanner/engine.go:785-889 | The last stage streams and hashes its candidates and lists their classes, or fails as the consumer loop does |
| `ScanEngine.FilesFromGroups` | internal/scanner/engine.go:986-1024 | The next stage gets each member of a group of two or more once |
| `ScanEngine.DuplicatesFromGroups` | internal/scanner/engine.go:867-888 | The report list from the last stage's groups |
| `ScanEngine.DeliveryOrderIrrelevant` | internal/scanner/engine.go:785-889 | Two scans of the same records give the same list whatever order workers deliver in |
| `FileHashing.CopyWithContext` | internal/scanner/engine.go:926-954 | Whatever chunk sizes the reader returns, a completed copy is the whole file and an interrupted one a beginning; without faults it completes |
| `FileHashing.FullHashOf` | internal/scanner/engine.go:891-924 | A file opened, streamed through the buffer into the hash and verified again: the digest of its whole content, or the first step that failed |
| `FileHashing.FaultlessCopies` | internal/scanner/engine.go:926-954 | Without faults the copy completes, whatever the sizes of the reads |
| `ScanEngine.ChunkSizesIrrelevant` | internal/scanner/engine.go:926-954 | However many bytes each read returns, the scan reports the same list |
| `Sorting.SortedPermutationUnique` | internal/scanner/engine.go:872-886 | Under a total order two sorted permutations are equal, so an unstable sort has one result |
| `Sorting.StringLessExactly` | internal/scanner/engine.go:872-886 | A string is less exactly when it ends, or has the lesser unit, where the two first differ |
| `DirectoryQueue.SharedQueue.Add` | internal/scanner/engine.go:1060-1070 | A directory is queued and counted and one waiter signalled, unless the queue is closed |
| `DirectoryQueue.SharedQueue.TryNext` | internal/scanner/engine.go:1072-1084 | The head, or sleep, or the end |
| `DirectoryQueue.SharedQueue.Done` | internal/scanner/engine.go:1086-1095 | One less pending; everybody is woken when nothing is left |
| `DirectoryTraversal.SignalsSuffice` | internal/scanner/engine.go:1043-1102 | In every reachable state pending is queued plus in-flight; while a worker sleeps work is unfinished and each queued directory has an awake worker coming for it |
| `DirectoryTraversal.NobodySleepsForever` | internal/scanner/engine.go:1072-1084 | In every reachable state in which a worker has not exited some worker can take a step |
| `DirectoryTraversal.StuckOnlyWhenDone` | internal/scanner/engine.go:431-450 | A run that cannot continue has no worker left: no deadlock |
| `DirectoryTraversal.UnclosedTraversalComplete` | internal/scanner/engine.go:431-450 | If all workers have exited and the queue was never closed, each root and each added directory was handed out exactly as often as added, and finished |
| `DirectoryTraversal.NothingAfterClose` | internal/scanner/engine.go:1060-1102 | Once the queue is closed nothing more is accepted or handed out |
| `DirectoryTraversal.FailureCloses` | internal/scanner/engine.go:431-450 | After a reader has failed the traversal ends with a closed queue |
| `DirectoryTraversal.EveryStepLowersMeasure` | internal/scanner/engine.go:483-592 | Every step lowers a measure of the tree still to read |
| `DirectoryTraversal.RunsAreBounded` | internal/scanner/engine.go:431-450 | No run is longer than the measure of its first state |
| `SurfaceInventory.TicketsExact` | internal/scanner/engine.go:599-623 | Under any interleaving of load and compare-and-swap the counter stays within its limit and the successful tickets are exactly 1..n |
| `SurfaceInventory.Counter.ReserveCardinality` | internal/scanner/engine.go:613-623 | The retry loop ends, with a fresh ticket or at the limit |
| `SurfaceInventory.ReportAddsUp` | internal/scanner/engine.go:294-350 | On success the file total is the number of records and the sum of the category counts, the byte total that of the sizes and of the category bytes, in 64-bit arithmetic |
| `SurfaceInventory.BytesAddUpExactly` | internal/scanner/engine.go:294-350 | The byte total is the real sum exactly when that is below 2^63; then the category bytes really add up to it |
| `InventoryFiles.RecordsAreBegun` | internal/scanner/engine.go:294-350 | On success the records are the files that readers began to record, each as often |
| `InventoryFiles.RefusedOnlyWhenFull` | internal/scanner/engine.go:599-623 | Under any interleaving nobody is refused before all places are taken |
| `Checksums.BuildCrc32Table` | scripts/generate-msix-assets.ps1:439-452 | The table holds eight steps of the reflected division for every byte |
| `Checksums.PolynomialValue` | scripts/generate-msix-assets.ps1:447 | The reflected polynomial is 0xEDB88320, least significant bit first |
| `Checksums.Crc32` | scripts/generate-msix-assets.ps1:454-462 | The table-driven checksum is the bit-serial polynomial division, for every byte range |
| `Checksums.ByteStep` | scripts/generate-msix-assets.ps1:457-460 | One look-up advances the register by a whole byte |
| `Checksums.BurstDetected` | scripts/generate-msix-assets.ps1:454-462 | Messages that differ only within 32 consecutive bits have different checksums |
| `Checksums.Adler32` | scripts/generate-msix-assets.ps1:464-474 | The running form is the two sums of RFC 1950, modulo 65521, for every input |
| `Checksums.WeightedSumClosed` | scripts/generate-msix-assets.ps1:464-474 | The second sum weighs each byte by its distance from the end |
| `Checksums.AdlerExactly` | scripts/generate-msix-assets.ps1:464-474 | Adler-32 as the weighted sums modulo 65521 |
| `ScanlineFilter.PaethNearest` | scripts/generate-msix-assets.ps1:241-256 | The predictor is the neighbour nearest to the estimate, the first of left, above, above-left among equals |
| `ScanlineFilter.UnfilterUndoesFilter` | scripts/generate-msix-assets.ps1:196-239 | For every image and every per-row choice of the five filters the original pixels come back |
| `ScanlineFilter.FilterUndoesUnfilter` | scripts/generate-msix-assets.ps1:196-239 | And filtering undoes unfiltering |
| `ScanlineFilter.UnfilterLine` | scripts/generate-msix-assets.ps1:203-235 | One scanline reconstructed in place after the row above; the rows above stay |
| `ScanlineFilter.UnfilterRgba` | scripts/generate-msix-assets.ps1:196-239 | The loops over the pixel buffer compute the inverse, or reject the filter |
| `ScanlineBytes.UnfilteredBytes` | scripts/generate-msix-assets.ps1:196-239 | Every byte of the image is what its row's filter makes of its value and of its neighbours to the left, above and above left in the image, zero outside |
| `Png.BigEndianRoundTrip` | scripts/generate-msix-assets.ps1:423-437 | Reading a written big-endian word gives it back |
| `Png.StoredZlibFits` | scripts/generate-msix-assets.ps1:334-361 | An encoded chunk is never too long for the reader |
| `PngRoundTrip.ParseChunkBytes` | scripts/generate-msix-assets.ps1:389-404 | The reader takes a written chunk off the front, whatever follows |
| `PngRoundTrip.ParsedChunkBytes` | scripts/generate-msix-assets.ps1:85-101 | And takes nothing but written chunks |
| `PngRoundTrip.DecodeExactly` | scripts/generate-msix-assets.ps1:59-194 | Decoding accepts exactly the files that show an image (however compressed, split into IDAT chunks, with whatever ancillary chunks) and returns the image shown |
| `PngRoundTrip.DecodesWhatItShows` | scripts/generate-msix-assets.ps1:59-194 | Every file of an image decodes to it |
| `PngRoundTrip.ShowsWhatItDecodes` | scripts/generate-msix-assets.ps1:59-194 | Every file that decodes is a file of the decoded image |
| `PngEncoding.StoredBlocksInflate` | scripts/generate-msix-assets.ps1:363-387 | Stored blocks inflate to the data, for every length, the empty one included |
| `PngEncoding.DecodeUndoesEncode` | scripts/generate-msix-assets.ps1:334-361 | Decoding undoes encoding for every pixel array of 1 to 16384 pixels a side |
| `PngEncoder.EncodeRgba8Png` | scripts/generate-msix-assets.ps1:334-361 | The writing code produces the file of the specification |
| `PngEncoder.ZlibStored` | scripts/generate-msix-assets.ps1:363-387 | The block loop writes header, stored blocks and Adler-32 |
| `PngEncoder.WriteChunk` | scripts/generate-msix-assets.ps1:389-404 | Length, type, body and the CRC of type and body are appended, nothing else |
| `PngEncoder.WriteUInt32BigEndian` | scripts/generate-msix-assets.ps1:431-437 | Four bytes of the buffer are set, the others stay |
| `PngDecoder.DecodeRgba8Png` | scripts/generate-msix-assets.ps1:59-194 | The reading loops return the image, or the error, of the specification |
| `PngDecoder.ReadAllChunks` | scripts/generate-msix-assets.ps1:73-147 | One pass over the file takes exactly the chunks the format allows, in the order it allows |
| `PngDecoder.ReadChunk` | scripts/generate-msix-assets.ps1:85-101 | Bounds, type, body and CRC of one chunk, errors included |
| `PngDecoder.InflateExactly` | scripts/generate-msix-assets.ps1:167-187 | Succeeds exactly on a stream that inflates to the expected length, however much each read returns |
| `AxisWeights.BuildAxisWeights` | scripts/generate-msix-assets.ps1:258-278 | The rows built are the overlaps of target with source pixels |
| `AxisWeights.RowPositiveInRange` | scripts/generate-msix-assets.ps1:258-278 | Weights are positive, at most one pixel of either size, and inside the source |
| `AxisWeights.RowSum` | scripts/generate-msix-assets.ps1:258-278 | The weights of a target pixel sum to the source size |
| `AxisWeights.ColumnSum` | scripts/generate-msix-assets.ps1:258-278 | The weights of a source pixel sum to the target size |
| `AxisWeights.Touches` | scripts/generate-msix-assets.ps1:264-267 | First and last pixel bracket the target pixel exactly |
| `AxisWeights.EqualSizes` | scripts/generate-msix-assets.ps1:258-278 | At equal sizes each target pixel is one source pixel |
| `BoxFilter.SumsFit` | scripts/generate-msix-assets.ps1:299-327 | Every partial sum, the rounding term included, fits a signed 64-bit number |
| `BoxFilter.ClampsNeverAct` | scripts/generate-msix-assets.ps1:322-328 | The four clamps never change a value |
| `BoxFilter.RoundedNearest` | scripts/generate-msix-assets.ps1:322-328 | Rounding is to the nearest, halves up |
| `BoxFilter.WindowMean` | scripts/generate-msix-assets.ps1:299-320 | A colour is a weighted mean of visible values |
| `BoxScaling.ScaleBoxRgba` | scripts/generate-msix-assets.ps1:280-332 | The four nested loops compute the scaled image |
| `BoxExactness.ScaledExactly` | scripts/generate-msix-assets.ps1:280-332 | Every channel of every scaled pixel over the whole source picture, each pixel weighted by the area shared: blank if nothing visible is shared, else alpha the mean and each colour the alpha-weighted mean, rounded to the nearest, halves up |
| `BoxExactness.NearestUnique` | scripts/generate-msix-assets.ps1:310-328 | Only one number is that mean |
| `BoxScaling.ScaleOne` | scripts/generate-msix-assets.ps1:297-328 | One target pixel from its window |
| `BoxScaling.ColoursStayWithin` | scripts/generate-msix-assets.ps1:280-332 | Scaling invents no colour |
| `BoxScaling.OpaqueStaysOpaque` | scripts/generate-msix-assets.ps1:280-332 | An opaque image stays opaque |
| `BoxScaling.ConstantStaysConstant` | scripts/generate-msix-assets.ps1:280-332 | A constant opaque image scales to the same constant |
| `BoxScaling.EqualSizeKeeps` | scripts/generate-msix-assets.ps1:280-332 | Equal-size scaling keeps every visible pixel and blanks every transparent one |
| `BoxScaling.EqualSizeIdentity` | scripts/generate-msix-assets.ps1:280-332 | So it is the identity exactly on images that are blank where transparent |
| `AssetGenerator.Render` | scripts/generate-msix-assets.ps1:42-57 | Decode, scale and encode, or the first error |
| `AssetGenerator.RenderedExactly` | scripts/generate-msix-assets.ps1:42-57 | An asset is made exactly of a readable source and a size from 1 to 4096 |
| `AssetGenerator.AssetShowsScaledSource` | scripts/generate-msix-assets.ps1:42-57 | Reading the generated file with any conforming decompressor gives the scaled source image |
| `ForegroundOperations.Operations.Select` | internal/gui/operation_state.go:145-158 | Fields, reply and cancel functions called are those of one step of the machine, which the object's history, a run of the machine, gains: a blank folder or a busy phase is refused; otherwise the active operation is invalidated and the revision moves |
| `ForegroundOperations.Operations.ResetAll` | internal/gui/operation_state.go:160-170 | Fields, reply and cancel functions called are those of one step of the machine, which the object's history, a run of the machine, gains: as a selection, to no folder |
| `ForegroundOperations.Operations.Clear` | internal/gui/operation_state.go:172-178 | Fields, reply and cancel functions called are those of one step of the machine, which the object's history, a run of the machine, gains: back to the surface result |
| `ForegroundOperations.Operations.BeginSurfaceScan` | internal/gui/operation_state.go:180-185 | Fields, reply and cancel functions called are those of one step of the machine, which the object's history, a run of the machine, gains: a token from the ready folder only |
| `ForegroundOperations.Operations.CompleteSurfaceScan` | internal/gui/operation_state.go:189-202 | Fields, reply and cancel functions called are those of one step of the machine, which the object's history, a run of the machine, gains: stale callbacks rejected; success published only if not cancelling |
| `ForegroundOperations.Operations.BeginDuplicateScan` | internal/gui/operation_state.go:208-213 | Fields, reply and cancel functions called are those of one step of the machine, which the object's history, a run of the machine, gains: a token from a surface or a result |
| `ForegroundOperations.Operations.CompleteDuplicateScan` | internal/gui/operation_state.go:217-230 | Fields, reply and cancel functions called are those of one step of the machine, which the object's history, a run of the machine, gains: likewise, falling back to the surface result |
| `ForegroundOperations.Operations.RequestScanCancellation` | internal/gui/operation_state.go:235-247 | Fields, reply and cancel functions called are those of one step of the machine, which the object's history, a run of the machine, gains: the cancel function called once, the token kept |
| `ForegroundOperations.Operations.BeginReportExport` | internal/gui/operation_state.go:249-254 | Fields, reply and cancel functions called are those of one step of the machine, which the object's history, a run of the machine, gains: a token from a result |
| `ForegroundOperations.Operations.RequestExportCancellation` | internal/gui/operation_state.go:258-265 | Fields, reply and cancel functions called are those of one step of the machine, which the object's history, a run of the machine, gains: as for scans |
| `ForegroundOperations.Operations.CompleteReportExport` | internal/gui/operation_state.go:270-285 | Fields, reply and cancel functions called are those of one step of the machine, which the object's history, a run of the machine, gains: closes the window if a close was deferred |
| `ForegroundOperations.Operations.BeginDeletion` | internal/gui/operation_state.go:287-292 | Fields, reply and cancel functions called are those of one step of the machine, which the object's history, a run of the machine, gains: a token without cancel function |
| `ForegroundOperations.Operations.CompleteDeletion` | internal/gui/operation_state.go:297-312 | Fields, reply and cancel functions called are those of one step of the machine, which the object's history, a run of the machine, gains: as for exports |
| `ForegroundOperations.Operations.RequestWindowClose` | internal/gui/operation_state.go:317-341 | Fields, reply and cancel functions called are those of one step of the machine, which the object's history, a run of the machine, gains: deferred during export and deletion, else final |
| `ForegroundOperations.Operations.AlwaysSound` | internal/gui/operation_state.go:145-412 | Whatever was asked of the object, its fields are sound: the theorems about runs hold of its history |
| `OperationRuns.AlwaysSound` | internal/gui/operation_state.go:145-412 | In every reachable state an operation is active exactly in the busy phases and its token matches kind, folder and revision |
| `OperationRuns.AcceptedExactly` | internal/gui/operation_state.go:358-375 | A completion is accepted exactly when its token is that of the operation in progress and of its kind |
| `OperationRuns.CompletedOnce` | internal/gui/operation_state.go:189-312 | Each operation completes at most once and never after a folder change, reset or close |
| `OperationRuns.OwnerTracks` | internal/gui/operation_state.go:377-390 | Active token and held cancel function are those of the operation in progress |
| `OperationRuns.OwnerContiguous` | internal/gui/operation_state.go:392-404 | An operation that is gone never returns |
| `OperationRuns.CancelledOnce` | internal/gui/operation_state.go:406-412 | A cancel function is called for the operation it was given to, and once |
| `OperationHistory.HeldUntilInterrupted` | internal/gui/operation_state.go:377-412 | An operation holds the cancel function it was begun with until its first interruption and none from then on |
| `OperationHistory.CalledExactly` | internal/gui/operation_state.go:235-412 | The first granted cancellation or request to close calls the cancel function of the operation in progress, and nothing else calls any |
| `OperationHistory.HeldLeavesCalled` | internal/gui/operation_state.go:392-412 | A held function leaves the state only by being called or by the completion of its operation |
| `OperationHistory.StateOfHistory` | internal/gui/operation_state.go:145-412 | Phase, folder and revision are what the requests and answers so far amount to |
| `OperationHistory.AnsweredRightly` | internal/gui/operation_state.go:145-412 | Every request is granted, refused or deferred as that history has it, and tokens carry kind, folder, revision and start |
| `OperationHistory.RevisionCounts` | internal/gui/operation_state.go:145-170 | The folder revision is the number of folder changes modulo 2^64 |
| `OperationRuns.NotCancelledAfterEnd` | internal/gui/operation_state.go:406-412 | And never after its operation completed or was invalidated |
| `OperationRuns.PublishedExactly` | internal/gui/operation_state.go:187-230 | A scan publishes exactly when it succeeded and no cancellation was granted since it began |
| `OperationRuns.ClosesExactly` | internal/gui/operation_state.go:314-341 | The window closes at once exactly when no export and no deletion is outstanding |
| `OperationRuns.DeferredCloseIsKept` | internal/gui/operation_state.go:270-312 | After a deferred close nothing but the outstanding completion is accepted, and it closes the window |
| `OperationRuns.ClosedForever` | internal/gui/operation_state.go:317-341 | Closing is final |
| `OperationRuns.GenerationCounts` | internal/gui/operation_state.go:377-399 | The generation is the number of its moves modulo 2^64 |
| `OperationRuns.TokensEqualExactly` | internal/gui/operation_state.go:377-390 | Tokens of two operations are equal exactly when all else agrees and the generation moved a multiple of 2^64 between |
| `OperationRuns.TokenForItsOwnOperation` | internal/gui/operation_state.go:358-375 | Within 2^64 moves a token is accepted for no operation but its own |
| `OperationRuns.StaleTokenAccepted` | internal/gui/operation_state.go:377-399 | A run of 2^64 failed scans after which the first token is accepted for a new scan |
| `PreviewQueue.OwnValueNeverLost` | internal/gui/preview_state.go:58-77 | Whatever the consumer receives between any two steps, the producer's value is never dropped: the slot is empty when it sends again |
| `PreviewQueue.ReceivesNewer` | internal/gui/preview_state.go:58-77 | The consumer sees strictly newer values |
| `PreviewQueue.NothingElseHappens` | internal/gui/preview_state.go:58-77 | Every submitted value is received, pending or replaced, and only one of these |
| `PreviewQueue.NewestIsNext` | internal/gui/preview_state.go:58-77 | Between submissions the newest value is pending or taken |
| `PreviewQueue.SubmissionEnds` | internal/gui/preview_state.go:58-77 | Each step of a submission brings it nearer its end, and the consumer never sets it back |
| `PreviewQueue.LatestValueQueue.SubmitValue` | internal/gui/preview_state.go:58-77 | The value is pending in the end; the consumer took at most the one before |
| `PreviewGenerations.AcceptedExactly` | internal/gui/preview_state.go:40-45 | A preview is accepted exactly when the last request was to begin one for this folder revision and the token is that request's |
| `PreviewGenerations.CountersCount` | internal/gui/preview_state.go:18-38 | Both counters count modulo 2^64 |
| `PreviewGenerations.OldTokenAcceptedExactly` | internal/gui/preview_state.go:18-45 | Exactly when an older token would be accepted: both counters moved multiples of 2^64 |
| `PreviewGenerations.FirstTokenAcceptedAgain` | internal/gui/preview_state.go:18-45 | A run of 2^64 + 1 requests for one folder after which the first token is accepted |
| `PreviewGenerations.OnlyTheNewest` | internal/gui/preview_state.go:18-45 | Within 2^64 requests only the newest token is accepted |
| `PreviewGenerations.PreviewGenerationState.BeginPreview` | internal/gui/preview_state.go:18-28 | One step of the counters; the token issued is accepted |
| `PreviewGenerations.PreviewGenerationState.InvalidatePreviews` | internal/gui/preview_state.go:33-38 | One step of the counters; no token is accepted |
| `ReportDocument.BuildDocument` | internal/report/report.go:98-122 | The document of the groups, totals in 64-bit arithmetic |
| `ReportDocument.Summarize` | internal/report/report.go:298-308 | The document's totals without building it; stopped exactly at the first cancelled group, with the totals so far |
| `ReportDocument.TotalExactly` | internal/report/report.go:310-315 | The total is the real one exactly when that fits 64 bits |
| `ReportDocument.TotalTooLarge` | internal/report/report.go:310-315 | Three files of 2^62 bytes make a total of -2^63 |
| `ReportDocument.DocumentReadBack` | internal/report/report.go:399-487 | The JSON value holds the whole document |
| `ReportDocument.ReportTellsRecords` | internal/report/report.go:98-122 | A reader of the JSON form finds of every file the path, size, times, category and root that were recorded, and the totals |
| `JsonReport.TextReadsBack` | internal/report/report.go:399-487 | For every list of groups, empty ones included, the text is one JSON value that reads as the document |
| `Json.StringRoundTrip` | internal/report/report.go:489-496 | An escaped string reads back, whatever follows its end |
| `Json.EscapedIsHarmless` | internal/report/report.go:489-496 | No control character, none of < > & and no line separator is left in an escaped string; harmless text is kept |
| `Json.LexRendered` | internal/report/report.go:399-487 | The tokens of a text are those it was laid out from |
| `Json.Parses` | internal/report/report.go:399-487 | The tokens of a value parse to it, whatever follows |
| `Json.LayoutReads` | internal/report/report.go:399-487 | Every layout of the tokens of a value, with any white space between them, reads as that value |
| `ReportWriter.ContextWriter.Write` | internal/report/report.go:515-531 | All of the data, or on failure a beginning of it, is appended and counted in bytes; it ends written, cancelled or cut short exactly as the context and the destination have it |
| `JsonExport.WriteGroup` | internal/report/report.go:440-480 | One group, streamed part by part, is the text of that group |
| `JsonExport.WriteJson` | internal/report/report.go:399-487 | The streamed report is the text of the document built from the same groups, its bytes counted; interrupted anywhere, a beginning of it; it succeeds exactly when no fault is seen |
| `CsvReport.GuardedIsHarmless` | internal/report/report.go:553-572 | No guarded cell is a formula; harmless cells are unchanged; guarding twice is guarding once |
| `CsvReport.CellsUnderHeadings` | internal/report/report.go:138-178 | Every cell of a row is what its heading says |
| `CsvReport.MarshalCsv` | internal/report/report.go:138-178 | The text of the document's rows |
| `CsvReport.WriteCsv` | internal/report/report.go:317-370 | Streaming from the scan records, through the buffer, writes exactly the text that `MarshalCsv` makes of the document, its bytes counted, and succeeds exactly when no fault is seen; otherwise a beginning of it |
| `CsvReport.TextReadsBack` | internal/report/report.go:138-178 | A reader of CSV gets the rows of the document back, lines within cells ended by CR LF |
| `CsvText.RowsReadBack` | internal/report/report.go:138-178 | The text of any rows reads back as the rows, every cell in its normal form |
| `CsvText.NormalExactly` | internal/report/report.go:140-141 | A cell reads back unchanged exactly when its lines end in CR LF |
| `CsvText.StandsAsItIs` | internal/report/report.go:138-178 | A cell without special characters is not quoted |
| `ReportWriter.BufferedWriter.WriteString` | internal/report/report.go:325 | Destination and buffer hold the text handed over; after a failure the destination holds a beginning of it |
| `CsvReport.SameCounts` | internal/report/report.go:317-370 | The document has as many files in each group as the scan, so both forms write the same rows |
| `CsvReport.ColumnAddsUpToTotal` | internal/report/report.go:133-137 | The group-estimate column sums to the report's total, in its 64 bits |
| `CsvReport.ReportEstimateOnce` | internal/report/report.go:133-137 | The report estimate stands in the first row and no other |
| `AtomicFile.Exporter.WriteFileAtomic` | internal/report/report.go:220-280 | In every state on the way the destination is the old file or the whole new one; it succeeds exactly when every call and check goes well and then installs exactly what was written; failure leaves everything as it was, except that the staging file remains exactly when its removal, the last call, failed too; the count returned is of the bytes that got into the staging file |
| `AtomicFile.StagingLeftBehind` | internal/report/report.go:216-219 | A run in which the write and the removal fail: the staging file is left behind |
| `AtomicFile.ReadersSeeOldOrNew` | internal/report/report.go:216-219 | What that means for a reader of any name |
| `SourceTree.LineInjective` | scripts/TwinTidy.Release.ps1:228-237 | A line is read back from the front of any text |
| `SourceTree.TreeTextInjective` | scripts/TwinTidy.Release.ps1:223-238 | Equal texts come from equal lists of (path, length, hash) |
| `SourceTree.SamePathsSameOrder` | scripts/TwinTidy.Release.ps1:220-221 | Sorting makes the order depend only on the set of paths |
| `SourceTree.CanonicalSorted` | scripts/TwinTidy.Release.ps1:220-221 | The order is that of the first differing UTF-16 unit |
| `SourceTree.SameTextExactly` | scripts/TwinTidy.Release.ps1:212-238 | Two trees have the same text exactly when they hold the same files, however enumerated |
| `SourceTreeBytes.SameBytesExactly` | scripts/TwinTidy.Release.ps1:240-242 | The UTF-8 bytes that are hashed are the same exactly for the same files, however enumerated |
| `SourceTreeBytes.Utf8Injective` | scripts/TwinTidy.Release.ps1:224 | Different well-formed texts have different bytes |
| `SourceTreeBytes.ByteCountExactly` | scripts/TwinTidy.Release.ps1:228 | The count written before a path is the number of its bytes |
| `SourceTree.SortOrdinal` | scripts/TwinTidy.Release.ps1:220-221 | The array is sorted in place by UTF-16 code units |
| `SourceTree.SourceTreeText` | scripts/TwinTidy.Release.ps1:199-238 | The loops build that text; refused exactly when a path escapes the root, or else when one cannot be encoded |
| `StreamInfo.CountNamedStreamsInBuffer` | internal/scanner/file_snapshot_windows.go:102-135 | The walk ends, reads only inside the buffer, and returns the count or error of the chain, for any bytes |
| `StreamInfo.ReadEntry` | internal/scanner/file_snapshot_windows.go:106-125 | One entry's header and name, errors included |
| `StreamInfo.EntryRead` | internal/scanner/file_snapshot_windows.go:105-125 | A written entry is read back, whatever follows |
| `StreamInfo.ChainCounted` | internal/scanner/file_snapshot_windows.go:102-135 | On the encoding of any list of names with any legal padding the count is that of the names neither empty nor the unnamed stream |
| `StreamInfo.CountAtMost` | internal/scanner/file_snapshot_windows.go:102-135 | The count is bounded by the buffer's length |
| `StreamInfo.CountsAsNamedExactly` | internal/scanner/file_snapshot_windows.go:119-127 | A name counts unless, up to its first NUL, it is empty or ::$DATA in any case |
| `StreamWalk.WalkCounted` | internal/scanner/file_snapshot_windows.go:102-135 | A buffer whose entries follow each other inside it to a last one yields the number of named ones |
| `StreamWalk.CountedWalk` | internal/scanner/file_snapshot_windows.go:102-135 | And every buffer that yields a count is one |

## Left out

- ConsolidationSafety.ReportTellsWhereAtReturn: assumes no interference between releasing the candidate's handle and returning, when other processes may move or delete it; nothing is said about a candidate that never verified.
- ConsolidationRequest.EveryPathStillReads: whole requests are followed with failures and cancellations but without outside writers; single candidates are followed with them.
- Scan.ThreeStagesEqualOnePass: each record has one content throughout the two hash stages; a file that changes between them is one that fails to verify.
- Recycling.Recycler.CallAdapter: the adapter is any function the share modes permit; the production adapter always refuses and is not modelled.
- AtomicFile.Exporter.WriteFileAtomic: nobody else changes the directory meanwhile, and the random staging name is not the destination's own name.
- JsonExport.WriteJson: texts are sequences of Unicode scalar values, so replacement of invalid UTF-8 is not modelled; the reader knows integers only and no surrogate escapes.
- ReportWriter.ContextWriter.Write: a write is cut between characters, not within one; the buffer of 4096 is counted in characters.
- PngEncoding.DecodeUndoesEncode: inflate is a parameter that must be right on stored blocks only; general inflate is library code.
- OperationRuns.TokenForItsOwnOperation: bounded by 2^64 generations, because the counter wraps; the exact condition and a counterexample are proved beside it.
- SHA-256 and xxHash are uninterpreted functions.
- Path cleaning, case folding, containment, scope validation and reparse-point checks are parameters or possible failures of a call.
- Times are integers, formatted by a parameter; progress messages, error texts and diagnostics are not modelled, errors are the classes the code branches on.
- Windows handle details beyond share modes, COM and Shell calls, UI widgets, preview contents, settings, command-line flags, category tables.
- SourceTreeBytes.SameBytesExactly: the SHA-256 over these bytes, the digest itself, is not modelled.
- Filters of scan options, root authorization and the removal of identical roots: records come in with distinct paths.
