# The sync engine of the AeorDB desktop client, verified

This project models the sync engine of `aeordb-client-lib` and proves what its parts promise one
another: push, pull, the metadata store, the activity index, the ownership of nested
relationships, the runner and the preference store.

The state is the one the engine works on: a local tree (path to bytes and time, or symlink), a
remote server (path to content, and a store of chunks by hash), the metadata map of a
relationship, its pull checkpoint, and the marker of a root migration. Hashing is ideal: a digest
is told apart by what was hashed and by nothing else. Calls to the server and to the operating
system are atomic steps that succeed, fail, or answer something else, and every theorem holds for
all of their outcomes unless it says otherwise.

| file | what it models |
| --- | --- |
| `Prelude.dfy`, `Chunks.dfy`, `Paths.dfy` | small datatypes; content, chunks and hashes; local and remote names and the names of a moved root |
| `Planning.dfy`, `Batching.dfy`, `Upload.dfy` | planning a batch in parallel; batch limits and the manifest estimate; check, upload, commit |
| `Assemble.dfy`, `Pull.dfy`, `PullMirror.dfy`, `PullSync.dfy` | putting one file together; the pull as a function of the diff, the tree before and what goes wrong; when it keeps the mirror; the pull as methods |
| `PullTerritory.dfy`, `PullOutcomes.dfy` | what a pull passes over, and whose paths it leaves alone; what its counters count, and what its deletions find behind symlinks |
| `MetadataStore.dfy`, `Activity.dfy` | the bucketed store with its two older layouts; the activity log and its index |
| `Hierarchy.dfy`, `Runner.dfy`, `MergePatch.dfy` | ownership of remote and local paths; execution guards and retries; JSON merge patch |
| `Push.dfy`, `PushSync.dfy`, `PushUpload.dfy` | the push as a function of the tree and of what goes wrong; the push as methods; its batches against `Upload` |
| `PushFacts.dfy` | what flushes and files touch and leave alone, for every argument about pushes |
| `PushAccounts.dfy`, `PushJustified.dfy` | counting and batch limits; where records come from |
| `PushClean.dfy`, `PushResult.dfy`, `PushScans.dfy`, `PushResume.dfy` | a push without failures, path by path; its result; Lite and Full scans, no echo; stopping and starting again |
| `PushTree.dfy` | the result of a push said of the walked tree itself, the operations it may ask for, and a file followed through a root migration |
| `PushOverlap.dfy`, `PushUnderOverlap.dfy` | roots whose names overlap, and quiescence; the result of a push under overlap, and files with work of their own |
| `PushMigration.dfy` | which deletions are asked for, over runs of pushes, pulls and root changes |

Code that changes state step by step is a class whose methods are proved against a function from
the old state to the new one (`State() == Flush(old(State()), out)`); the theorems are about those
functions. An outcome parameter such as `out` records which way the outside world went, and a
`Trace` records it for a whole run, together with the order in which concurrent work finished.

## What turned out not to hold

The code is modelled as it is. Where a natural claim fails, the exact condition is proved:

- A pull saves its checkpoint whatever failed, so a failed path is not asked for again; whether it
  is mirrored all the same is decided by its own file, deletion and symlink
  (`PullMirror.FailureMovesCheckpointAnyway`, `Pull.PathMirrorsIffThrough`).
- What a pull without failures leaves at any place can be told from the diff, the tree before and
  which of the old files could be hashed (`PullMirror.EndsAsForetold`,
  `PullMirror.MirroredIffForetold`), and it is not always the new snapshot. At a path that nothing
  else of the diff lands on it is, unless the path is `PullMirror.Lost`: a symlink that became a
  file goes with the symlink's deletion, which runs last, or reuses what the file behind the
  symlink has become; a file whose name is the temporary name
  of an entry pulled later goes with that entry's rename; and what is gone on the server stays
  where deletions do not propagate (`PullMirror.PullKeepsMirrorIff`,
  `PullMirror.TemporaryNameLosesFile`).
- The diff covers the whole server, and a pull takes in paths outside the base. Such a path lands
  on the local file of another path, or on none; the last entry to reach a place decides
  (`PullMirror.FileMirroredIffLast`, `PullMirror.AbsentMirroredIffLast`,
  `PullMirror.ForeignFileTakesOver`, `Paths.ForeignPathCollides`, `Paths.RemoteOfLocalIffCanonical`).
- A pulled file has the content of its chunks if and only if every chunk it reuses is still in its
  place when its turn comes, for nothing compares the file with its hashes
  (`Pull.PulledWholeIff`, `Assemble.AssembledIffStillThere`). What is read may have become another
  file since it was hashed: an entry from outside the base has landed there
  (`PullMirror.ForeignFileIsReused`), or the local file is a symlink and its target has been pulled
  (`PullMirror.FileBehindLinkIsReused`). Both end without a failure and with a record that says
  `Synced`; it takes an earlier entry that left a file on the way to the old one
  (`PushJustified.MisassembledIff`).
- The lazy migration of the metadata store preserves the map if and only if no index document
  misses a per-file document (`MetadataStore.MigrationPreservesViewIffCovered`); over any run of the
  store a record reads back as written, but for the files so hidden at the start
  (`MetadataStore.RecordReadsBack`).
- A backfill of the activity index keeps what the first caller asked for; a later, longer read
  agrees with the log if and only if nothing was cut (`Activity.BackfillTruncatesIndex`). A pending
  progress event is stored among the others and takes one place (`Activity.BackfillWithProgress`).
  The backfill takes the order of the file names for that of the events, which it is for timestamps
  of equally many digits (`Activity.FilesAreNewestFirst`), and opens enough files unless ids repeat
  (`Activity.CandidatesSufficeIff`).
- The deletion of a file follows symlinks to see whether there is anything to delete: a dangling
  symlink in its place stays (`PullOutcomes.DeletionThroughLinks`).
- Two relationships with the same root both handle its paths
  (`Hierarchy.UniqueOwnerIffRootsDistinct`, `Hierarchy.SharedRootHasTwoHandlers`).
- A direct upload records the hash the file had before; the record is true if and only if the file
  did not change (`Upload.DirectPutMatchesIffUnchanged`). A 403 is recorded as `Synced`
  (`PushJustified.ForbiddenIsRecordedSynced`).
- A root migration loses a file whose remote name is the old name of another file, if and only if
  the verified move applies to it; the push that follows uploads a file again if and only if its
  record was taken (`PushOverlap.OverlappedFileIsLostIff`, `PushOverlap.HashSkippedFileIsLostIff`,
  `PushOverlap.UploadedAgainIffTaken`). A folder moved to
  its parent is such a root (`PushOverlap.ParentRootLosesFile`). Where two files share an old name,
  the order in which they get ready decides what becomes of the old file
  (`PushOverlap.OldNameFate`, `PushOverlap.SharedOldNameOrderDecides`), so the theorem that a
  stopped push can be resumed asks for `NonOverlap`, and the one that a result does not depend on
  the order for at most one file looking back to a path whose own file needs no work
  (`PushUnderOverlap.MildPushIsDetermined`); sharing needs an old root two or more levels inside
  the new one (`Paths.SharedOldNameNeedsNesting`). A file that does need work is lost to another
  of the same content that meets it on the server
  (`PushUnderOverlap.WorkedFileIsLostIff`, `PushUnderOverlap.LargeCopyIsLost`).
- A root migration does not keep the remote files of the old base from deletion: once its marker
  is gone, a pull records any path of that base another client has changed, and the push of the
  same cycle deletes it - exactly then (`PushMigration.DeletionAfterMigrationIff`,
  `PushMigration.EditUnderOldBaseIsDeleted`). Without such a pull nothing is deleted
  (`PushMigration.MigrationDeletesNothing`).
- A second root change overwrites the marker, and what the first migration had not finished is
  deleted unless the second base covers it too (`PushMigration.SecondRootChangeDeletes`); when a
  deletion is asked for is characterized for any run by `PushMigration.DeletionIff`. An entry that
  cannot be examined, or that the filter rejects, is not marked as seen: with a record, its remote
  file is deleted (`PushMigration.UnmarkedFileIsTakenForDeleted`).

- A status query takes the execution guard for a moment to see whether it is free: a trigger at
  that moment is refused, and another query reports `executing`, though nobody executes
  (`Runner.GoesAheadIffFree`, `Runner.QueryRefusesTrigger`, `Runner.SyncRunner.Status`).

Reads may be short, so the chunks of an upload need not lie on the `chunk_size` grid; the planning
and upload theorems hold for any cut. Only the bound of the manifest estimate needs full reads.

## Model

| member | source | states |
|---|---|---|
| Paths.LocalOfRemote | aeordb-client-lib/src/sync/pull.rs:535-553 | a local path survives the trip to its remote name and back |
| Paths.RemotePathInjective | aeordb-client-lib/src/sync/push.rs:1265-1280 | different files have different remote names |
| Paths.RemoteOfLocalIffCanonical | aeordb-client-lib/src/sync/pull.rs:535-553 | a remote path survives the trip to disk and back if and only if it is canonical below the base |
| Paths.ForeignPathCollides | aeordb-client-lib/src/sync/pull.rs:540-552 | a sibling of the base whose name begins like it lands on another file's local path |
| Paths.WhereAnyPathLands | aeordb-client-lib/src/sync/pull.rs:540-552 | a path that does not begin like the base lands whole below the local base; one that does, without that beginning |
| Paths.NoLegacyNamesWithSlash | aeordb-client-lib/src/sync/push.rs:1282-1288 | where the separator is the slash, no entry has a legacy name |
| Paths.LegacyNameInSubfolders | aeordb-client-lib/src/sync/push.rs:1282-1293 | with another separator exactly the files in subfolders have one, joined by it |
| Paths.OldRemotePathUnderOldBase | aeordb-client-lib/src/sync/push.rs:1160-1177 | the old remote name of an entry lies under the old remote base |
| Paths.OldNameBelowOldRoot | aeordb-client-lib/src/sync/push.rs:1160-1167 | an entry below the old local root has the name it had there, whichever of the roots has changed |
| Paths.OldNameBelowNamesake | aeordb-client-lib/src/sync/push.rs:1169-1177 | so has an entry below a folder of the old root's name in the new root, if it is not below the old root |
| Paths.NoOldNameElsewhere | aeordb-client-lib/src/sync/push.rs:1160-1177 | no other entry has an old name |
| Paths.UnderRemoteBaseIff | aeordb-client-lib/src/sync/push.rs:1206-1209 | a name is under a base exactly if it is the base without its last slashes or goes on with a slash |
| Paths.SharedOldNameNeedsNesting | aeordb-client-lib/src/sync/push.rs:1160-1177 | two entries share an old name only if the old root lies two or more levels inside the new one |
| Paths.ParentRootOverlaps | aeordb-client-lib/src/sync/push.rs:1160-1177 | a root moved to its parent makes one file's old name its sibling's name |
| Planning.PlanFileChunks | aeordb-client-lib/src/sync/push.rs:2573-2619 | the reading loop computes the plan of one file: refused unless the bytes read have the queued size and hash |
| Planning.PlannedFileIsQueuedContent | aeordb-client-lib/src/sync/push.rs:2573-2619 | however the reads were cut, the planned chunks spell out exactly the content that was queued |
| Planning.PlanPushBatchRange | aeordb-client-lib/src/sync/push.rs:2530-2566 | one worker's range: its commit files with their positions, and a chunk table in order of first occurrence |
| Planning.MergePartialPushBatchPlans | aeordb-client-lib/src/sync/push.rs:2621-2650 | merging partial plans gives back input order and first occurrences |
| Planning.PlanPushBatch | aeordb-client-lib/src/sync/push.rs:2492-2528 | for every worker count the result, or the first error, of planning all files in one go |
| Planning.PlansIffUnchanged | aeordb-client-lib/src/sync/push.rs:2530-2619 | a batch is planned if and only if every file reads to its end as it was queued; otherwise the error is that of the first file that does not |
| Planning.PlanPromises | aeordb-client-lib/src/sync/push.rs:2492-2566 | unique hashes are duplicate-free, are the keys of the upload table and the union of all file chunks, and each commit file spells out its queued content under its path and content type |
| Planning.TableKeepsFirst | aeordb-client-lib/src/sync/push.rs:2530-2566 | a chunk is uploaded from the place where it occurs first |
| Planning.TablePointsIntoFiles | aeordb-client-lib/src/sync/push.rs:2573-2619 | every chunk to upload is where its reference points: some file of the batch has it at that offset |
| Planning.OverlayIsTableOfBoth | aeordb-client-lib/src/sync/push.rs:2621-2650 | the tables of two ranges overlay to the table of both |
| Batching.PushBatch.ShouldFlushBefore | aeordb-client-lib/src/sync/push.rs:2398-2407 | saturating totals decide as the exact ones would |
| Batching.PushBatch.ShouldFlushNow | aeordb-client-lib/src/sync/push.rs:2409-2413 | saturating totals decide as the exact ones would |
| Batching.PushBatch.Push | aeordb-client-lib/src/sync/push.rs:2415-2421 | the totals stay the saturated totals of the files |
| Batching.PushBatch.TakeFiles | aeordb-client-lib/src/sync/push.rs:2668-2674 | a flush takes all files and leaves an empty batch |
| Batching.QueueCandidate | aeordb-client-lib/src/sync/push.rs:787-827 | which batches are handed over while a candidate is queued, and which one is left |
| Batching.QueuedWithinLimits | aeordb-client-lib/src/sync/push.rs:787-827 | what is handed over has at most 32 files and is one file or within 64 MiB and 8192 chunks; what is left is not overdue |
| Batching.FlushesBeforeIffTooMuch | aeordb-client-lib/src/sync/push.rs:2398-2407 | the batch is handed over before the candidate joins exactly if the two together would be beyond 32 files, 64 MiB or 8192 chunks |
| Batching.FlushesNowIffFull | aeordb-client-lib/src/sync/push.rs:2409-2413 | and at once exactly if no file with a byte would go with it any more |
| Batching.QueuedKeepsFiles | aeordb-client-lib/src/sync/push.rs:787-827 | queueing loses, repeats and reorders no file |
| Batching.EstimatedBlobCommitBodyBytes | aeordb-client-lib/src/sync/push.rs:2434-2470 | the saturating loop computes the saturated sum of the per-file estimates |
| Batching.FullReadsMeetEstimate | aeordb-client-lib/src/sync/push.rs:2424-2432 | with full reads a file has exactly the estimated number of chunks |
| Batching.EstimateBoundsManifest | aeordb-client-lib/src/sync/push.rs:2434-2476 | with full reads the estimate is above the exact length of the JSON manifest by a known amount a file, so it is a bound |
| Batching.EscapedAllReadsBack | aeordb-client-lib/src/sync/push.rs:2450-2459 | text written as a JSON string reads back as itself, and only what needs an escape has one |
| Batching.OnlySingleFilesGoDirect | aeordb-client-lib/src/sync/push.rs:2826-2874 | with bounded path and content-type lengths only batches of a single file take the direct upload |
| Upload.Server.BlobCheck | aeordb-client-lib/src/remote/mod.rs:1319-1339 | the batched answers cover every hash asked about, and `have` is stored |
| Upload.Server.BlobCheckOnce | aeordb-client-lib/src/remote/mod.rs:1341-1378 | every hash asked about is answered with `have` or `needed`, and `have` is stored |
| Upload.Server.UploadChunk | aeordb-client-lib/src/remote/mod.rs:1380-1417 | an accepted chunk is stored, and no stored chunk ever changes |
| Upload.Server.BlobCommit | aeordb-client-lib/src/remote/mod.rs:1419-1448 | asks that every named chunk be stored; success gives every commit file the bytes behind its chunk hashes |
| Upload.Server.PutFile | aeordb-client-lib/src/remote/mod.rs:809-848 | the file becomes the streamed body, whatever was hashed before |
| Upload.ReadPendingChunk | aeordb-client-lib/src/sync/push.rs:3151-3169 | only bytes of the planned length and hash pass, whatever the file has become |
| Upload.UploadNeeded | aeordb-client-lib/src/sync/push.rs:2908-2970 | uploads in any order, with any failure; on success every chunk is stored |
| Upload.CheckUploadCommit | aeordb-client-lib/src/sync/push.rs:2876-2998 | the one call of `blob_commit` meets its demand that every named chunk be stored |
| Upload.PushBatchViaChunks | aeordb-client-lib/src/sync/push.rs:2801-2998 | success means every planned commit, or the direct uploads exactly when the manifest is too long; failure leaves the old tree or all commits, or the first direct uploads |
| Upload.SeveralFilesGoChunked | aeordb-client-lib/src/sync/push.rs:2826-2874 | a batch of several files within the limits, with bounded names and full reads, does not go direct |
| Upload.PushBatchViaDirectFilePut | aeordb-client-lib/src/sync/push.rs:3025-3149 | whatever the outcome, the first files hold what was streamed for them and nothing else has changed; on success all of them do |
| Upload.CommittedFilesMatch | aeordb-client-lib/src/sync/push.rs:2845-2998 | a committed batch leaves each path with exactly the bytes of its recorded hash and size, and other paths alone |
| Upload.DirectPutMatchesIffUnchanged | aeordb-client-lib/src/sync/push.rs:3025-3149 | a direct upload matches its record if and only if the file still had the hashed content |
| Upload.DirectPutOfChangedFile | aeordb-client-lib/src/sync/push.rs:3025-3149 | a file changed under way whose record names a hash the server does not hold |
| PushUpload.CommittedBatchLands | aeordb-client-lib/src/sync/push.rs:2801-2998 | a batch through the chunked protocol is, to the push, every file landed under its queued hash |
| PushUpload.PutBatchLands | aeordb-client-lib/src/sync/push.rs:3025-3149 | a batch of direct uploads lands what was streamed; a file is overtaken exactly when that hashes differently |
| PushUpload.PushBatch | aeordb-client-lib/src/sync/push.rs:2801-3149 | successful or not, an upload is a delivery as the push knows them: all files under their queued hashes or none, or the first ones as streamed if it goes direct; everything on success |
| Assemble.LocalFs.HashLocalFileChunks | aeordb-client-lib/src/sync/pull.rs:565-614 | the places of the chunks on the file's grid, the last one of equal chunks; the hashes are exactly those of the grid, and each holds at its place |
| Assemble.LocalFs.FillBuffer | aeordb-client-lib/src/sync/pull.rs:582-600 | short reads are put together until the buffer is full or the file ends |
| Assemble.LocalFs.ReadChunks | aeordb-client-lib/src/sync/pull.rs:640-690 | what is put together is, chunk by chunk, what lies in the planned place of the file as it is now, or what was fetched; with every chunk at hand none is missing |
| Assemble.LocalFs.AssembleFile | aeordb-client-lib/src/sync/pull.rs:620-714 | success replaces the destination with exactly what the file there by then and the fetched chunks give; an error changes nothing but the temporary file; with every chunk at hand the only error is I/O |
| Assemble.AssembledIffStillThere | aeordb-client-lib/src/sync/pull.rs:640-690 | a file put together over any other version of the file that was hashed has the content of its hashes if and only if every reused chunk is still in its place |
| Assemble.PlacesOfGrid | aeordb-client-lib/src/sync/pull.rs:578-611 | the chunks that can be reused are exactly those of the grid |
| Assemble.GridPieces | aeordb-client-lib/src/sync/pull.rs:578-611 | every piece of the grid but the last is one chunk long, and the last is not empty |
| Assemble.ChainIsFollowed | aeordb-client-lib/src/sync/pull.rs:572-577 | a chain of symlinks leads to what stands at its end, if it is no longer than the system follows, and otherwise to nothing |
| Assemble.ChunkRoundTrip | aeordb-client-lib/src/sync/pull.rs:620-714 | chunk hashes of any split of a file stand for that file |
| Assemble.ConcatOfGrid | aeordb-client-lib/src/sync/pull.rs:565-614 | splitting on the chunk grid and concatenating is the identity |
| PullSync.FetchChunks | aeordb-client-lib/src/sync/pull.rs:192-216 | batches of honest answers give the bytes behind every hash asked for, or the fetch failed |
| PullSync.PullSync.PlanFiles | aeordb-client-lib/src/sync/pull.rs:100-190 | every chunk of every planned file is found on disk or asked for |
| PullSync.PullSync.AssembleOne | aeordb-client-lib/src/sync/pull.rs:218-273 | one entry: skipped by exclusion or filter, failed, or written and recorded |
| PullSync.PullSync.AssembleFiles | aeordb-client-lib/src/sync/pull.rs:218-273 | the entries in order; every file pulled comes out as its plan, the file there by then - behind a symlink or not - and its chunks give |
| PullSync.PullSync.DeleteFile | aeordb-client-lib/src/sync/pull.rs:275-308 | a deleted file and its record go; a dangling symlink in its place stays |
| PullSync.PullSync.MakeLink | aeordb-client-lib/src/sync/pull.rs:310-401 | whatever is in the way is removed first; failure may leave nothing |
| PullSync.PullSync.DeleteLink | aeordb-client-lib/src/sync/pull.rs:403-441 | anything found at the path is removed |
| PullSync.PullSync.PullSync | aeordb-client-lib/src/sync/pull.rs:67-451 | the phases in order give exactly `Pull.After` of possible outcomes, for any diff; the checkpoint moves to the new root hash unless it cannot be saved; no record below a child's root changes |
| PullTerritory.SkippedIff | aeordb-client-lib/src/sync/pull.rs:125-141 | passed over are exactly the files below a child's root or with a last name the filter rejects, and the symlinks and deletions below a child's root; without propagation every deletion |
| PullTerritory.ChildRecordStays | aeordb-client-lib/src/sync/pull.rs:125-441 | for any diff and any outcomes the record of a path below a child's root stays as it was |
| PullTerritory.ChildNodeStays | aeordb-client-lib/src/sync/pull.rs:125-441 | and so does any place on disk where only such paths of the diff arrive |
| PullTerritory.PullKeepsToItsTerritory | aeordb-client-lib/src/sync/pull.rs:115-122 | in the terms of the hierarchy: a path that the relationship covers but does not handle |
| PullTerritory.OnePullTakesThePath | aeordb-client-lib/src/sync/hierarchy.rs:10-44 | of all pulls of relationships that cover a changed file exactly one does not pass over it: the one with the longest root |
| PullOutcomes.CountersAreOutcomes | aeordb-client-lib/src/sync/pull.rs:67-451 | every counter is the count of its outcomes, and every file of the diff is pulled, skipped or failed |
| PullOutcomes.DeletionThroughLinks | aeordb-client-lib/src/sync/pull.rs:275-308 | a file deletion at a symlink removes it only if the chain of symlinks ends at something; it is counted and its record goes either way; a symlink deletion removes it always |
| PullOutcomes.DeletionThroughOutsideLink | aeordb-client-lib/src/sync/pull.rs:275-308 | the same where the symlink leads out of the tree |
| Pull.NodeIs | aeordb-client-lib/src/sync/pull.rs:218-441 | what any pull, with whatever failures and collisions, makes of any place on disk |
| Pull.RecordIs | aeordb-client-lib/src/sync/pull.rs:236-441 | what any pull makes of the record of any path |
| Pull.FailedCountsFailures | aeordb-client-lib/src/sync/pull.rs:218-441 | `files_failed` stays put exactly when nothing failed |
| Pull.PathMirrorsIffThrough | aeordb-client-lib/src/sync/pull.rs:67-451 | whatever fails, a path that nothing else of the diff lands on mirrors the new snapshot if and only if its own file, deletion and symlink went through, or its content did not change |
| Pull.PulledWholeIff | aeordb-client-lib/src/sync/pull.rs:620-690 | in any pull, a pulled file has its content if and only if every chunk it reuses is in its place at its turn; it is, unless an earlier entry has left a file on the way to the old one |
| PullMirror.PullKeepsMirrorIff | aeordb-client-lib/src/sync/pull.rs:67-451 | with no failure, a tracked path that nothing else of the diff lands on mirrors the new snapshot if and only if it is not lost to a symlink deletion, to a changed file behind a symlink, to a temporary name of a later entry, or to deletions that do not propagate |
| PullMirror.EndsAsForetold | aeordb-client-lib/src/sync/pull.rs:67-451 | a pull of any diff from any state, with no failure: every place ends as told beforehand by the diff, the tree and which old files could be hashed - the last symlink deletion, symlink, file deletion that found something, or file entry to reach it |
| PullMirror.MirroredIffForetold | aeordb-client-lib/src/sync/pull.rs:67-451 | so any path, whatever lands on it, mirrors a snapshot if and only if that node does |
| PullMirror.FileMirroredIffLast | aeordb-client-lib/src/sync/pull.rs:218-273 | where other entries do land on a file, it is mirrored if and only if the last entry to reach it lands there and is foretold, from the diff and the tree before, to come out as its content |
| PullMirror.AbsentMirroredIffLast | aeordb-client-lib/src/sync/pull.rs:132-148 | a tracked path that the server does not have stays empty unless an entry, from outside the base, lands there last |
| PullMirror.RunKeepsMirror | aeordb-client-lib/src/sync/pull.rs:67-451 | over any run of pulls without failures a path that is never landed on nor lost is what the saved checkpoint shows |
| PullMirror.FailureMovesCheckpointAnyway | aeordb-client-lib/src/sync/pull.rs:443-451 | the checkpoint moves whatever failed; a path is what the new one shows if and only if its own outcomes went through |
| PullMirror.TemporaryNameLosesFile | aeordb-client-lib/src/sync/pull.rs:620-714 | a diff of two new files whose first is gone after a pull without failures: its name is the temporary one of the second |
| PullMirror.OppositeOrderKeepsFile | aeordb-client-lib/src/sync/pull.rs:620-714 | the same diff in the opposite order keeps it |
| PullMirror.ForeignFileTakesOver | aeordb-client-lib/src/sync/pull.rs:132-148 | a diff whose one file lies beside the base and replaces an unchanged file inside it; the mirror holds if and only if the contents agree |
| PullMirror.ForeignFileIsReused | aeordb-client-lib/src/sync/pull.rs:620-690 | a diff where a file is put together from the file beside the base that has just landed on it: wrong, recorded as `Synced`, no failure |
| PullMirror.FileBehindLinkIsReused | aeordb-client-lib/src/sync/pull.rs:572-637 | a diff where a local symlink to another pulled file makes a file come out wrong, recorded as `Synced`, no failure |
| Pull.PulledFileIsRecorded | aeordb-client-lib/src/sync/pull.rs:236-258 | the record of a pulled file that nothing later in the diff concerns describes exactly the file on disk |
| MetadataStore.SyncMetadataStore.GetFileMeta | aeordb-client-lib/src/sync/metadata.rs:87-111 | reads the map, in any layout |
| MetadataStore.SyncMetadataStore.EnsureV2Storage | aeordb-client-lib/src/sync/metadata.rs:199-232 | afterwards the buckets hold the entries of the index document, or of the per-file documents if there is none (`FilesComeThroughMigration`, `IndexComesThroughMigration`) |
| MetadataStore.SyncMetadataStore.SetFileMeta | aeordb-client-lib/src/sync/metadata.rs:113-119 | updates the map at one path |
| MetadataStore.SyncMetadataStore.SetFileMetasBatch | aeordb-client-lib/src/sync/metadata.rs:121-155 | updates the map by the records in order |
| MetadataStore.SyncMetadataStore.DeleteFileMeta | aeordb-client-lib/src/sync/metadata.rs:157-184 | removes one path from the map, and hides and uncovers no other |
| MetadataStore.SyncMetadataStore.ListFileMetas | aeordb-client-lib/src/sync/metadata.rs:186-197 | the records of the listing, each once |
| MetadataStore.CheckpointReadsBack | aeordb-client-lib/src/sync/metadata.rs:341-446 | after any operations the checkpoint reads as the hash last set, if no clearing, root change or reset came after; markers and other relationships do not matter |
| MetadataStore.SyncMetadataStore.SetCheckpoint | aeordb-client-lib/src/sync/metadata.rs:347-353 | sets it and changes no record |
| MetadataStore.SyncMetadataStore.ClearCheckpoint | aeordb-client-lib/src/sync/metadata.rs:355-365 | clears it and changes no record |
| MetadataStore.SyncMetadataStore.BeginPathMigration | aeordb-client-lib/src/sync/metadata.rs:367-390 | clears the checkpoint and stores the marker over any earlier one |
| MetadataStore.SyncMetadataStore.ClearPathMigration | aeordb-client-lib/src/sync/metadata.rs:399-410 | clears the marker and changes no record |
| MetadataStore.SyncMetadataStore.ClearRelationshipState | aeordb-client-lib/src/sync/metadata.rs:412-446 | the map, the checkpoint and the marker are gone; every document of every other relationship is as before |
| MetadataStore.LookupReadsView | aeordb-client-lib/src/sync/metadata.rs:87-111 | looking a path up reads the one map |
| MetadataStore.MigrationPreservesViewIffCovered | aeordb-client-lib/src/sync/metadata.rs:199-232 | the migration preserves the map if and only if there is no index document that misses a per-file document |
| MetadataStore.MigrationForgetsHidden | aeordb-client-lib/src/sync/metadata.rs:199-232 | it forgets exactly the files that such a document misses |
| MetadataStore.FilesComeThroughMigration | aeordb-client-lib/src/sync/metadata.rs:254-274 | from the first layout exactly the records of the per-file documents come through |
| MetadataStore.IndexComesThroughMigration | aeordb-client-lib/src/sync/metadata.rs:254-274 | from the second layout exactly the entries of the index document do |
| MetadataStore.RecordReadsBack | aeordb-client-lib/src/sync/metadata.rs:87-446 | from any database, over any run on any relationships: a path looks up as the record last written and not deleted or cleared since, or as at the start if untouched and not hidden there |
| MetadataStore.ListingIsViewIffCovered | aeordb-client-lib/src/sync/metadata.rs:186-197 | the listing shows the map if and only if the index document covers the files or is empty, and otherwise the entries of that document |
| MetadataStore.UncoveredFileIsForgotten | aeordb-client-lib/src/sync/metadata.rs:199-232 | an index document that misses a file: the migration forgets the file |
| MetadataStore.CoalescedBatchEqualsOneByOne | aeordb-client-lib/src/sync/push.rs:1150-1158 | writing a coalesced batch in any order equals writing every record in turn |
| MetadataStore.CoalesceFileMetas | aeordb-client-lib/src/sync/push.rs:1150-1158 | the last record of every path, once |
| Activity.SyncActivityLog.LogEvent | aeordb-client-lib/src/sync/activity.rs:48-67 | a durable event is stored and indexed and ends the pending progress; a progress event only replaces the pending one |
| Activity.SyncActivityLog.UpdateLatestEventsIndex | aeordb-client-lib/src/sync/activity.rs:138-151 | the index becomes the latest 100 of itself and the event |
| Activity.SyncActivityLog.GetEvents | aeordb-client-lib/src/sync/activity.rs:69-136 | reads the index, or fills it from the log first |
| Activity.SortDedupeTruncate | aeordb-client-lib/src/sync/activity.rs:284-290 | sorts newest first, keeps the newest event of every id, cuts to the limit (what that means for readers: `ReadIsNewestFirst`, `ReadShowsTheNewest`) |
| Activity.SortIsStableSort | aeordb-client-lib/src/sync/activity.rs:284-290 | the sort is ordered and stable |
| Activity.LatestOfTruncated | aeordb-client-lib/src/sync/activity.rs:138-151 | the latest of a truncated list and one more event are the latest of everything |
| Activity.IndexAgreesWithLog | aeordb-client-lib/src/sync/activity.rs:48-151 | after any events, a read of up to 100 is the sorted, deduplicated, truncated log plus the pending progress, even with repeated ids |
| Activity.ReadIsNewestFirst | aeordb-client-lib/src/sync/activity.rs:284-290 | for any log and limit, what is read has falling timestamps, falling ids among equal ones, no id twice, and at most the limit |
| Activity.ReadShowsTheNewest | aeordb-client-lib/src/sync/activity.rs:48-151 | up to a hundred: only logged events are shown, and each durable one under its id in a version no older, or not at all because the list is full of events no older |
| Activity.ReadShowsProgress | aeordb-client-lib/src/sync/activity.rs:48-151 | the same for a progress event that is still pending |
| Activity.StringLeIsLexicographic | aeordb-client-lib/src/sync/activity.rs:284-285 | the order of ids: a prefix first, otherwise by the first difference |
| Activity.FilesHoldTheLog | aeordb-client-lib/src/sync/activity.rs:48-66 | the event files stand in descending order of their names, each holding the last durable event of its name |
| Activity.FilesAreNewestFirst | aeordb-client-lib/src/sync/activity.rs:100-117 | for timestamps of equally many digits and distinct ids of eight characters that order is newest first |
| Activity.CandidatesSufficeIff | aeordb-client-lib/src/sync/activity.rs:118-134 | where ids repeat, the files a backfill opens suffice if and only if they hold as many ids as were asked for, or all |
| Activity.BackfillTruncatesIndex | aeordb-client-lib/src/sync/activity.rs:86-134 | after a backfill, a later read agrees with the log if and only if the first caller's limit cut nothing of it |
| Activity.BackfillWithProgress | aeordb-client-lib/src/sync/activity.rs:86-134 | with a progress event pending at the backfill, the exact bound, which depends on where that event stands |
| Activity.BackfillLosesAnEvent | aeordb-client-lib/src/sync/activity.rs:130-133 | a backfill with limit 1 that hides an event from the next reader |
| Hierarchy.ChildExclusions | aeordb-client-lib/src/sync/hierarchy.rs:10-35 | the loop collects exactly the roots strictly inside, on the same connection |
| Hierarchy.ChildLocalExclusions | aeordb-client-lib/src/sync/hierarchy.rs:54-75 | the same for local roots, by components |
| Hierarchy.OwnsIffLongest | aeordb-client-lib/src/sync/hierarchy.rs:10-44 | owning a path means being the longest root that covers it |
| Hierarchy.CoveredPathHasOwner | aeordb-client-lib/src/sync/hierarchy.rs:10-44 | a covered path has an owner |
| Hierarchy.HandlesIsOwns | aeordb-client-lib/src/sync/hierarchy.rs:10-44 | the exclusions of the code decide ownership |
| Hierarchy.PathHasOneHandler | aeordb-client-lib/src/sync/hierarchy.rs:10-44 | with distinct roots on one connection a covered path has exactly one relationship that handles it, the one with the longest root |
| Hierarchy.UniqueOwnerIffRootsDistinct | aeordb-client-lib/src/sync/hierarchy.rs:10-44 | unique ownership holds if and only if the roots are distinct |
| Hierarchy.SharedRootHasTwoHandlers | aeordb-client-lib/src/sync/hierarchy.rs:10-44 | relationships with one root both handle its paths |
| Hierarchy.PrefixRespectsDirectories | aeordb-client-lib/src/sync/relationships.rs:289-301 | with a root as it is normalized a string prefix is a directory prefix |
| PushSync.PushRun.ScanEntries | aeordb-client-lib/src/sync/push.rs:283-475 | the scan loop computes `ScanAll` and changes nothing but the counters |
| PushSync.PushRun.FlushPendingMetadataUpdates | aeordb-client-lib/src/sync/push.rs:958-979 | the coalesced batch writes what the records one by one would |
| PushSync.PushRun.UploadBatch | aeordb-client-lib/src/sync/push.rs:2801-3149 | what arrives of an upload, whatever is answered; only a batch whose manifest may be too long goes direct |
| PushSync.PushRun.IsolateFiles | aeordb-client-lib/src/sync/push.rs:2741-2777 | file by file until an error ends the push; a refused file may have landed all the same |
| PushSync.PushRun.RecordPushFailure | aeordb-client-lib/src/sync/push.rs:3293-3338 | transient and unrecoverable errors end the push; a 403 is suppressed; others are counted |
| PushSync.PushRun.FlushPushBatch | aeordb-client-lib/src/sync/push.rs:2652-2799 | the new state is `Flush` of the old one, also where a failed attempt took effect |
| PushSync.PushRun.CompleteEntry | aeordb-client-lib/src/sync/push.rs:301-337 | counts the entry and flushes the batch at every hundredth |
| PushSync.PushRun.SkipByHash | aeordb-client-lib/src/sync/push.rs:571-601 | the record is rewritten only if size, time or status differ |
| PushSync.PushRun.RenameAndRecord | aeordb-client-lib/src/sync/push.rs:683-720 | rename, old record out, new record in, stopping at the first that fails |
| PushSync.PushRun.TryMove | aeordb-client-lib/src/sync/push.rs:670-735 | moves exactly when the recorded old file was verified on the server |
| PushSync.PushRun.TryAdopt | aeordb-client-lib/src/sync/push.rs:737-785 | adopts exactly when the target was verified |
| PushSync.PushRun.QueueFile | aeordb-client-lib/src/sync/push.rs:787-827 | flush before, push, flush now, as the limits say |
| PushSync.PushRun.HandlePrepared | aeordb-client-lib/src/sync/push.rs:571-827 | the branches in the order of the code |
| PushSync.PushRun.ProcessFiles | aeordb-client-lib/src/sync/push.rs:462-830 | the files in the order in which they get ready, until an error ends the push |
| PushSync.PushRun.PushSymlink | aeordb-client-lib/src/sync/push.rs:1014-1112 | one symlink: already present in a Lite scan, made, or failed |
| PushSync.PushRun.PushPendingSymlinks | aeordb-client-lib/src/sync/push.rs:981-1136 | symlinks present, made or failed, and their records in one batch |
| PushSync.PushRun.CleanupUnseenMigrationMetadata | aeordb-client-lib/src/sync/push.rs:1179-1204 | drops the records of the old base that no scanned file carries on, if nothing failed |
| PushSync.PushRun.DeleteMissing | aeordb-client-lib/src/sync/push.rs:902-939 | deletes file and record of every candidate, until a store error |
| PushSync.PushRun.PushSync | aeordb-client-lib/src/sync/push.rs:137-955 | the methods together give exactly `Push.After`; the marker goes exactly when there was no error; a run that ends Ok without errors is a `CleanRun`, and `Answered` if no query failed |
| PushAccounts.EveryEntryCountedOnce | aeordb-client-lib/src/sync/push.rs:273-955 | on Ok every walked entry is processed and counted once as pushed, skipped, failed or ignored; candidates are deleted plus failed deletions; errors equal failures |
| PushAccounts.CountersAccountForOps | aeordb-client-lib/src/sync/push.rs:273-955 | on Ok every file handed over, rename and symlink asked for was pushed or failed; what failed besides are exactly the entries that could not be examined and the files that could not be read |
| PushAccounts.HundredthEntryFlushes | aeordb-client-lib/src/sync/push.rs:301-337 | after every hundredth entry nothing is left queued, and the end of no other entry hands the batch over |
| PushAccounts.EveryBatchWithinLimits | aeordb-client-lib/src/sync/push.rs:787-827 | in any run, finished or not, every batch handed over is within the limits |
| PushJustified.HashSkipBacks | aeordb-client-lib/src/sync/push.rs:571-601 | a hash skip inherits the backing of the record it replaces |
| PushJustified.PushBacks | aeordb-client-lib/src/sync/push.rs:137-955 | a push, wherever it ends, leaves every record backed |
| PushJustified.PullBacks | aeordb-client-lib/src/sync/pull.rs:236-401 | a pull leaves every record backed by the snapshot it came from, but for files it put together wrongly |
| PushJustified.MisassembledIff | aeordb-client-lib/src/sync/pull.rs:620-690 | a pull records a wrong file if and only if a chunk its entry reused was no longer in its place; then an earlier entry of the diff has left a file on the way to the old one |
| PushJustified.EveryRecordIsJustified | aeordb-client-lib/src/sync/push.rs:3281-3338 | over any run of pushes, pulls, foreign changes and resets every record is `Synced` and names a hash the server has held under its path, but for suppressed 403s, direct uploads - never chunked ones - overtaken by a change of the file, and misassembled pulls of that run |
| PushJustified.ForbiddenIsRecordedSynced | aeordb-client-lib/src/sync/push.rs:3324-3335 | a 403 is recorded as `Synced` for a hash the server never held |
| PushClean.FlushAt | aeordb-client-lib/src/sync/push.rs:2652-2799 | a flush without failures changes nothing about any path once what is under way is counted in |
| PushClean.HandleOwn | aeordb-client-lib/src/sync/push.rs:571-827 | whatever branch is taken, the file ends with its own record and its content on the server |
| PushClean.HandleOld | aeordb-client-lib/src/sync/push.rs:670-735 | the old name leaves the server exactly when record and server both name the content |
| PushClean.HandleOther | aeordb-client-lib/src/sync/push.rs:571-827 | every other path is left alone |
| PushClean.FilesOwn | aeordb-client-lib/src/sync/push.rs:462-830 | over all files, in any order, each path ends as its own step alone decides |
| PushResult.CleanPushIsDetermined | aeordb-client-lib/src/sync/push.rs:137-955 | the result of a push without failures is a function of the tree and the state before, whatever the order, the batches and the flush points |
| PushResult.NoMigrationAsksNothing | aeordb-client-lib/src/sync/push.rs:178-190 | without a migration no old name is looked at, so nothing goes unanswered and nothing overlaps |
| PushTree.EveryEntryWasExamined | aeordb-client-lib/src/sync/push.rs:339-447 | a push ends well only if it could read the metadata of every entry, the target of every symlink and the time of every file that passes the filter |
| PushTree.FileIsPushed | aeordb-client-lib/src/sync/push.rs:400-447 | a file that passes the filter by its last name ends on record with its hash, size and time and on the server with its content, unless a Lite scan found size, time and status as recorded |
| PushTree.LinkIsPushed | aeordb-client-lib/src/sync/push.rs:368-398 | a symlink ends on record and on the server with its identity hash, unless a Lite scan found it so recorded |
| PushTree.MissingPathIs | aeordb-client-lib/src/sync/push.rs:892-939 | what becomes of the record and the remote file of a path that nothing on disk bears, by old base, propagation and child roots |
| PushTree.CarriedFileIsMoved | aeordb-client-lib/src/sync/push.rs:670-735 | a file recorded and held under its old name with its present content is under its new name, gone from the old one in store and server, and was never uploaded |
| PushTree.RemoteFolderChangeMovesFile | aeordb-client-lib/src/sync/push.rs:1160-1167 | in particular every such file when only the remote folder was changed |
| PushTree.OpsAreCalledFor | aeordb-client-lib/src/sync/push.rs:137-955 | however a push ends, it asks for nothing but uploads of files on disk as listed and read, moves from old names to files without a record, symlinks on disk, and deletions of what is neither on disk nor below the old base nor a child's |
| PushTree.LinkIsPutIff | aeordb-client-lib/src/sync/push.rs:1014-1112 | a symlink with work is put unless a Lite scan found it on the server |
| PushTree.CleanCounters | aeordb-client-lib/src/sync/push.rs:273-955 | after a push without failures the counters are the files, renames and symlinks asked for, their bytes, the deletions, and the rest skipped |
| PushTree.PullWantsWhatPushWants | aeordb-client-lib/src/sync/push.rs:409-423 | the pull's filter sees the name of a file that the push's filter sees |
| PushScans.LiteRefinesFull | aeordb-client-lib/src/sync/push.rs:384-447 | Lite and Full pushes end with the same hash, size and status in every record, and with the same remote tree where the queries they asked were answered |
| PushOverlap.EveryOrderGoesWell | aeordb-client-lib/src/sync/push.rs:462-830 | whatever can be read can be pushed without a failure, in every order |
| PushOverlap.OldNameFate | aeordb-client-lib/src/sync/push.rs:670-785 | the first file to take an old name, in the order in which files get ready, decides what becomes of it on the server and in the store |
| PushOverlap.OverlappedFileIsLostIff | aeordb-client-lib/src/sync/push.rs:670-785 | a scanned file without work whose name is an old name loses its remote file if and only if the verified move applies, its record if and only if the move or an adoption does |
| PushOverlap.HashSkippedFileIsLostIff | aeordb-client-lib/src/sync/push.rs:571-735 | the same for the remote file where the hash is the recorded one and the record is rewritten, in whatever order |
| PushOverlap.UploadedAgainIffTaken | aeordb-client-lib/src/sync/push.rs:384-447 | after a push without failures the next Lite push uploads a file if and only if another file took its record |
| PushOverlap.QuietUnlessTaken | aeordb-client-lib/src/sync/push.rs:283-939 | if no scanned entry lost its record, a Lite push of the unchanged tree asks nothing of the server |
| PushOverlap.QuietAfterCleanPush | aeordb-client-lib/src/sync/push.rs:283-939 | in particular if no names overlap, whatever queries went unanswered |
| PushOverlap.ParentRootLosesFile | aeordb-client-lib/src/sync/push.rs:670-735 | a folder moved to its parent, which holds a copy of one of its files: the remote file of the copy is lost, and uploaded by the next push |
| PushOverlap.SharedOldNameOrderDecides | aeordb-client-lib/src/sync/push.rs:670-785 | two files with one old name, and two orders that end differently without a failure |
| PushUnderOverlap.MildPushIsDetermined | aeordb-client-lib/src/sync/push.rs:670-785 | where old names are names of scanned files without work, the record of any path, and its remote node if at most one file looks back to it, are functions of the tree and the state before |
| PushUnderOverlap.LiteRefinesFullWhereMild | aeordb-client-lib/src/sync/push.rs:384-447 | Lite and Full pushes end alike there too |
| PushUnderOverlap.WorkedFileIsLostIff | aeordb-client-lib/src/sync/push.rs:670-827 | a new or changed file whose name is another's old name: the remote file goes if and only if the other gets ready later, finds it out of the batch and has the same content; the record if and only if that, or the other's new name holds its content |
| PushUnderOverlap.LargeCopyIsLost | aeordb-client-lib/src/sync/push.rs:670-735 | two copies of a large file, none on record, one in the folder moved to its parent and one beside it: a push without failures that uploads the latter and then renames it away |
| PushUnderOverlap.SymlinkIsMadeAnyway | aeordb-client-lib/src/sync/push.rs:1014-1136 | a symlink ends up on the server and on record whoever looks back to its name |
| PushScans.KnownFileIsNotUploaded | aeordb-client-lib/src/sync/push.rs:571-601 | a file whose record has its content hash is not uploaded, whatever happens |
| PushScans.PulledFileIsNotEchoed | aeordb-client-lib/src/sync/pull.rs:236-258 | a pulled file of the relationship that nothing later in the diff concerns is not pushed back, whatever the scan mode, the times on disk and the outcomes |
| PushResume.FilesBetween | aeordb-client-lib/src/sync/push.rs:462-830 | wherever the file phase stands, each file is between where it was and where it will be |
| PushResume.ResumeReachesTheSame | aeordb-client-lib/src/sync/push.rs:670-785 | stopping anywhere in the file phase and pushing again gives the records of an uninterrupted push, and its remote tree where the queries asked were answered |
| PushResume.FlushOwn | aeordb-client-lib/src/sync/push.rs:2652-2799 | a flush that stops anywhere leaves each of its files where it was or where it will be |
| PushResume.MovedFileIsNotUploadedAgain | aeordb-client-lib/src/sync/push.rs:737-785 | a file whose remote rename had happened is not uploaded by the push that resumes |
| PushMigration.DeletedWasRecordedAndUnseen | aeordb-client-lib/src/sync/push.rs:902-939 | a deletion is asked for only if the path was on record, unseen, outside the old base and not a child's |
| PushMigration.UnseenRecordDeletedIff | aeordb-client-lib/src/sync/push.rs:902-939 | and for a recorded path nobody bears or comes from, exactly then |
| PushMigration.UnmarkedFileIsTakenForDeleted | aeordb-client-lib/src/sync/push.rs:339-349 | an entry whose metadata cannot be read, or that the filter rejects, is a deletion candidate if it has a record |
| PushMigration.ClearedMeansNoRecord | aeordb-client-lib/src/sync/push.rs:892-943 | a push that clears the marker leaves no record of the old base that no scanned file bears |
| PushMigration.UnborneRecordStaysIff | aeordb-client-lib/src/sync/push.rs:892-939 | under a marker that does not cover it, the record of a path that no scanned file bears goes only with the remote file |
| PushMigration.OldRecordStaysIff | aeordb-client-lib/src/sync/push.rs:892-939 | under the marker that covers it, the record of a file left behind goes only with the cleanup, wherever the push ends |
| PushMigration.DeletionIff | aeordb-client-lib/src/sync/push.rs:892-943 | over any run, any root changes: a push that ends asks for the deletion of a file left behind if and only if deletions propagate, no child owns the path, no marker covers it, and a record from the start or from a pull has not been dropped |
| PushMigration.DeletionAfterMigrationIff | aeordb-client-lib/src/sync/push.rs:892-943 | after the push that ends a migration, a deletion of an unborne path of the old base is asked for if and only if deletions propagate, no child owns the path, no marker covers it, and a pull has recorded it since |
| PushMigration.EditUnderOldBaseIsDeleted | aeordb-client-lib/src/sync/replication.rs:34-66 | a run where it happens: the push that ends the migration, another client's change under the old base, and the pull and push of one cycle |
| PushMigration.MigrationDeletesNothing | aeordb-client-lib/src/sync/push.rs:892-943 | with no second root change and no such pull, no push of the run asks for the deletion of an old-base path that no scanned file bears |
| PushMigration.SecondRootChangeDeletes | aeordb-client-lib/src/sync/metadata.rs:367-389 | any run with a second root change: what the first base protects is not deleted before it; a later push that ends deletes it if and only if the second base does not cover it or its migration has ended, deletions propagate, no child owns it, and a record is left |
| Runner.SyncRunner.Start | aeordb-client-lib/src/sync/runner.rs:103-187 | refuses a second loop, an unknown or disabled relationship and an unknown connection |
| Runner.SyncRunner.Stop | aeordb-client-lib/src/sync/runner.rs:190-205 | the loop leaves the map |
| Runner.SyncRunner.GetExecutionGuard | aeordb-client-lib/src/sync/runner.rs:340-349 | the guard is made on first use and never replaced |
| Runner.SyncRunner.TryExecute | aeordb-client-lib/src/api/routes/sync.rs:225-242 | a trigger or forced resync is refused while the guard is held |
| Runner.SyncRunner.Status | aeordb-client-lib/src/sync/runner.rs:210-241 | `executing` is reported exactly when some task executes a sync of the relationship or another query is trying its guard; the guard is made if there is none |
| Runner.OneSyncPerRelationship | aeordb-client-lib/src/sync/runner.rs:340-751 | in every interleaving of loops, triggers, resyncs, starts, stops and aborts at most one sync executes per relationship |
| Runner.RunsIffStarted | aeordb-client-lib/src/sync/runner.rs:103-205 | in every interleaving the loop of a relationship is the one last started, if it has not been stopped since |
| Runner.StartsIffStopped | aeordb-client-lib/src/sync/runner.rs:103-110 | so it can be started exactly when it was never started or was stopped since |
| Runner.RestartedLoopWaits | aeordb-client-lib/src/sync/runner.rs:190-205 | an interleaving: a loop stopped in the middle of a sync and started again waits until the old sync is gone |
| Runner.GuardIsForGood | aeordb-client-lib/src/sync/runner.rs:340-349 | in every interleaving a guard once made stays the guard of its relationship |
| Runner.GoesAheadIffFree | aeordb-client-lib/src/sync/runner.rs:340-349 | in every interleaving a loop can go ahead, and a request is not refused, exactly when nobody executes the relationship and no status query is trying its guard |
| Runner.QueryRefusesTrigger | aeordb-client-lib/src/sync/runner.rs:210-241 | an interleaving where a trigger is refused though nobody executes |
| Runner.RetryState.ArmTransientRetry | aeordb-client-lib/src/sync/runner.rs:753-785 | a transient error arms the timer and doubles the next delay; others change nothing |
| Runner.HandleEnds | aeordb-client-lib/src/sync/runner.rs:374-751 | one sync after the other, the retry state is that of the history |
| Runner.KthFailureBacksOff | aeordb-client-lib/src/sync/runner.rs:753-785 | the k-th transient failure since the last success arms exactly min(60 * 2^k, 900) seconds |
| Runner.ArmedIffPending | aeordb-client-lib/src/sync/runner.rs:374-751 | a retry is armed exactly when a transient failure is newer than the last success and the last firing |
| Runner.PeriodicSafetyNetIntervalSeconds | aeordb-client-lib/src/sync/runner.rs:820-830 | an hour at least with a watcher or listener, the configured value without |
| MergePatch.ApplyMergePatch | aeordb-client-lib/src/preferences.rs:210-235 | the loop over the patch's keys, in any order, computes MergePatch of section 2 of RFC 7396 |
| MergePatch.MergeIsIdempotent | aeordb-client-lib/src/preferences.rs:210-235 | applying a patch twice is applying it once |
| MergePatch.UnnamedMembersUntouched | aeordb-client-lib/src/preferences.rs:210-235 | members the patch does not name keep their values, at any depth |
| MergePatch.NullRemoves | aeordb-client-lib/src/preferences.rs:210-235 | a null in the patch removes exactly its member |
| MergePatch.ValueIsSet | aeordb-client-lib/src/preferences.rs:210-235 | at any depth a value in the patch that is no object is the value afterwards |
| MergePatch.ObjectMembers | aeordb-client-lib/src/preferences.rs:210-235 | at any depth an object in the patch leaves an object with exactly its members that are not null and those it does not name |
| MergePatch.PreferencesStore.MergePatch | aeordb-client-lib/src/preferences.rs:138-165 | validate, save, and only then replace the preferences in memory; a preference the schema knows ends as the patch sets it, or as it was if the patch does not name it |

## Left out

- HTTP transport, authentication, redirects and timeouts: a call is an atomic step that succeeds or fails.
- The embedded engine behind the state store: documents by key, with atomic batch writes; a store write either happens or ends the operation with an error.
- blake3, base64 and glob matching: an ideal hash, and a filter that is any predicate on names. The identity hash of a symlink is any function of its path and target.
- `last_synced_at` of a record: no decision of the engine reads it, so records are compared without it.
- PushSync.PushRun.UploadBatch: chooses what arrives of a batch instead of calling `Upload.PushBatchViaChunks`; `PushUpload.PushBatch` shows that every outcome of that method is such a choice.
- PushResume.ResumeReachesTheSame: asks that no names overlap, no 403 is suppressed and no direct upload is overtaken by a change of its file; an unanswered query uploads where a rename would have done, and the old remote file then stays.
- A rename, a symlink or a deletion that the server refuses leaves the remote tree as it was; only uploads may have taken effect although they failed.
- PushOverlap.HashSkippedFileIsLostIff: is about scanned files whose content is the recorded one; those with work of their own are the subject of `PushUnderOverlap.WorkedFileIsLostIff`, with one other file looking back.
- Nobody else edits the local folder between the hashing of an old file and the end of the pull; what stands there when its turn comes is what the pull itself has made of it.
- A temporary file is created in its own place: a symlink under the temporary name, or one from the old file to its own temporary name, is not followed.
- Removing the temporary file after a failed assembly happens before the next entry or not at all; the engine does not wait for it.
- Symlinks to directories: where the target of a symlink leads does not change while a pull runs, unless it leads to a file of the tree.
- PullMirror.RunKeepsMirror: is about pulls that could save their checkpoint; one that could not leaves the old one, and the next diff starts from there.
- Legacy names with another path separator: on a platform whose separator is the slash there are none, and Windows separators are not part of this model.
- Names that are not UTF-8, directories in the way of files, and lengths of names in bytes: paths are strings or lists of components in one flat map.
- Walking the directory tree: the walk is any list of entries with distinct paths below the base; the exclusions it applies are those of `Hierarchy`.
- Offsets and sizes of 64 bits in planning: numbers are unbounded there; the batch totals and the manifest estimate saturate as in the code.
- The handlers around the runner: changing a relationship only picks between `BeginPathMigration` and `ClearRelationshipState`, and a forced resync clears the checkpoint, so they would add easy members.
- The startup delay, the file system watcher and the server-sent events: timing and triggers only; any order of triggers is covered by `Runner.OneSyncPerRelationship`.
- Progress messages, summaries, percentages and the broadcast of events: formatting.
