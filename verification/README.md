# A verified model of the Pigcloud client's core

This project models the parts of the Pigcloud command-line and mobile client whose mistakes cost data or trust, and
proves what they keep. `dafny verify dfyconfig.toml` checks everything.

- **Sync mode** (`CacheRow`, `Queue`, `SyncState`, `SyncActors`, `SyncSafety`, `SyncOrigins`, `SyncQueue`,
  `SyncProgress`, `SyncEffects`, `SyncCommands`, `SyncListings`, `SyncWalks`, `SyncConvergence`, `SyncArrival`,
  `SyncAgreement`). One local file is changed by the user, the watcher, the poller, the downloader, the write-back
  processors, the reconciler, the evictor, the daemon's commands and restarts. The model is an event machine over
  (file, row, node, queue, server history). Any number of threads run at once; each issues one SQL statement, node
  update or rename per event; every look of an actor at the row is a look of its own and may see any value the row
  ever had; processors claim batches of queue rows, hold some back and return them; threads and processors may be
  killed between two steps; the program may restart at any time. The guard in front of a download's rename and the
  rename are one step. The main results, for every run: no automatic step destroys bytes the server has never held; a
  baseline digest is always the digest of bytes the server has held; a pending edit ends by a settled upload, a
  finished entry of another kind, a conflict resolution, or one of the four deletions of a row (pruned, removed,
  stale, and rejected ones on the "clean" command); a claimed queue row has exactly one owner, a live thread or
  processor, unless its owner was killed since the last start. Left alone, a remote change arrives in the folder, a
  local edit arrives at the server, and every decision of every actor has exactly the effect on file, row, queue and
  node that its theorem names.
- **Write-back queue** (`CacheDb`, `Writeback`, `Flush`, `Sums`). The table object and the processor, with loops,
  deadlines and retries. A flush is a fold over the entries that have their turn, each in its own world; the last
  entry of a file decides what is left of it, and no pending edit is dropped. No claim is left behind at any deadline,
  files in conflict keep their place, and the sum of the retries left bounds a flush.
- **Blob store and evictor** (`Machine`, `Records`, `BlobFormat`, `ChunkCache`, `BlobStore`, `Eviction`). `ReadAt` is
  a seeking, caching reader; it returns the slice of what `Get` returns, with the 64-bit overflows stated exactly.
  After any calls a blob is there exactly when it was put and not removed since. Eviction is least recently used,
  keeps every cached row's blob, evicts no more than the target needs, and ends.
- **Algorithms** (`Diff`, `Forest`, `Tree`, `Paths`, `FileCrypto`, `Base32`, `Backoff`). The
  longest-common-subsequence diff, forest construction from a node list with arbitrary parents, path resolution,
  chunked file encryption with a counter nonce and a metadata MAC, base32 with a wrapping accumulator, and a backoff
  with a wrapping shift.
- **Trust state** (`RetiredKeys`, `EnclaveKeys`, `Wake`, `PeerPins`). Repinned signing keys, the single-flight key
  fetch with epochs, the decision to wipe a device, and trust on first use of peer keys, each over all runs of calls.

Code that changes things in place is modelled by classes, arrays and loops whose methods are proved against functions;
the theorems are about those functions. Ciphers, digests, MACs and signature checks are parameters with stated laws
(opening inverts sealing, a ciphertext is sixteen bytes longer, digests and MACs do not collide); `Laws` exhibits
parameters that satisfy them. Clocks, randomness, the network and file-system failures are parameters. Automatic
induction is switched off; every induction is written.

## What turned out not to hold

- The pending-edit flag does not only fall after a confirmed upload. `SyncOrigins.EditEndsUnsent` is a run in which it
  ends although the server never held a byte, and `SyncProgress.OtherEntryClearsDirty` another way.
  `SyncOrigins.PendingEditEndsByCause` names the causes and says that a fall follows a confirmed upload of its thread
  exactly when a settled upload gave the statement.
- Two waiting rows for one file and action can arise from an empty queue (`Writeback.TwinsArise`). A retry, a requeue
  and a restart keep them unique exactly when no returned row finds a twin (`Writeback.RetryKeepsUnique`,
  `Writeback.RequeueKeepsUnique`, `Queue.RestartKeepsUnique`); queueing always does.
- A flush does not always use up its measure (`Writeback.FollowUpWithoutProgress`): an upload whose file changed
  meanwhile queues a follow-up with all its retries. `Writeback.FollowUpEffort` gives the exact change and when it
  falls.
- When the database refuses to invalidate a row after its blob was released, that row can stay cached without a blob
  (`Eviction.RefusedRowLosesItsBlob`); `Eviction.Evictor.Evict` says exactly when.
- `ReadAt` returns nothing, or an error, where an offset sum overflows 64 bits (`BlobStore.OverflowReadsNothing`);
  `BlobStore.ReadIsSliceExactly` says exactly when it is the slice.
- A revocation is confirmed thirty seconds after the start of the second in which it was first seen, which can be up
  to one second less than thirty seconds after the first reply (`Wake.ConfirmationMayBeShort`); never, exactly when
  that reply falls on a full second (`Wake.ConfirmationIsFullExactly`, for every strike a call takes).

## Model

| member | source | states |
|---|---|---|
| CacheRow.InvalidateAndUpsertKeepBaseline | internal/mount/cache/db.go:225-347 | invalidating a row keeps its baseline and its pending-edit flag and is idempotent; an upsert never clears the flag and moves the baseline exactly when the caller supplies another digest |
| SyncSafety.AutomaticStepKeepsBytes | internal/mount/syncer/downloader.go:251-345 | in every reachable state, every event that is not the user's own file operation and takes the local bytes away finds them held by the server, or puts them in trash or a conflict copy, or is a statement of a thread that the user started with "keep remote" and that lives since |
| SyncSafety.LocalBytesSurvive | internal/mount/syncer/downloader.go:251-345 | over whole runs, every content that ever was in the file is still there, held by the server, in trash, in a copy, or was replaced, removed or discarded by the user while it was there |
| SyncSafety.DownloadsReplaceHeldBytes | internal/mount/syncer/downloader_local.go:111-126 | in every run, the bytes a download publication replaces are bytes the server has held |
| SyncSafety.BaselineIsHeld | internal/mount/cache/local_content.go:3-27 | in every run, a non-empty baseline (local_hash, else download_baseline_hash) is the digest of bytes the server served or accepted |
| SyncSafety.PublishReplacesHeldBytes | internal/mount/syncer/downloader.go:317-321 | guard and rename keep the invariant, and a replaced file held bytes the server has held |
| SyncSafety.PerformKeeps | internal/mount/syncer/downloader.go:189-361 | every event of every actor keeps the invariant on rows, threads and local contents |
| SyncSafety.RunKeeps | internal/mount/syncer/downloader.go:189-361 | every run keeps it |
| SyncSafety.PlanSafe | internal/mount/syncer/poller.go:155-326 | whatever values an actor read, however stale, the statements it goes on to issue only record digests the server has held |
| SyncSafety.WalkSafe | internal/mount/syncer/downloader.go:189-249 | the download walk, including collision protection and re-upload, records only held digests and never removes the file outright |
| SyncSafety.ProtectSafe | internal/mount/syncer/downloader_local.go:82-109 | so do the outcomes of the collision check |
| SyncSafety.HealSafe | internal/mount/syncer/reconciler.go:105-245 | so does the reconciler for every row status, on any values it reads (what it achieves is SyncEffects.HealExactly) |
| SyncSafety.PollSafe | internal/mount/syncer/poller.go:180-262 | so does the poller's merge of a listed entry |
| SyncSafety.DaemonSafe | internal/mount/daemon/sync_daemon.go:253-360 | so do conflict resolution and retry; only "keep remote" removes the file outright |
| SyncSafety.DiscardsByChoice | internal/mount/daemon/sync_daemon.go:283-360 | in every run, a thread about to remove the file outright was started by a "keep remote" and lives since |
| SyncOrigins.DirtyFallsExactly | internal/mount/cache/db.go:284-312 | of all statements exactly the mark-synced update of the row, its deletion, and the deletion of rejected rows when it is one, end a pending edit |
| SyncOrigins.StatementOrigin | internal/mount/syncer/writeback.go:296-359 | in every run, a thread that has such a statement got it, and lives since, from a settled upload whose file had the confirmed digest and whose generation had not moved, a finished entry of another kind, a conflict resolved with "remote" or "both", a decision to delete the row, or the "clean" command |
| SyncOrigins.SettlingWasConfirmed | internal/mount/syncer/writeback.go:296-377 | in every run, an upload about to be settled was confirmed to its thread by the server, which held its bytes |
| SyncOrigins.OriginIsUpload | internal/mount/syncer/writeback.go:296-359 | a statement follows a confirmed upload of its thread exactly when a settled upload gave it |
| SyncOrigins.PendingEditEndsByCause | internal/mount/syncer/writeback.go:296-359 | in every run, the statement by which a pending edit ends is one of those, has one of those origins, and follows a confirmed upload exactly when a settled upload gave it |
| SyncOrigins.EditEndsUnsent | internal/mount/syncer/watcher.go:304-324 | a run in which a pending edit ends although the server never held a byte |
| SyncQueue.StepKeepsQueue | internal/mount/cache/db.go:444-563 | every event of every actor keeps the queue invariant: attempts, and the one owner of each claimed row |
| SyncQueue.ClaimsAreOwned | internal/mount/syncer/writeback.go:105-147 | in every run live rows have fewer than three attempts, no row has two owners, and a row in progress has one, a thread or processor that will finish it or hand it back, unless that one was killed since the last start; if nothing was killed, a row is in progress exactly when it is owned |
| SyncQueue.EndKeepsQueue | internal/mount/syncer/writeback.go:173-177 | a processor that stops, at a deadline or with rows held back, keeps the invariant, with its rows owned by the thread that returns them |
| SyncQueue.EndReturns | internal/mount/syncer/writeback.go:173-177 | what it returns, run to the end: exactly its rows wait again, with the attempts they were claimed with |
| SyncQueue.HoldMoves | internal/mount/syncer/writeback.go:166-172 | an upload of a file in conflict is set aside and stays claimed; nothing else is |
| SyncQueue.NothingLost | internal/mount/cache/db.go:536-545 | in a run that kills no thread and no processor no claim is orphaned |
| SyncQueue.RestartReleases | internal/mount/cache/db.go:536-545 | after a restart no row is claimed or lost; those that were wait again with their attempts |
| SyncProgress.ScriptRuns | internal/mount/syncer/downloader.go:347-361 | a script of row, queue and node statements composes their effects and touches nothing else |
| SyncProgress.DownloadCompletes | internal/mount/syncer/downloader.go:317-361 | an undisturbed download ends with the fetched bytes in the file, a cached, clean, synced row with their size, digest and version, and its node cached |
| SyncProgress.OvertakenCommit | internal/mount/syncer/downloader.go:323-361 | a download whose version was replaced before the commit leaves the bytes and their digest as baseline, and row and node uncached, to be fetched again |
| SyncProgress.FetchFailureEnds | internal/mount/syncer/downloader.go:689-714 | a failed fetch touches neither file nor queue; the row fails exactly when the failure is permanent |
| SyncProgress.NothingLeftToFetch | internal/mount/syncer/downloader.go:189-469 | after an undisturbed download every walk, initial or later, at most records that the copy is current |
| SyncProgress.EditDuringDownloadIsKept | internal/mount/syncer/downloader_local.go:49-69 | a file or row that changed during the fetch is not replaced; the row ends dirty, in conflict and uncached, with its baseline and version |
| SyncProgress.IngestQueuesUpload | internal/mount/syncer/watcher.go:346-419 | a local edit, on a conflicted row too, ends with a dirty, pending row, its baseline kept, and exactly one waiting upload of it, with no attempts |
| SyncProgress.PollMerges | internal/mount/syncer/poller.go:206-253 | the poller's merge run to its end: exactly clean files that changed remotely are invalidated, exactly dirty ones go into conflict and keep their version; all others adopt the version; neither baseline nor pending edit is touched |
| SyncEffects.HealExactly | internal/mount/syncer/reconciler.go:105-245 | the reconciler, undisturbed, on any state: a new file, a pending one, a due failed one and one edited since its baseline end pending with one new upload waiting; one whose version moved too, or without baseline, ends in conflict; one that may not be sent is rejected; anything else is as it was; the file is never touched |
| SyncEffects.OfflineEditIsQueued | internal/mount/syncer/reconciler.go:155-181 | a synced file edited while nobody watched ends dirty and pending with exactly one upload waiting |
| SyncEffects.TaskPlays | internal/mount/syncer/reconciler.go:105-245 | a task that looks at the state as it is and is not disturbed is a run of the machine, and leaves what its statements do one after the other |
| SyncWalks.WalkExactly | internal/mount/syncer/downloader.go:189-249 | either walk, undisturbed, on a file with node and row: an edit is sent when its version is the listed one and disputed otherwise, a current copy is marked, what is neither is fetched from a snapshot; a file in dispute and a file sent end as named |
| SyncWalks.VerdictsProtect | internal/mount/syncer/downloader_local.go:82-109 | those verdicts never fetch over an edit and never send over another version, and pass over nothing that is edited |
| SyncCommands.ResolveExactly | internal/mount/daemon/sync_daemon.go:283-360 | "local" leaves the edit pending and its upload as all that is queued for the file; "remote" and "both" leave the file discarded or as a copy, nothing queued for it and a clean row to be fetched; without a conflict, on a read-only mount for "local", and without a file for "both" nothing happens |
| SyncCommands.RetryExactly | internal/mount/daemon/sync_daemon.go:253-281 | a retried edit is pending again with one upload waiting and no given-up one; a retried download is to be fetched again |
| SyncListings.RemovalExactly | internal/mount/syncer/watcher.go:304-324 | a removed file that was in step or in conflict gets one waiting delete; any other is forgotten with all it had queued |
| SyncListings.IngestExactly | internal/mount/syncer/watcher.go:346-419 | the watcher's turn on any state: what is passed over, what is queued, what is rejected |
| SyncListings.ScanExactly | internal/mount/syncer/downloader.go:586-670 | exactly a file without a row gets one, and its upload waits if it may be sent |
| SyncListings.PruneExactly | internal/mount/syncer/poller.go:296-315 | a file gone from the server goes to the trash with its row, unless an edit of it is pending |
| SyncListings.NewEntryExactly | internal/mount/syncer/poller.go:255-294 | a listed entry without a node gets a row and a node of that version and keeps a pending edit |
| SyncListings.PopulateExactly | internal/mount/vfs/vfs.go:871-912 | the same for an opened directory, where an edit of another version is put in conflict |
| SyncListings.RepopulateExactly | internal/mount/vfs/vfs.go:841-868 | the same for an entry that has a node: conflict, new version, or nothing to do |
| SyncListings.StaleExactly | internal/mount/syncer/downloader.go:104-150 | a start forgets exactly failed and rejected rows without a file, with what they had queued, and every entry that was given up |
| SyncListings.CleanExactly | internal/mount/cache/db.go:748-776 | the "clean" command forgets the row exactly when it is rejected |
| SyncListings.EvictionExactly | internal/mount/cache/eviction.go:160-180 | an eviction takes exactly a cached, clean, unpinned row and keeps its baseline |
| SyncConvergence.RemoteChangeArrives | internal/mount/syncer/poller.go:206-253 | from a state in step, a run of a poll that sees another version and the walk that follows ends with the served bytes in the file and a clean, cached, synced row and node of that version: in step again |
| SyncConvergence.PollStage | internal/mount/syncer/poller.go:228-253 | its first half: row uncached with its baseline kept, node with the new version |
| SyncConvergence.FetchStage | internal/mount/syncer/downloader.go:251-361 | its second half: the walk downloads and the download completes |
| SyncArrival.LocalEditArrives | internal/mount/syncer/watcher.go:346-419 | from any state with a file the watcher has not recorded, the run of ingest, claim, upload and confirmation ends with the bytes held by the server, a clean synced row with their digest as baseline and the confirmed version, and no upload of it waiting |
| SyncArrival.WatcherStage | internal/mount/syncer/watcher.go:388-419 | its first part: the row as the watcher writes it and the queued upload |
| SyncArrival.SendStage | internal/mount/syncer/writeback.go:120-141 | its second part: the claimed row and the thread that sends the bytes, with the row's attempts |
| SyncArrival.UploadStage | internal/mount/syncer/writeback.go:296-377 | its third part: record and settle statements of a confirmed upload whose file did not change |
| SyncArrival.FailStage | internal/mount/syncer/writeback.go:259-292 | a failed attempt, undisturbed: the entry keeps its place with one attempt more, waiting or given up; the edit stays pending, and file and baseline are as they were |
| SyncAgreement.UploadAgrees | internal/mount/syncer/writeback.go:296-377 | the statements that settle a confirmed upload, run through, give the row, queue and node of the processor's model |
| SyncAgreement.FailureAgrees | internal/mount/syncer/writeback.go:259-292 | so do those of a failed attempt, retried or given up, except for the time at which a retry is due |
| SyncProgress.KeepBothKeepsBoth | internal/mount/daemon/sync_daemon.go:308-355 | "keep both" leaves the local bytes as a copy, the row clean and uncached with its baseline, and of the queue exactly the rows of other files |
| SyncProgress.OtherEntryClearsDirty | internal/mount/syncer/writeback.go:296-359 | a claimed delete, mkdir or rename entry, once finished, clears the pending-edit flag although nothing was uploaded |
| CacheDb.FirstExists | internal/mount/cache/db.go:493-525 | the claim order has a first row in every non-empty set of rows |
| CacheDb.ClaimKeepsEffort | internal/mount/cache/db.go:493-525 | claiming rows does not change the retries left |
| CacheDb.CacheDB.EnqueueWriteback | internal/mount/cache/db.go:444-465 | an accepted entry replaces the pending rows it supersedes; a read-only mount accepts none; live rows keep fewer than three attempts |
| CacheDb.CacheDB.DequeueWriteback | internal/mount/cache/db.go:493-525 | claims the first claimable rows in queue order, up to the limit, each once, and nothing else changes; the order among those it claims is open, as in the statement |
| CacheDb.CacheDB.RequeueInProgress | internal/mount/cache/db.go:536-545 | after a restart every claimed row waits again |
| Writeback.ConfirmedUploadOutcome | internal/mount/syncer/writeback.go:296-377 | a confirmed upload leaves the row clean exactly when the bytes in the folder have the confirmed digest and the generation did not move; otherwise it is dirty with exactly one follow-up, a delete if the file is gone |
| Writeback.SettlingCosts | internal/mount/syncer/writeback.go:218-294 | an entry processed without follow-up uses up retries |
| Writeback.FollowUpEffort | internal/mount/syncer/writeback.go:296-359 | a follow-up changes the retries left by three, less those of its entry and of the waiting rows it replaces; they fall exactly when those exceed three |
| Writeback.FollowUpWithoutProgress | internal/mount/syncer/writeback.go:296-359 | an instance in which they do not fall |
| Queue.EnqueueKeepsUnique | internal/mount/cache/db.go:444-465 | queueing a change keeps waiting rows unique per file and action |
| Queue.ReturnsKeepUnique | internal/mount/cache/db.go:536-563 | returning rows keeps them unique exactly when no returned row has a waiting twin and no two returned rows are twins |
| Queue.RestartKeepsUnique | internal/mount/cache/db.go:536-545 | that, for a restart |
| Writeback.RetryKeepsUnique | internal/mount/cache/db.go:556-563 | that, for a deferred retry |
| Writeback.RequeueKeepsUnique | internal/mount/syncer/writeback.go:173-177 | that, for a deadline and for held rows |
| Writeback.TwinsArise | internal/mount/cache/db.go:536-563 | a queue reached by queueing, claiming and queueing again, which all three leave with two waiting rows |
| Writeback.Processor.ProcessEntry | internal/mount/syncer/writeback.go:218-359 | queue, row, node and next id after every outcome, with no more than two retries before giving up |
| Writeback.Processor.Requeue | internal/mount/syncer/writeback.go:173-177 | returned rows wait again with their attempts unchanged |
| Writeback.Processor.RunBatch | internal/mount/syncer/writeback.go:120-141 | the batch is the fold of its turns: every entry up to the deadline is held back, exactly when it is an upload of a file in conflict, or processed in the next world; the rest and what was held is handed back as it was claimed; the counts are those of confirmed and processed entries; no row of the batch is left in progress |
| Writeback.Processor.ProcessBatch | internal/mount/syncer/writeback.go:195-216 | the same for what one batch claims, the first claimable rows; held rows and the claims of others are as before |
| Writeback.Processor.FlushAll | internal/mount/syncer/writeback.go:105-147 | the flush is the fold of its rounds, each of which claims the first claimable rows; it ends when nothing is claimable, when all that would be claimed next is held by conflicts, or when the deadline's checks are used up; the rows in progress are the same before and after, conflicts keep their place; without drift the retries left bound the entries processed and a long enough deadline is never the reason to stop |
| Writeback.EndKeeps | internal/mount/syncer/writeback.go:120-141 | what every batch leaves, wherever the deadline falls: nothing in progress, conflicts and held rows as they were claimed, less retries |
| Writeback.FlushKeeps | internal/mount/syncer/writeback.go:105-147 | what every flush leaves |
| Writeback.AllHeld | internal/mount/syncer/writeback.go:138-141 | a round that holds back all it claimed changes nothing, and the next would claim the same |
| Flush.LastAttemptDecides | internal/mount/syncer/writeback.go:218-359 | the last entry of a file that a flush processes decides: a failed one is still queued with one attempt more, waiting until it is due or given up, and the edit is pending; a confirmed one is out of the queue with its digest as baseline, and the row is clean unless the file or its node changed meanwhile, which is then queued again |
| Flush.FlushBooked | internal/mount/syncer/writeback.go:218-359 | over a whole flush a row is the fold of what the processed entries of its file made of it |
| Flush.WorldsInOrder | internal/mount/syncer/writeback.go:105-147 | the n-th processed entry meets the n-th answer of the world |
| Flush.FileLeftAlone | internal/mount/syncer/writeback.go:105-147 | a file none of whose entries was processed is as it was, row, node and queue |
| Flush.EditEndsConfirmed | internal/mount/syncer/writeback.go:296-359 | a flush ends a pending edit only by a confirmed entry of its file that nothing has overtaken |
| Flush.NoEditDropped | internal/mount/syncer/writeback.go:259-359 | if every pending edit had a queue entry before a flush on a writable mount, it has one after |
| Flush.TurnQueue | internal/mount/syncer/writeback.go:218-359 | one processed entry, outright: what the queue holds of it |
| Flush.TurnRow | internal/mount/syncer/writeback.go:218-359 | and what its row is |
| Flush.TurnAgrees | internal/mount/syncer/writeback.go:277-334 | after a confirmed upload and after giving up, node and row agree |
| Diff.LcsIsMaximal | cmd/di.go:229-243 | no common subsequence is longer than the recurrence's value |
| Diff.CommonIsCommon | cmd/di.go:245-259 | the equal lines of a script are a common subsequence of what it projects to |
| Diff.ScriptIsOptimal | cmd/di.go:229-259 | a script with that many equal lines has at least as many as any script between the two lists |
| Diff.ShownEmptyIffEqual | cmd/di.go:261-277 | the filtered script is empty exactly when the lists are equal |
| Diff.FillTable | cmd/di.go:229-243 | the table holds the recurrence's value for every pair of suffixes |
| Diff.Traceback | cmd/di.go:245-259 | the script projects to exactly the old and the new lines and has the maximal number of equal lines; at every step an equal line stays, and otherwise a line is added unless that costs a common line or none is left |
| Diff.MarkContext | cmd/di.go:261-269 | exactly the lines within three of a change are shown |
| Diff.ShownAt | cmd/di.go:271-277 | the shown lines are the marked ones, each once, in order |
| Diff.SimpleDiff | cmd/di.go:226-278 | all of it together |
| Forest.ClosedSetNotRooted | internal/tree/tree.go:70-102 | ids whose parents stay in a set never reach the root |
| Forest.RerootStep | internal/tree/tree.go:104-119 | hanging a cyclic node below the root roots it and keeps every rooted chain |
| Forest.MoveMatches | internal/tree/tree.go:104-119 | the list edit of reroot keeps child lists and effective parents in agreement |
| Forest.SortPermutes | internal/tree/tree.go:56-66 | the display sort permutes a child list into folders-first name order |
| Tree.FilingsMatch | internal/tree/tree.go:41-55 | for distinct ids the filed child lists are the effective parents read backwards |
| Tree.ChainCyclic | internal/tree/tree.go:70-102 | a walk that returns to itself started from a node that never reaches the root |
| Tree.ChainRooted | internal/tree/tree.go:70-102 | a walk that arrives at a rooted node started from rooted ones |
| Tree.Tree.New | internal/tree/tree.go:41-68 | for distinct non-empty ids and any visiting order: an acyclic forest with matching, sorted child lists; only nodes that hung on a cycle have a new parent; the orphans are exactly the nodes that moved |
| Tree.Tree.DetachCycles | internal/tree/tree.go:70-102 | every node reaches the root and no node that already did is re-parented, for any list |
| Tree.Tree.Reroot | internal/tree/tree.go:104-119 | the search among the siblings cuts exactly the node's first place; node, root list and orphans after the move |
| Tree.Tree.Descendants | internal/tree/tree.go:137-154 | lists every id below the parent once and nothing else, breadth first: in the order of the child lists of the parent and of the listed ids, one behind the other; in a forest the root lists every node |
| Tree.Tree.PathOf | internal/tree/tree.go:209-228 | the joined names from the root, or nothing for a broken or cyclic chain |
| Tree.Tree.Resolve | internal/tree/tree.go:181-207 | the lookup of the segments, for every string |
| Paths.SplitJoin | internal/tree/tree.go:227-227 | splitting undoes joining for names without separators |
| Paths.LocateExact | internal/tree/tree.go:186-203 | a lookup finds a live node whose folded names upwards are the segments, in any tree, and finds it whenever no live sibling along the segments folds alike |
| Paths.ResolvedExact | internal/tree/tree.go:181-207 | what resolving a path finds is named by the path; where no live sibling along it folds alike, it finds a node exactly when the path names it |
| Paths.FirstNamedFirst | internal/tree/tree.go:192-197 | of several children that fold alike the first live one is taken |
| Paths.SpellingsAgree | internal/tree/tree.go:182-183 | slashes of either direction are the same, and those around the path do not count |
| Paths.LocateSkips | internal/tree/tree.go:188-190 | empty and dot segments do not count, wherever they stand |
| Paths.PathRoundTrip | internal/tree/tree.go:181-228 | resolving the path of a live node with plain names gives that node, when no sibling of it or of a node above it folds alike |
| Machine.BigEndianRoundTrip | internal/mount/cache/store.go:192-192 | a length that fits is read back from its big-endian bytes |
| BlobFormat.DecodeHeld | internal/mount/cache/store.go:249-294 | reading a blob from front to back gives its plaintext |
| BlobFormat.HoldsFrom | internal/mount/cache/store.go:405-411 | behind i full records stands the plaintext behind i chunks |
| BlobFormat.RecordAt | internal/mount/cache/store.go:405-438 | record i stands at i times the full record size and is chunk i, or the file ends there |
| BlobFormat.RecordReads | internal/mount/cache/store.go:187-201 | a written record is read back |
| BlobFormat.SealStream | internal/mount/cache/store.go:176-212 | the written file holds the data, for every length and nonce choice |
| BlobFormat.HeldSize | internal/mount/cache/store.go:176-212 | a file is as long as its plaintext and forty-four bytes for each chunk |
| ChunkCache.Cache.Put | internal/mount/cache/store.go:454-469 | at most eight keys, none twice, the oldest pushed out, every chunk the one its key names |
| ChunkCache.Cache.Drop | internal/mount/cache/store.go:471-486 | exactly the chunks of one blob go, and the others keep their order |
| ChunkCache.OthersAt | internal/mount/cache/store.go:471-486 | each kept key stands behind the kept ones that were in front of it |
| BlobStore.Store.Put | internal/mount/cache/store.go:116-174 | the digest is returned and the plaintext stored under it, unless the file system fails or the file would be too long; the byte counter follows by the sealed size; an error changes nothing |
| BlobStore.Store.PutFile | internal/mount/cache/store.go:214-247 | succeeds exactly when the blob is there already, or the file is written, was read the same twice and is no longer than a file can be; contents and byte counter after either answer |
| BlobStore.Store.Get | internal/mount/cache/store.go:249-294 | exactly the stored plaintext, or an error when there is none |
| BlobStore.Store.ReadAt | internal/mount/cache/store.go:347-403 | the requested range of what Get returns, whatever is cached, with the overflow cases spelled out |
| BlobStore.Store.Remove | internal/mount/cache/store.go:493-510 | the blob, its sealed size and its cached chunks go together, and nothing else |
| BlobStore.StoredExactly | internal/mount/cache/store.go:116-174 | after any calls a blob is stored, under its digest, exactly when some call put it and no later one removed it; so Get returns it exactly then |
| BlobStore.ReadIsSliceExactly | internal/mount/cache/store.go:347-403 | ReadAt is the slice exactly when neither the end nor the record position overflows, or the range is behind the end |
| BlobStore.OverflowReadsNothing | internal/mount/cache/store.go:347-403 | instances of both overflows |
| BlobStore.SeekFinds | internal/mount/cache/store.go:405-438 | a 64-bit seek finds the chunk, the end of the file, or an overflow behind the end |
| Eviction.Evictor.Candidates | internal/mount/cache/db.go:725-735 | the first cached, clean, unpinned rows by last access |
| Eviction.Evictor.ReleaseBlob | internal/mount/cache/eviction.go:65-74 | a blob is deleted unless another cached row has it |
| Eviction.Evictor.Evict | internal/mount/cache/eviction.go:146-221 | only cached, clean, unpinned rows not in use are invalidated, oldest first, and exactly the blobs only they had are released; nothing goes when the target is met before, and otherwise before the last eviction, of a row used last of all that went, the store was above the target; it ends at the target, without candidates, or with a front batch all in use; a refused row is the only one that can lack its blob, exactly when the release removed it |
| Eviction.Evictor.RunIfNeeded | internal/mount/cache/eviction.go:137-144 | nothing happens below the maximum; above it, everything Evict promises |
| Eviction.Evictor.GCOrphans | internal/mount/cache/eviction.go:81-106 | exactly the blobs no cached row has are deleted |
| Eviction.EvictStep | internal/mount/cache/eviction.go:160-180 | one eviction keeps the order and the exact blobs |
| Eviction.OneFreed | internal/mount/cache/eviction.go:65-74 | releasing the blob of one more row leaves the blobs that cached rows need or that no evicted row had |
| Eviction.NoneNeeded | internal/mount/cache/eviction.go:137-150 | below the target no eviction is needed |
| Eviction.StillBacked | internal/mount/cache/eviction.go:65-74 | while blobs are only released, cached rows keep theirs |
| Eviction.RefusedRow | internal/mount/cache/eviction.go:168-172 | after a refused invalidation every other row has its blob, and that row exactly when its blob was shared or could not be deleted |
| Eviction.RefusedRowLosesItsBlob | internal/mount/cache/eviction.go:168-172 | an instance in which the blob is lost |
| FileCrypto.IncrementNonce | internal/crypto/encrypt.go:126-133 | the in-place increment is the successor function |
| FileCrypto.NextAddsOne | internal/crypto/encrypt.go:126-133 | which adds one, little-endian, modulo 256^n |
| FileCrypto.NoncesDistinct | internal/crypto/encrypt.go:126-133 | no two chunks of a file share a nonce |
| FileCrypto.Encrypt | internal/crypto/encrypt.go:36-113 | the stream and the metadata of every input: version 2, nonce, chunk size, number of chunks and of frames, plaintext size, digest, and the MAC over them |
| FileCrypto.FrameAt | internal/crypto/encrypt.go:64-95 | frame k stands at k full frames and is chunk k, sealed under the k-th nonce and bound to its index |
| FileCrypto.FramesCounted | internal/crypto/encrypt.go:64-95 | by its length prefixes a stream has as many frames as there are chunks, and each costs twenty bytes |
| FileCrypto.IndicesDistinct | internal/crypto/encrypt.go:71-72 | up to 2^32 chunks no two are bound to the same index |
| FileCrypto.Decrypt | internal/crypto/decrypt.go:104-165 | the decoder, with its length check, version fallback and metadata checks, on every stream |
| FileCrypto.FrameRules | internal/crypto/decrypt.go:112-146 | a frame is read exactly when it is whole, not too long, and opens under its nonce and index, or, before version 2, bound to nothing |
| FileCrypto.AcceptedIsChecked | internal/crypto/decrypt.go:152-187 | nothing is returned without the MAC of its metadata and, where one is given, the digest |
| FileCrypto.DecodeStream | internal/crypto/decrypt.go:104-150 | decoding undoes encrypting for every input |
| FileCrypto.RoundTrip | internal/crypto/decrypt.go:104-187 | decrypting an encrypted file gives it back, with the wire metadata and with the full one |
| FileCrypto.CanonicalInjective | internal/crypto/encrypt.go:115-124 | the string under the MAC determines every field |
| FileCrypto.AcceptedIsWhole | internal/crypto/decrypt.go:152-187 | any stream and metadata accepted under an encrypted file's MAC yield that whole file, and the metadata is the file's |
| Laws.SuiteLawsHold | internal/crypto/encrypt.go:36-124 | the laws assumed of cipher, digest and MAC are consistent |
| Laws.StoreLawsHold | internal/mount/cache/store.go:116-212 | so are those of the blob store |
| Laws.DigestLawHolds | internal/mount/syncer/downloader.go:336-336 | and that of the sync machine's digest |
| Laws.PinLawsHold | internal/e2ee/peer_seal_pin.go:174-177 | and those of the seal pins |
| RetiredKeys.DropRetired | internal/e2ee/tee_signing_pin.go:177-186 | the entries without one key, in order |
| RetiredKeys.PinStore.Repin | internal/e2ee/tee_signing_pin.go:250-300 | the new record, or an unchanged store with the reason |
| RetiredKeys.RepinRecords | internal/e2ee/tee_signing_pin.go:276-294 | one repin: the new pin and its posture, the old pin retired last at that time, the times of the others kept |
| RetiredKeys.UncutIsHistory | internal/e2ee/tee_signing_pin.go:281-286 | the uncut list is the keys once pinned and pinned no more, each once, in the order of their last use |
| RetiredKeys.CutIsSuffix | internal/e2ee/tee_signing_pin.go:281-291 | cutting at every repin keeps exactly the last eight entries of the uncut list |
| RetiredKeys.RetiredAfterRun | internal/e2ee/tee_signing_pin.go:142-152 | after any run: at most eight keys, none twice, never the pin, and the key superseded last is accepted |
| EnclaveKeys.Session.BeginFetch | internal/e2ee/e2ee.go:410-421 | a cached set, a joined probe, or a new probe of the current epoch |
| EnclaveKeys.Session.FinishFetch | internal/e2ee/e2ee.go:423-445 | a probe of an old epoch leaves the session's set alone and returns nil |
| EnclaveKeys.Session.ForgetMemos | internal/e2ee/tee_signing_pin.go:302-313 | a repin advances the epoch and forgets set and probe |
| EnclaveKeys.Session.CheckStale | internal/e2ee/e2ee.go:456-474 | a staleness check drops the set outside the gap, and within it compares with the cached set or the probe under way |
| EnclaveKeys.StaleComparesCurrent | internal/e2ee/e2ee.go:456-474 | in every run that set was found by a probe of the current epoch, and that probe is one of the current epoch |
| EnclaveKeys.OneProbe | internal/e2ee/e2ee.go:410-445 | in every run at most one probe of the current epoch is in flight and the cached set was found by a probe of the current epoch |
| EnclaveKeys.OvertakenProbeYieldsNil | internal/e2ee/e2ee.go:427-454 | a probe overtaken by a repin yields nil to its caller and to every waiter, however late |
| EnclaveKeys.FoundSetIsCurrent | internal/e2ee/e2ee.go:427-445 | a found set is returned exactly when no repin overtook the probe, and is then the cached one |
| EnclaveKeys.FetchExactly | internal/e2ee/e2ee.go:410-421 | after any run a fetch uses the set there is, joins the probe of the current epoch, or starts one |
| EnclaveKeys.AnswerExactly | internal/e2ee/e2ee.go:427-445 | an answer in its own epoch sets refusal, set and, when answered, the switch; one that was overtaken sets nothing |
| EnclaveKeys.RepinStartsAfresh | internal/e2ee/tee_signing_pin.go:302-313 | after a repin nothing of the old epoch is used, and the next fetch starts a probe |
| EnclaveKeys.RechecksApart | internal/e2ee/e2ee.go:460-470 | between two consecutive checks that fetch anew lie at least thirty seconds |
| Wake.WipeCauses | mobile/wake.go:69-131 | a wipe happens exactly for a confirmed revocation or a strictly larger server epoch, with no enrolment open |
| Wake.ContinueExactly | mobile/wake.go:69-131 | a device goes on exactly when the server answers with its own epoch or none; the delays and strikes of every pause |
| Wake.ReasonsExactly | mobile/wake.go:69-131 | every other verdict, exactly by its cause |
| Wake.PausesCarry | mobile/wake.go:88-130 | what an unconfirmed revocation and an open enrolment carry on, and the least number of seconds after which asking again confirms |
| Wake.RevokedWipeIsConfirmed | mobile/wake.go:88-110 | over any trace, a revocation wipe ends an unbroken run of matching revocations back to a strike of at least thirty seconds before |
| Wake.EpochOnlyRises | mobile/wake.go:118-130 | the epoch a device asks with never falls, and only a wipe raises it |
| Wake.RetryDelaySuffices | mobile/wake.go:97-110 | a device that waits the returned delay and is told the same again wipes, exactly when its strike is a positive time |
| Wake.StrikeIsPositive | mobile/wake.go:97-110 | which it is from the first second of 1970 on |
| Wake.ConfirmationMayBeShort | mobile/wake.go:97-110 | an instance with less than thirty seconds between the two replies |
| Wake.ConfirmationIsFullExactly | mobile/wake.go:97-110 | for a strike a call takes, because it carried none or one in the future: every confirming reply is at least thirty seconds later exactly when the strike fell on a full second |
| PeerPins.PinStore.PinPeerSealKey | internal/e2ee/peer_seal_pin.go:294-332 | first use pins, the same key passes, another key passes only when attributable |
| PeerPins.PinStore.RepinPeerSealKey | internal/e2ee/peer_seal_pin.go:334-354 | the user's move of a pin |
| PeerPins.CallEffect | internal/e2ee/peer_seal_pin.go:294-354 | success leaves the offered fingerprint pinned, refusal changes nothing, no call touches another peer |
| PeerPins.SucceedsExactly | internal/e2ee/peer_seal_pin.go:294-354 | when a call succeeds: first use, the same key, a key set signed under the pin's anchors; for a repin, another key |
| PeerPins.FirstUseTakes | internal/e2ee/peer_seal_pin.go:311-316 | first use takes the fingerprint and the signing pair |
| PeerPins.AnchorsHold | internal/e2ee/peer_seal_pin.go:255-332 | between repins the anchors never change, and a changed fingerprint is that of a sealing pair whose signature verifies under exactly those anchors |
| PeerPins.RotationExactly | internal/e2ee/peer_seal_pin.go:255-332 | after any run without a repin a key set passes exactly when it is the pinned one or is signed under the anchors of the first pin |
| PeerPins.PinnedKeysAreSigned | internal/e2ee/peer_seal_pin.go:255-332 | so whatever sealing pair has the pinned fingerprint in place of the first one is signed under the signing pair the first pin was taken under |
| PeerPins.PinsWereOffered | internal/e2ee/peer_seal_pin.go:294-354 | every pin of a run was offered whole by some call |
| Base32.Base32Encode | internal/crypto/keys.go:97-113 | for data of any length the text is the unpadded encoding by five-bit groups, although the accumulator wraps |
| Base32.PushCarries | internal/crypto/keys.go:101-103 | the low bits of the wrapped accumulator are the bits not yet written |
| Base32.FiveTaken | internal/crypto/keys.go:104-107 | the shifted accumulator yields the next five bits |
| Base32.GroupsFromAlphabet | internal/crypto/keys.go:97-113 | one character of the alphabet per group |
| Base32.FormatRecoveryKey | internal/crypto/keys.go:83-95 | groups of four with dashes, and without the dashes it is the encoding |
| Backoff.ShiftIsLarge | internal/mount/cache/failures.go:13-22 | no overflowed shift lands inside the cap |
| Backoff.BackoffIsIdeal | internal/mount/cache/failures.go:13-22 | for every attempt count the delay is min(30 * 2^(n-1), 3600) seconds |
| Backoff.BackoffMonotone | internal/mount/cache/failures.go:13-22 | it is positive, capped and never falls |

## Left out

- SyncAgreement.FailureAgrees: the time at which a retry is due is not part of the sync machine, which may claim any
  waiting row.
- Directories, renames and mkdir in the sync machine: it follows one regular file; a move is a removal and a new file.
- The guard and the rename of a download publication are one atomic step; the window between them is not modelled.
- Symlink checks, temp files, modification-time rounding and permission errors: a path is optional content with an
  identity and a time.
- The sync_failures table, download scheduling and bandwidth: whether a download is due is a parameter.
- The file name of a conflict copy, stamped to the second (internal/mount/daemon/sync_daemon.go:362-369): taken to be
  fresh.
- SQL text, migrations and SQLite errors: a statement is an atomic update; only the eviction model lets one be
  refused.
- The order of watcher, put, evict and upsert (internal/mount/syncer/watcher.go:368-405): the blob reference property
  is stated for the evictor, the collector and ReleaseBlob.
- The pin flag and the time of last access in the sync machine, and the order and number in which it claims rows: it
  may claim any waiting rows; the order and the limit of ten are proved of CacheDb and Writeback.
- Fairness of the flush: a batch of nothing but held conflicts ends it.
- SyncSafety.AutomaticStepKeepsBytes: the digest is taken to be collision free.
- Tree.Tree.New: the display sort is one of the sorts the library may choose for equal names; names are compared by an
  abstract rank.
- Paths.PathRoundTrip: case folding is an abstract function.
- Subtree of internal/tree/tree.go, which adds a depth-first order and two filters to what is proved of Descendants.
- The float factor of the eviction target: the target is a parameter.
- BlobStore.Store.ReadAt: calls are sequential; a chunk read before and cached after a concurrent Remove is not
  modelled.
- The byte counter of the store does not wrap; a file is shorter than 2^63 bytes.
- DecryptFile repeats the loop of decryptReader while writing its output file; only the in-memory form is modelled.
- JSON encodings of metadata, wake replies and pin files; base64 and hex are injective parameters.
- The cryptographic primitives, and the forgery resistance of the cipher, which the whole-file result does not need.
- Epochs of the key fetch are unbounded numbers; the verdict on the two key sets after a staleness check.
- Cross-process races on pin files, the stale-lock break, and forgetting a retired key by fingerprint.
- The HTTP client, login, IPC, FUSE and WinFsp back ends, output, completion, configuration and EXIF parsing.
