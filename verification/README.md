# vidcull state keeping: a verified model

vidcull indexes video files, groups duplicates, and lets the user delete copies and take the
deletes back. Its daemon keeps three kinds of state that have to survive crashes, concurrent
workers and impatient users: the index database with its delete journal, the persistent task
queue, and a handful of lock- and atomic-based registries in memory. This project models those
protocols in Dafny, in the order a reader may want them:

- **Deleting, undoing, reconciling** (`DeletePlan`, `Journal`, `CrashSafety`, `UndoStack`,
  `GroupSize`, `IndexDatabase`). `Journal` has one function per database transaction; a crash can
  fall between any two of them. `IndexDatabase` has the code itself, as methods over a mutable
  index, each proved equal to its function. The other modules prove what the transactions amount
  to: a crash loses nothing, undo is a stack, groups keep two members.
- **The task queue and its workers** (`TaskQueue`, `Workers`, `Cadence`, `Watcher`). `TaskQueue`
  has the statements on the queue, one pass of the sequential loop and one turn of a worker as
  methods; `Workers` interleaves any number of workers, with other connections, crashes and
  start-ups, statement by statement.
- **Folders taken out, partial fingerprints** (`FolderRemoval`, `InFlightIndexing`, `Backfill`).
  The hide transaction against decodes in flight, and why the loop of draining and backfilling
  stops.
- **Protocols between threads** (`Cancellation`, `ScanMailbox`, `SingleFlight`, `DecodeGates`),
  as state machines over every interleaving of their critical sections and atomic operations;
  `Throttle` has the cancellation registry as the sequential object it is under its locks.
- **Arithmetic, parsing, resumability** (`TokenBucket`, `Paths`, `Migrations`, `Keymap`).

`dafny verify dfyconfig.toml` checks everything.

## Where the code does less than it seems to promise

These statements are false of the code as it is. For each, the model has a concrete
counterexample and the exact condition under which the promise does hold.

- *A group never has fewer than two members.* Undo is the one writer that can break it. Over any
  run, overlapping deletes and matcher passes included, no group is ever small if and only if
  every undo finds its group still there or brings two files to it
  (`GroupSize.BigIffUndosGuarded`). If the one member that was to stay is purged while a delete
  runs, the journal has no survivor, and undoing it with a single file back on disk makes a group
  of one (`GroupSize.UndoneGroupOfOne`). As long as nobody else touches a group that is being
  deleted from, every undo is safe (`GroupSize.GroupsStayBig`).
- *n undos take n deletes back.* They do if and only if every one of the deletes has a file back on
  disk (`UndoStack.StackOfUndos`). Otherwise they stop for good at the last delete that has none,
  and what lies below it is out of reach (`UndoStack.UndosStopThere`,
  `UndoStack.FirstDeleteOutOfReach`). A delete whose group a matcher pass dissolved meanwhile is
  such a one for ever (`GroupSize.DissolvedGroupBlocksUndo`).
- *When only some files are back, exactly those return.* Active flags do follow this rule. Member
  rows do if and only if no file of a second or later delete on the group is missing
  (`UndoStack.ExactlyThoseReturn`): such a file is a survivor in the journal of an earlier delete,
  whose undo lists it again although it stays deleted (`UndoStack.MissingFileListedAgain`).
- *A crash before the closing transaction reconciles to that transaction.* It does if and only if
  no target was both absent from the start and passed over without a look at the disk, for its path
  or for an error (`CrashSafety.CrashBeforeCommit`); `CrashSafety.RefusedAndAbsent` is such a
  delete on Windows.
- *Taking a folder out leaves none of its files listed.* After the workers have drained the queue a
  file is listed exactly when it was listed and its only Remove tasks were running and already
  through the file table, or a run for an unchanged file or a known copy, which does not look at
  its task, stored it while no Remove for it was to come
  (`InFlightIndexing.LeftExactlyWhatWasMissed`). Which files can be left that way shows in the
  moment before: the former, and those whose upsert is running and has not written yet
  (`InFlightIndexing.CanBeLeftIff`). `InFlightIndexing.AFileIsMissed` and
  `InFlightIndexing.AnUncheckedStoreIsLeft` are two such runs.
- *Taking a folder out touches no other folder.* It queues a Remove for a file outside exactly when
  one lies under a folder whose name differs in the case of ASCII letters only
  (`FolderRemoval.ReachesOutsideIff`, `FolderRemoval.NeighbourIsTakenOut`).
- *Backfilling comes to an end.* While the removed folders stay as they are, a wanted file is
  answered after three cycles exactly when it has a fingerprint row and is on disk below no removed
  folder, or the run of a file with the same content stored the blob for it
  (`Backfill.LoopConverges`); so it is sure to be answered in the former case only
  (`Backfill.SureToBeAnsweredIff`). Without a row every marker and blob goes nowhere
  (`Backfill.AskedForEver`), and below a removed folder, where a file can be listed again by undoing
  its delete, every task is dropped (`Backfill.DroppedForEver`): either is asked for again for ever.
- *Waiting as long as the limiter says is enough.* For costs within the capacity it is, if and only
  if the wait fits the signed clock (`TokenBucket.RetryAfterWait`); `TokenBucket.WaitBeyondTheClock`
  is a wait that does not.
- *Whoever keeps asking is granted in the end.* Nothing is ever granted if and only if the refills,
  each rounded down by itself, do not add up to the cost (`TokenBucket.NeverGranted`); polling faster
  than one token per refill is such a case (`TokenBucket.FastPollingStarves`), one token a second
  polled twice a second an instance (`TokenBucket.HalfSecondPollingStarves`).
- *One decode per content hash.* In every state of a run at most one guard lives if and only if
  nobody gave up waiting for that hash (`SingleFlight.OneGuardUnlessAbandoned`);
  `SingleFlight.AbandonedWaitDoubles` is the shortest run with two, and it does not heal while
  callers keep coming (`SingleFlight.AbandonedWaitLingers`).
- *`validate_sequence` accepts exactly 1..n.* For n below 2^32 - 1; a longer sequence overflows
  its counter and is refused (`Migrations.ValidateSequence`, `Migrations.FullRange`).

## Model

| member | source | states |
|---|---|---|
| `DeletePlan.PlanDeletion` | crates/vidcull-daemon/src/delete.rs:39-68 | each reject code if and only if its condition holds; a plan is the selection without repetitions, in order of first appearance, and a strict non-empty part of the members |
| `DeletePlan.PlanSparesAMember` | crates/vidcull-daemon/src/delete.rs:51-61 | a plan leaves a member that is never touched |
| `Journal.UnlinkInTurn` | crates/vidcull-daemon/src/indexing.rs:1455-1474 | taking files out of their groups one after the other, dropping groups left with fewer than two, does not depend on the order |
| `CrashSafety.ReconcileIsFinalize` | crates/vidcull-daemon/src/bridge.rs:1788-1835 | reconciling an interrupted batch is finalizing it with the targets absent from disk: same flags, groups, status and journal roles; with none absent only the batch goes |
| `CrashSafety.RecordedIsIntact` | crates/vidcull-daemon/src/bridge.rs:586-607 | recording a plan sets up what reconciliation relies on, and removing the batch again gives back the old state |
| `CrashSafety.LostListIsOnDisk` | crates/vidcull-daemon/src/bridge.rs:609-655 | after any number of steps of the removal loop, the in-memory list of removed ids can be read off the disk |
| `CrashSafety.CrashLosesNothing` | crates/vidcull-daemon/src/bridge.rs:609-698 | for a crash at every step of the loop, exactly which targets reconciliation finds absent, relative to the lost list |
| `CrashSafety.CrashBeforeCommit` | crates/vidcull-daemon/src/bridge.rs:559-698 | crash before the closing transaction, then reconcile: the state that transaction would have produced, if and only if no target that was absent from the start was passed over without a look at the disk |
| `CrashSafety.RefusedAndAbsent` | crates/vidcull-daemon/src/bridge.rs:609-655 | a concrete Windows delete in which a refused and absent target is kept by the closing transaction and deleted by reconciliation |
| `CrashSafety.AMemberKeepsItsFile` | crates/vidcull-daemon/src/bridge.rs:609-655 | one and the same member outside the plan keeps its file, presence and content, at every step of the loop |
| `CrashSafety.PassStep` | crates/vidcull-daemon/src/bridge.rs:1788-1835 | a pass over the list read beforehand is handling the least pending batch and passing again |
| `CrashSafety.InterruptedThenRerun` | crates/vidcull-daemon/src/bridge.rs:1788-1835 | a pass interrupted after any batch and rerun equals one pass |
| `CrashSafety.RestartsAgree` | crates/vidcull-daemon/src/main.rs:96-104 | the same for any number of interrupted starts |
| `CrashSafety.PassOutcome` | crates/vidcull-daemon/src/bridge.rs:1788-1835 | after a pass no batch is pending and the deletion marks are the old ones plus exactly the absent targets |
| `CrashSafety.PassFinalizesEach` | crates/vidcull-daemon/src/bridge.rs:1788-1835 | when the pending batches describe their groups, no two the same one, a pass leaves each batch and its group as finalizing it alone with its absent targets would: status, journal rows and roles, members |
| `CrashSafety.PassElsewhere` | crates/vidcull-daemon/src/bridge.rs:1788-1835 | committed batches and groups without a pending batch are left as they are, and no batch appears |
| `CrashSafety.PassIsIdempotent` | crates/vidcull-daemon/src/bridge.rs:1788-1835 | a second pass changes nothing |
| `CrashSafety.TargetDeletedIffAbsent` | crates/vidcull-daemon/src/bridge.rs:1791-1811 | a recorded target is marked deleted after the pass if and only if it was before or is absent from disk |
| `UndoStack.DeleteEffect` | crates/vidcull-daemon/src/bridge.rs:663-698 | what a committed delete does to flags, groups and journal, as one step |
| `UndoStack.UndoOneDelete` | crates/vidcull-daemon/src/bridge.rs:759-817 | undoing the newest delete on any rows that agree with it gives back its group's id, trust and flag, and its members but for those still missing |
| `UndoStack.StackOfUndos` | crates/vidcull-daemon/src/bridge.rs:554-817 | n deletes then n undos: every removed file active exactly when it is back, every group under its old id, trust and flag with exactly determined members, journal as before, if and only if every delete has a file back on disk; already the journal is as before only then |
| `UndoStack.UndosStopThere` | crates/vidcull-daemon/src/bridge.rs:763-779 | otherwise the exact state: the deletes after the last one with nothing back are unwound, that one and all earlier ones stay, however many undos follow |
| `UndoStack.ExactlyThoseReturn` | crates/vidcull-daemon/src/bridge.rs:795-808 | a group's rows are the old ones minus everything still missing from it if and only if no file of a second or later delete on it is missing |
| `UndoStack.StackRestoresAll` | crates/vidcull-daemon/src/bridge.rs:554-817 | with every file back on disk, all groups and active files are as before the n deletes |
| `UndoStack.BlockedUndo` | crates/vidcull-daemon/src/bridge.rs:763-779 | an undo with nothing restorable changes nothing, however often it is repeated |
| `UndoStack.LaterMissingFile` | crates/vidcull-daemon/src/bridge.rs:795-808 | a file still missing from a later delete is listed by the undo of an earlier one, for all such deletes |
| `UndoStack.MissingFileListedAgain` | crates/vidcull-daemon/src/bridge.rs:795-808 | the concrete case with four copies and two deletes |
| `UndoStack.FirstDeleteOutOfReach` | crates/vidcull-daemon/src/bridge.rs:763-779 | the concrete case in which a file that is back stays deleted below a delete with nothing back |
| `GroupSize.UndoKeepsSize` | crates/vidcull-daemon/src/bridge.rs:786-810 | an undo keeps group sizes if and only if the group still exists or the journal brings two files |
| `GroupSize.BigIffUndosGuarded` | crates/vidcull-daemon/src/bridge.rs:786-810 | over every run, with overlapping deletes, crashes, purges and matcher passes: no group is ever small if and only if every undo found its group or brought two files |
| `GroupSize.GroupsStayBig` | crates/vidcull-daemon/src/bridge.rs:682-697 | when no other writer touches a group that is being deleted from, every undo meets its guard and no group is ever small, over every run |
| `GroupSize.BigFromTheStart` | crates/vidcull-daemon/src/bridge.rs:682-697 | in particular from an index without groups and deletes |
| `GroupSize.UnlinkKeepsSize` | crates/vidcull-daemon/src/bridge.rs:1541-1569 | purge, teardown and changed content leave no small group and do not touch groups without the files |
| `GroupSize.DisturbanceIsNotAllowed` | crates/vidcull-daemon/src/indexing.rs:1455-1474 | the purge that breaks the invariant is the one the run theorem rules out |
| `GroupSize.DisturbedJournal` | crates/vidcull-daemon/src/bridge.rs:682-697 | purging the spared member mid-delete commits a journal without survivors |
| `GroupSize.UndoneGroupOfOne` | crates/vidcull-daemon/src/bridge.rs:786-810 | undoing that with one file back makes a group of one |
| `GroupSize.DissolvedGroupBlocksUndo` | crates/vidcull-daemon/src/bridge.rs:663-698 | a delete whose group is dissolved before its closing transaction commits an empty journal, and every undo from then on stops there |
| `IndexDatabase.IndexDb.ListMembers` | crates/vidcull-db/src/repo/duplicate_groups.rs:159-173 | the members of a group, each once, in id order |
| `IndexDatabase.IndexDb.MarkAndRemove` | crates/vidcull-daemon/src/bridge.rs:682-685 | the loop marks exactly the given files and removes exactly their member rows |
| `IndexDatabase.IndexDb.JournalMembers` | crates/vidcull-daemon/src/bridge.rs:668-681 | the journal rows of a finished delete: every member, with the role it ended in |
| `IndexDatabase.IndexDb.RecordPending` | crates/vidcull-db/src/repo/delete_journal.rs:133-170 | a pending batch with a fresh id and the targets' paths |
| `IndexDatabase.IndexDb.FinalizeDelete` | crates/vidcull-daemon/src/bridge.rs:663-698 | the closing transaction equals its function |
| `IndexDatabase.IndexDb.ListAbsent` | crates/vidcull-daemon/src/bridge.rs:1792-1800 | exactly the recorded targets absent from disk |
| `IndexDatabase.IndexDb.JournalSurvivors` | crates/vidcull-daemon/src/bridge.rs:1812-1825 | the surviving members join the journal rows of the absent targets |
| `IndexDatabase.IndexDb.ReconcileBatch` | crates/vidcull-daemon/src/bridge.rs:1792-1832 | one batch of the reconciliation loop equals its function; the flag says whether it had an absent target |
| `IndexDatabase.IndexDb.ReconcilePendingDeletes` | crates/vidcull-daemon/src/bridge.rs:1788-1835 | the whole pass equals its function and returns the number of batches finalized |
| `IndexDatabase.IndexDb.Replay` | crates/vidcull-daemon/src/bridge.rs:795-808 | the loop over the journal clears exactly the restorable marks and re-adds survivors and restorables |
| `IndexDatabase.IndexDb.UndoLastDelete` | crates/vidcull-daemon/src/bridge.rs:759-817 | undo equals its function, with the three kinds of reply |
| `IndexDatabase.IndexDb.UnlinkFromGroups` | crates/vidcull-daemon/src/indexing.rs:1463-1470 | one file leaves all its groups, and groups left with fewer than two go |
| `IndexDatabase.IndexDb.PurgeFile` | crates/vidcull-daemon/src/indexing.rs:1455-1474 | exactly the active files the index lists at or below the path are marked deleted, leave their groups and are marked for regrouping |
| `IndexDatabase.IndexDb.ForceRescanTeardown` | crates/vidcull-daemon/src/bridge.rs:1541-1569 | exactly the files named by forced changes leave their groups, lose fingerprint and hash and are marked for regrouping; the number of changes that named one |
| `IndexDatabase.DaemonBridge.RemoveTargets` | crates/vidcull-daemon/src/bridge.rs:609-655 | the removal loop, with refusals, metadata errors, absent and changed files and failing removals, equals its function |
| `IndexDatabase.DaemonBridge.CarryOut` | crates/vidcull-daemon/src/bridge.rs:572-698 | a delete ends in the committed delete of what left the disk, or in the old rows; only files of removed ids leave the disk |
| `IndexDatabase.DaemonBridge.DeleteFiles` | crates/vidcull-daemon/src/bridge.rs:554-739 | a request is refused if and only if the plan rejects it, and then nothing changes; otherwise as above |
| `TaskQueue.Queue.Enqueue` | crates/vidcull-db/src/repo/task_queue.rs:79-95 | a PENDING row without attempts under an id never given out before |
| `TaskQueue.Queue.Select` | crates/vidcull-db/src/repo/task_queue.rs:203-288 | none if and only if nothing eligible is due; otherwise the first by priority, waiting time and id |
| `TaskQueue.Queue.Dequeue` | crates/vidcull-db/src/repo/task_queue.rs:203-288 | the claim takes that row, makes it RUNNING, adds one attempt and changes no other row |
| `TaskQueue.NextIsUnique` | crates/vidcull-db/src/repo/task_queue.rs:203-288 | the claimed row is determined by the table |
| `TaskQueue.Queue.RequeueBusyTask` | crates/vidcull-db/src/repo/task_queue.rs:560-574 | the row is PENDING again with the given time and attempts; a deleted row stays deleted |
| `TaskQueue.Queue.DeleteIfPending` | crates/vidcull-db/src/repo/task_queue.rs:318-327 | deletes exactly a PENDING row |
| `TaskQueue.Queue.Recover` | crates/vidcull-daemon/src/lib.rs:287-301 | nothing is RUNNING, nothing waits for the future, attempts and everything else as before |
| `TaskQueue.Daemon.Claim` | crates/vidcull-daemon/src/lib.rs:319-334 | a due partial task first if preferred, otherwise the next of the rest |
| `TaskQueue.Daemon.Conclude` | crates/vidcull-daemon/src/lib.rs:352-432 | each answer of the handler is settled as its verdict says, with backoff, refunded attempt and busy count |
| `TaskQueue.Daemon.StepInner` | crates/vidcull-daemon/src/lib.rs:313-434 | one sequential step for every answer and every table the handler may leave: which task, what becomes of it, what is reported; a claimed task is never future-dated |
| `TaskQueue.Daemon.PausedPass` | crates/vidcull-daemon/src/lib.rs:475-537 | one pass while paused settles exactly the waiting tasks that lie under roots removed at their turn and are not Removes or whose Remove succeeded; the clean-up goes on if and only if it settled one |
| `TaskQueue.PausedPassSettles` | crates/vidcull-daemon/src/lib.rs:475-537 | what still waits of the tasks under removed roots after a pass are exactly the Removes whose handler failed, and the same roots and answers settle nothing more: those wait for indexing to be resumed |
| `TaskQueue.ParallelWorker.Turn` | crates/vidcull-daemon/src/lib.rs:702-1116 | one turn of a worker: which task under the partial gate, verdict, row, busy count, its own claim count, shared counters, and whether it goes on |
| `TaskQueue.ParallelWorker.Work` | crates/vidcull-daemon/src/lib.rs:879-1116 | from the claimed to the settled task: unreadable and stale ones before the handler, the others by its answer |
| `Workers.NoTaskLostOrHeldTwice` | crates/vidcull-daemon/src/lib.rs:681-1116 | over all interleavings with crashes: no id is lost, none held twice, RUNNING means held, and nothing is RUNNING when a burst has ended |
| `Workers.EndingsAndAttempts` | crates/vidcull-daemon/src/lib.rs:313-434 | DONE and FAILED only for the stated causes; the attempts of a waiting task are exactly the crashes it was running in |
| `Workers.CausesAreEvents` | crates/vidcull-daemon/src/lib.rs:894-1116 | each recorded cause is entered by exactly the event it is named after |
| `Workers.EndedIsFinal` | crates/vidcull-db/src/repo/task_queue.rs:290-316 | a DONE or FAILED row never changes again until it is deleted, over every run |
| `Workers.NoCrashNoAttempts` | crates/vidcull-daemon/src/lib.rs:1001-1075 | without a crash every waiting task has zero attempts, whatever busy answers, pauses and cancellations it went through |
| `Workers.StartUpKeepsInv` | crates/vidcull-daemon/src/lib.rs:287-301 | recovery after a crash restores the invariant, with one more interruption for each task that was running |
| `Workers.BurstBound` | crates/vidcull-daemon/src/lib.rs:587-590 | a burst processes or fails at most budget times the per-worker cap, fewer than chunk + budget tasks, in every interleaving |
| `Workers.CapTimesBudget` | crates/vidcull-daemon/src/lib.rs:588-588 | chunk <= budget * cap < chunk + budget |
| `Workers.VerdictOfReply` | crates/vidcull-daemon/src/lib.rs:352-432 | success, fatal failure and drop each come from exactly the answers they should |
| `Cadence.SequentialLoop.Pass` | crates/vidcull-daemon/src/lib.rs:1149-1166 | one pass moves the wrapping counter, claims under the preference it had before, settles the task by its verdict, and counts exactly a success or a fatal failure |
| `Cadence.EveryWindowClaimsAPartial` | crates/vidcull-daemon/src/lib.rs:322-332 | of any eight consecutive passes exactly one prefers partial tasks, also across the wrap-around, and it claims the longest waiting one if one is due throughout |
| `Cadence.SevenPassesMayPassOver` | crates/vidcull-daemon/src/lib.rs:1149-1151 | seven passes may all take more urgent work |
| `Watcher.EnqueueChanges` | crates/vidcull-daemon/src/watcher.rs:344-396 | the loop over a batch, forced and plain upserts and failures on the same size included, equals its function |
| `Watcher.ReconcileUpsertClass` | crates/vidcull-daemon/src/watcher.rs:272-301 | skips if and only if an upsert covers the change, and otherwise withdraws exactly the plain upserts a forced one displaces |
| `Watcher.BatchKeepsOneUpsert` | crates/vidcull-daemon/src/watcher.rs:358-396 | no batch in any order leaves two active upserts of either sort for one path |
| `Watcher.BatchSettles` | crates/vidcull-daemon/src/watcher.rs:358-396 | after a batch every change of it has its task, or is a plain upsert with a forced one or a failure on that size on record, and what was so before still is |
| `Watcher.BatchTakesOutExactly` | crates/vidcull-daemon/src/watcher.rs:272-301 | a batch withdraws exactly the active plain upserts whose path gets its first forced one from it |
| `Watcher.OnlyBatchIsNew` | crates/vidcull-daemon/src/watcher.rs:358-396 | all other rows are as before, and new ones are waiting tasks for changes of the batch |
| `Watcher.PlainChangesQueued` | crates/vidcull-daemon/src/watcher.rs:358-396 | without upserts, exactly the changes without an active task get one |
| `FolderRemoval.FolderHider.ListRemoves` | crates/vidcull-daemon/src/bridge.rs:1420-1429 | a Remove for exactly the active files the index lists under some removed root, ASCII case apart as its query does |
| `FolderRemoval.FolderHider.Hide` | crates/vidcull-daemon/src/bridge.rs:1415-1493 | the transaction withdraws exactly the failed tasks and the waiting and running ones that are not Removes under the roots, and every file listed there has a Remove |
| `FolderRemoval.QueuedThenHidden` | crates/vidcull-daemon/src/bridge.rs:1467-1487 | queueing, then deleting the listed ids, is that transaction |
| `FolderRemoval.ReachesOutsideIff` | crates/vidcull-db/src/repo/files.rs:442-467 | hiding queues a Remove for a file outside the roots if and only if one without a Remove lies under a root spelled in another case |
| `FolderRemoval.NeighbourIsTakenOut` | crates/vidcull-db/src/repo/files.rs:442-467 | a concrete pair of folders |
| `InFlightIndexing.LateStoreIsRefused` | crates/vidcull-daemon/src/indexing.rs:960-963 | a decode under the roots that was running when they were hidden never stores its file, whenever it ends |
| `InFlightIndexing.MissedByHide` | crates/vidcull-daemon/src/bridge.rs:1415-1493 | which listed files have no Remove to come, read off the state before the transaction |
| `InFlightIndexing.NothingLeftUnderTheRoots` | crates/vidcull-daemon/src/bridge.rs:1415-1493 | over every run with crashes and further removals, a file under the roots is listed after the drain only if it was missed in that way or stored unchecked while no Remove for it was to come |
| `InFlightIndexing.LeftExactlyWhatWasMissed` | crates/vidcull-daemon/src/bridge.rs:1415-1493 | when the workers just drain, listed after the drain if and only if listed and missed before, or stored unchecked while no Remove for it was to come |
| `InFlightIndexing.CanBeLeftIff` | crates/vidcull-daemon/src/bridge.rs:1415-1493 | some drain leaves the file listed if and only if it was listed and missed, or an upsert of it was running that had not written yet |
| `InFlightIndexing.CoverHolds` | crates/vidcull-daemon/src/indexing.rs:1455-1474 | a Remove that covers a file covers it until the file is gone, through retries, crashes and other removals |
| `InFlightIndexing.AFileIsMissed` | crates/vidcull-daemon/src/watcher.rs:371-373 | a concrete run in which a running, finished Remove keeps a new one from being queued and the file stays listed |
| `InFlightIndexing.AnUncheckedStoreIsLeft` | crates/vidcull-daemon/src/indexing.rs:783-817 | a concrete run in which a deleted file that is back unchanged becomes listed after its folder was hidden |
| `Backfill.PartialIndexer.CountFailed` | crates/vidcull-db/src/repo/task_queue.rs:110-119 | the number of FAILED rows with the payload |
| `Backfill.PartialIndexer.SetPartialForContent` | crates/vidcull-daemon/src/indexing.rs:1327-1344 | the blob reaches exactly the active files with the same content that have a row |
| `Backfill.PartialIndexer.PartialFingerprintFile` | crates/vidcull-daemon/src/indexing.rs:1178-1390 | one run, every branch: which marker or blob is written and how the task ends |
| `Backfill.PartialIndexer.EnqueuePartialBackfill` | crates/vidcull-daemon/src/watcher.rs:421-455 | a partial task for exactly the unanswered active files outside exact groups that have none active |
| `Backfill.RunAnswers` | crates/vidcull-daemon/src/indexing.rs:1178-1390 | a run that ends answers its file, or fails while the budget lasts and changes nothing |
| `Backfill.RunTakesNothing` | crates/vidcull-daemon/src/indexing.rs:1178-1390 | no run takes an answer away from any file |
| `Backfill.RunsBounded` | crates/vidcull-daemon/src/indexing.rs:468-487 | over every run, drops included: at most three ended runs of a wanted file, and never more FAILED rows than two or than there were; a wanted file's task goes only by an ended run or a drop |
| `Backfill.CycleTakesOne` | crates/vidcull-daemon/src/indexing.rs:2090-2100 | every drain-and-backfill cycle lowers the measure of every file it finds wanted, unless it drops the file's task below a removed folder |
| `Backfill.CyclesTakeOneEach` | crates/vidcull-daemon/src/indexing.rs:2090-2100 | whatever folders are taken out and added meanwhile, the measure falls with every cycle that does not drop the task |
| `Backfill.LoopConverges` | crates/vidcull-daemon/src/indexing.rs:2090-2100 | with the removed folders left alone, after three cycles a wanted file is answered if and only if it has a fingerprint row and is on disk below no removed folder, or the run of another file stored the blob for its content |
| `Backfill.SureToBeAnsweredIff` | crates/vidcull-daemon/src/lib.rs:341-351 | a file is answered in every such run if and only if it has a row and is on disk below no removed folder |
| `Backfill.AskedForEver` | crates/vidcull-daemon/src/indexing.rs:1327-1344 | a concrete file without a row that is asked for again after any number of successful cycles |
| `Backfill.DroppedForEver` | crates/vidcull-daemon/src/lib.rs:341-351 | a concrete file below a removed folder whose task is dropped in any number of cycles |
| `Backfill.NothingLeftToAsk` | crates/vidcull-daemon/src/watcher.rs:421-455 | after those cycles the next backfill queues nothing if and only if every wanted file met that condition |
| `Backfill.AnsweredWell` | crates/vidcull-daemon/src/indexing.rs:1137-1151 | what ends the asking is a stored blob or a marker valid for the file as it is |
| `Throttle.ThrottleControl.RegisterDecode` | crates/vidcull-daemon/src/throttle.rs:95-118 | a fresh token, fired at once if and only if the path is under a removed root |
| `Throttle.ThrottleControl.DeregisterDecode` | crates/vidcull-daemon/src/throttle.rs:120-126 | the list without the caller's entry |
| `Throttle.WithoutIsOneEntry` | crates/vidcull-daemon/src/throttle.rs:120-126 | that is exactly one entry, and the order of the others is kept |
| `Throttle.ThrottleControl.MarkRootsRemoved` | crates/vidcull-daemon/src/throttle.rs:128-152 | fires exactly the tokens of running decodes under the new roots |
| `Throttle.ThrottleControl.IsPathRemoved` | crates/vidcull-daemon/src/throttle.rs:154-162 | true if and only if some removed root contains the path |
| `Throttle.ThrottleControl.ClearRemovedRootOverlap` | crates/vidcull-daemon/src/throttle.rs:173-182 | keeps exactly the roots that do not overlap the added folder, and no path in it is reported removed |
| `Throttle.ReaddedIsNotRemoved` | crates/vidcull-daemon/src/throttle.rs:173-182 | the same for every list of removed roots and every path under the added folder |
| `Throttle.StaysRemoved` | crates/vidcull-daemon/src/throttle.rs:173-182 | what lies under a root that does not overlap stays removed |
| `Paths.UnderRootIsSegmentPrefix` | crates/vidcull-daemon/src/bridge.rs:1571-1577 | containment holds if and only if the root's segments, trailing slashes dropped, are a prefix of the path's |
| `Paths.SharedDescendantOverlaps` | crates/vidcull-daemon/src/throttle.rs:173-182 | two folders that contain a common path contain one another |
| `Paths.ListedIsUnderOrRespelled` | crates/vidcull-db/src/repo/files.rs:469-483 | the listing by root finds what is under the root, and besides exactly what lies under its respellings in ASCII case |
| `Cancellation.NoLostCancellation` | crates/vidcull-daemon/src/throttle.rs:95-152 | in every interleaving, for every thread that has registered its decode: under a removed root its token has fired, or a marker of that root is between its critical sections or has yet to reach its entry |
| `Cancellation.AllCancelledWhenQuiet` | crates/vidcull-daemon/src/throttle.rs:128-152 | with no marker under way every thread that decodes under a removed root is cancelled |
| `Cancellation.FiredForACause` | crates/vidcull-daemon/src/throttle.rs:95-152 | fired tokens belong to decodes under a root that was marked |
| `Cancellation.DropRemovesOwnEntry` | crates/vidcull-daemon/src/throttle.rs:207-211 | dropping a registration removes exactly one entry, the thread's own, in every interleaving |
| `Cancellation.NoDeadlock` | crates/vidcull-daemon/src/throttle.rs:95-182 | while any call is under way some thread can take a step |
| `ScanMailbox.NoLostWake` | crates/vidcull-daemon/src/scan_exec.rs:59-133 | a pending job always has a token, a sender or a woken worker; a running job that is out of date has a newer one pending or being stored |
| `ScanMailbox.NewestRequestRan` | crates/vidcull-daemon/src/scan_exec.rs:59-133 | in every quiet state the last job run is the newest one and was not stopped as superseded |
| `ScanMailbox.InternalStepsRunOut` | crates/vidcull-daemon/src/scan_exec.rs:59-100 | every step of submitters and worker lowers a measure |
| `ScanMailbox.SomebodyCanMove` | crates/vidcull-daemon/src/scan_exec.rs:59-133 | in every state that is not quiet somebody has a step to take |
| `ScanMailbox.EveryNewestRequestIsServed` | crates/vidcull-daemon/src/scan_exec.rs:59-133 | however the threads are scheduled, within a bound known beforehand the newest request has been run |
| `ScanMailbox.ScanExecutor.Submit` | crates/vidcull-daemon/src/scan_exec.rs:111-133 | the newest request replaces the pending one under the next generation, as the five steps of the machine do; an empty one is ignored |
| `ScanMailbox.ScanExecutor.TakeJob` | crates/vidcull-daemon/src/scan_exec.rs:59-66 | one wake-up takes the pending job, or ends the worker on shutdown, as the steps of the machine do |
| `SingleFlight.GuardsBounded` | crates/vidcull-daemon/src/indexing.rs:118-153 | guards of a hash are at most its entry plus the waits abandoned on it; with none abandoned there is at most one, and the entry is there exactly while it lives |
| `SingleFlight.OneGuardUnlessAbandoned` | crates/vidcull-daemon/src/indexing.rs:118-153 | in every state of a run at most one guard per hash, if and only if nobody gave up waiting for it |
| `SingleFlight.AbandonedWaitDoubles` | crates/vidcull-daemon/src/indexing.rs:123-126 | a guard and one waiter that gives up: the run that breaks it |
| `SingleFlight.NoEntryOutlivesItsGuards` | crates/vidcull-daemon/src/indexing.rs:144-153 | once the guards are gone nothing blocks the waiters |
| `SingleFlight.AbandonedWaitLingers` | crates/vidcull-daemon/src/indexing.rs:123-126 | after an abandoned wait a leaving guard lets two in |
| `DecodeGates.GateCountsGuards` | crates/vidcull-daemon/src/indexing.rs:170-211 | in every interleaving the counter is the number of guards, dropping never wraps, and it stays within the largest capacity ever set |
| `DecodeGates.FixedCapacity` | crates/vidcull-daemon/src/indexing.rs:229-266 | with the capacity left alone the guards never exceed it |
| `TokenBucket.RateLimiter.AcquireTokens` | crates/vidcull-daemon/src/throttle.rs:283-293 | the saturating, truncating arithmetic equals its function |
| `TokenBucket.BurstPlusRate` | crates/vidcull-daemon/src/throttle.rs:275-293 | over every run with a clock that never goes back, grants stay within capacity + rate * time |
| `TokenBucket.ChargedBounded` | crates/vidcull-daemon/src/throttle.rs:275-293 | the same from any fill level |
| `TokenBucket.RetryAfterWait` | crates/vidcull-daemon/src/throttle.rs:288-292 | coming back exactly after the wait succeeds if and only if the clock can measure it, or for costs above the capacity fills the bucket; within the capacity the wait alone decides |
| `TokenBucket.RetryTooEarly` | crates/vidcull-daemon/src/throttle.rs:288-292 | one earlier retry still waits, for costs within the capacity |
| `TokenBucket.WaitBeyondTheClock` | crates/vidcull-daemon/src/throttle.rs:276-276 | a wait the signed clock cannot measure need not be enough |
| `TokenBucket.NeverGranted` | crates/vidcull-daemon/src/throttle.rs:275-293 | polls of one cost are never granted if and only if the separately rounded refills of the run do not reach it |
| `TokenBucket.FastPollingStarves` | crates/vidcull-daemon/src/throttle.rs:275-281 | polling faster than one token per refill is never granted |
| `TokenBucket.HalfSecondPollingStarves` | crates/vidcull-daemon/src/throttle.rs:275-281 | one token a second polled twice a second, for 95 years |
| `Migrations.ValidateSequence` | crates/vidcull-db/src/migrations.rs:149-163 | accepts exactly the dense sequences below 2^32 - 1; reports an overflow exactly for longer ones that start with 1 to 2^32 - 1, and names the first break otherwise |
| `Migrations.FullRange` | crates/vidcull-db/src/migrations.rs:158-160 | versions 1 to 2^32 - 1 are refused though each fits |
| `Migrations.LatestVersion` | crates/vidcull-db/src/migrations.rs:103-113 | the greatest version of any list, the length of a dense one |
| `Migrations.MigratedHolds` | crates/vidcull-db/src/migrations.rs:165-180 | after v transactions the schema holds exactly the first v scripts, in order, and records exactly 1 to v |
| `Migrations.Connection.CurrentVersion` | crates/vidcull-db/src/migrations.rs:119-125 | the greatest recorded version of any table, 0 of an empty one |
| `Migrations.Connection.ApplyOne` | crates/vidcull-db/src/migrations.rs:165-180 | script and version row together, or nothing |
| `Migrations.Connection.RunPendingMigrations` | crates/vidcull-db/src/migrations.rs:115-136 | from a dense prefix 1..v a run ends at the first transaction that does not go through, records a dense prefix, and says how many it applied |
| `Migrations.ResumedEqualsOneRun` | crates/vidcull-db/src/migrations.rs:115-136 | failures, crashes and older builds in any order, then one complete start: the schema of a single full run |
| `Migrations.StartsOnlyAdd` | crates/vidcull-db/src/migrations.rs:115-136 | starts compose and never go back |
| `Keymap.ParseSaltHex` | crates/vidcull-daemon/src/redact.rs:134-144 | the loop over byte pairs equals its function, failures included |
| `Keymap.LoadKeymap` | crates/vidcull-daemon/src/redact.rs:108-132 | the line loop equals its function |
| `Keymap.Redactor.OpenOrCreate` | crates/vidcull-daemon/src/redact.rs:67-87 | a readable file is kept and gives salt and hashes, otherwise a new head with the fresh salt; whether there is a file to append to, also when creating it fails or breaks off |
| `Keymap.Redactor.Redact` | crates/vidcull-daemon/src/redact.rs:90-105 | the token in every case; one more line if and only if the hash is new and the file is writable, and no further attempt after a failed one |
| `Keymap.HexRoundTrip` | crates/vidcull-daemon/src/redact.rs:31-37 | sixteen printed digits are read as the hash |
| `Keymap.SaltTextRoundTrip` | crates/vidcull-daemon/src/redact.rs:134-171 | the printed salt is read as the salt |
| `Keymap.LinesAppend` | crates/vidcull-daemon/src/redact.rs:114-118 | appending a terminated line appends exactly one line to what is read |
| `Keymap.EntryIsRead` | crates/vidcull-daemon/src/redact.rs:90-129 | a written entry is read as its hash and nothing else, whatever tabs, dots or final carriage return the path has |
| `Keymap.HeadIsRead` | crates/vidcull-daemon/src/redact.rs:146-171 | the head of a new file is read as its salt and no hash |
| `Keymap.KeymapRoundTrip` | crates/vidcull-daemon/src/redact.rs:67-132 | after any redactions of newline-free paths over any number of reopenings, loading gives the first salt and exactly the hashes redacted |
| `Keymap.OneLinePerHash` | crates/vidcull-daemon/src/redact.rs:90-105 | below the head the file has exactly one line per hash |
| `Keymap.TokensSurviveReopening` | crates/vidcull-daemon/src/redact.rs:67-77 | reopening changes neither file nor salt nor any token |

## Left out

- Best copies, time stamps other than those of the queue, the groups revision, reclaimed bytes and the wording of replies: they do not decide what is kept.
- The matcher passes (exact groups, best copies, clusters): which groups they write is not modelled. They clear whole trust classes of groups and write new ones; `GroupSize` has that as an event that replaces the groups by any of two or more members, but the undo stack is proved for deletes and undos with no such pass between them.
- Decoding, hashing and fingerprint contents: a decode is an outcome, the keyed hash any function.
- Database errors other than a rolled-back transaction; in particular a worker that leaves on an error with its task still RUNNING.
- Weak memory orderings, lock poisoning and real time: steps are sequentially consistent and a timed wait may return at any moment.
- The worker, mailbox, single-flight, gate and cancellation interleavings are state machines on values. Workers and cancellation share the functions that say what a step does with the classes in `TaskQueue` and `Throttle`, and the mailbox's class is proved to take the steps of its machine; single flight and the decode gates have no class beside the machine.
- Errors of the file system other than "not there" when reconciliation and undo ask for existence, and symbolic links; the disk does not change during one reconciliation pass.
- Cancellation.NoLostCancellation: it is stated for the roots removed at that moment; nothing is said of a root that has been cleared again in the meantime.
- IndexDatabase.IndexDb.UndoLastDelete: undo is one step; the code reads the batch and the disk first and writes in a later transaction, and nothing is modelled to run between the two.
- Workers.NoTaskLostOrHeldTwice: assumes statements do not fail, because a failed settling statement leaves its task RUNNING until the next start.
- TaskQueue.Daemon.PausedPass: its Remove handlers and other connections do not touch the queue during one pass; `Workers` lets them do so between any two tasks.
- Workers.BurstBound: bounds processed plus failed as the counters do; dropped and busy tasks are not counted.
- ScanMailbox.EveryNewestRequestIsServed: only the newest request is promised to be run; a superseded one may be replaced before it starts or stopped half way.
- InFlightIndexing.NothingLeftUnderTheRoots: tasks queued after the removal and undos of deletes are ruled out by the run, as are files that have other listed paths below them.
- Watcher.EnqueueChanges: each batch reads the active tasks at its start; the variant that keeps that list over several transactions is not modelled.
- Backfill.LoopConverges: counts only runs that end; a file that is always busy or always cancelled waits without limit. Files, their content and exact groups do not change meanwhile; folders taken out or added during the cycles are covered by `Backfill.CyclesTakeOneEach` alone.
- Keymap.KeymapRoundTrip: no write fails, text is a sequence of characters, and trimming knows ASCII white space only; paths with a newline are outside the statement.
- Attempts, row ids and the sums of the limiter's callers are unbounded; the limiter's own 64- and 128-bit saturation, the 32-bit version counter and the wrapping claim counter are modelled.
- IPC, settings, log ring, thumbnails, storage class, tray, front end and build scripts.
