# Verified model of the wiki's concurrent core

This project models, in Dafny, the parts of the wiki server under `app/` that must stay right while several
parties act at once, and proves what they promise.

Each concurrent part has the same shape. A **state** is a value; every committed transaction (or file-system
call) is one **step**, a function on states; a **run** is any sequence of steps by any parties. Safety is proved
over all runs. The objects that the program updates in place are classes; their methods are written statement by
statement, may be interrupted by arbitrary steps of others where the program can be, and are proved to perform
exactly the steps of the model.

- `VaultDisk`, `VaultWriter`: four names and the inodes behind them. Before every file-system call a script lets
  an editor act on the target and may kill the executor. The history of a run only grows; its type says that the
  executor's calls were guarded and that the editor did what the script says and nothing else. Guarded calls lose
  no bytes, and the methods say so of what they add to the history. Without an editor, kills and reruns converge, and
  only a kill in the middle of the write stands between an intent and its application.
- `Outbox`, `RagProjection`: job rows claimed under leases, chunk rows written in one transaction and published
  in another, with clean-ups, deletes and page edits in between.
- `DelayedDeletes`: pending deletes raced for by expiry and by moves under claims that go stale.
- `PageLocks`: the reference-counted table of page locks.
- `Attribution`, `Effects`, `Deletions`, `Results`, `Batches`, `Requeue`, `ReconcileRequest`, `Segments`,
  `BatchRepository`: making GBrain batches from claimed jobs and attributing their results to mappings, protections
  and jobs. `Attribution`, `Batches`, `ReconcileRequest` and `Segments` have the transactions and what holds over
  every run, `Effects` what each transaction leaves behind, `Deletions` and `Results` which way a deletion or a page
  result goes, decided by the tables before it, `Requeue` when a superseded page is asked for again, and
  `BatchRepository` the methods.
- `QueryCache`: the query cache keyed by the generation of the mapping table.
- `Chunker`: cutting paragraphs into overlapping chunks.
- `Citations`: mapping search hits to citations, and checking citations again.
- `Options`, `Lists`, `Text`: shared helpers.

Times are integers, identifiers are strings, hashes are an uninterpreted function, and a remote result is an
arbitrary value. A page edit is any step that strictly raises the page's epoch when its current revision or
lifecycle changes, as the updates in `app/wiki_revisions.py` do (lines 1515, 1781, 2805, 4544 and 7736).

## Where the code falls short of what one might expect

- A lapsed delete claim is fenced everywhere but in the cancel inside a page move
  (`app/wiki_revisions.py:1287-1320`), which does not look at the claim's age: `LapsedOwnerCanCancelByMove` is a
  run that shows it, and `LapsedOwnerEndsOnlyByMove` says exactly when it happens.
- Superseding a page's jobs asks for the page as it is under the key of that state
  (`app/gbrain_projection.py:1933-1944`), and enqueueing does nothing when a row has the key. If that row is one of
  those just superseded, nothing is left to project the page: when the file changed under the import and the page
  did not move (`ChangedFileMayBeForgotten`), and when the page's revision has an empty semantic hash
  (`EmptyHashIsForgotten`). `SupersedeRequeues` and its corollaries give the exact condition for every branch.
- A served cache entry agrees with the mapping table at the time the query computed its key, but a transaction
  may come between that and the look-up: `ServedTableMayHaveMoved` is such a run. An unchanged generation means an
  unchanged table, but not the other way round: `GenerationMayMoveAlone`.
- Mapping accepts a page whose path (or whose mapping's page or revision id) is empty, while the second check
  drops its citations (`app/search.py:662`): `EmptyPathDoesNotPass` is an input, `MappingAgreesWithCheck` the
  exact condition.
- A batch expects a page whose revision has an empty semantic hash, but attribution does not accept it
  (`app/gbrain_projection.py:1883-1931`): `FreshBatchIsAttributed` has this as part of its exact condition.
- The largest window of the chunker has `2 * max_chars + overlap_chars - 1` characters, one less than
  `2 * max_chars + overlap_chars`, and reaches that size: `WindowSize`, `WindowSizeIsReached`.
- A mapping whose epoch is 0, and a visible epoch of 0, are never current for the mapper
  (`app/citations.py:258`, `app/citations.py:273`); the model keeps this.

## Model

| member | source | states |
|---|---|---|
| VaultDisk.GuardedStepLosesNothing | app/vault_writer.py:251-361 | a guarded executor call takes the last name from no inode, overwrites no name and no bytes, except filling the empty staged file it has just made |
| VaultDisk.MovedStaysReachable | app/vault_writer.py:304-338 | each inode the executor moved off the target is still named by backup or claim at the end of every guarded run, whatever the editor does |
| VaultDisk.NoBytesLost | app/vault_writer.py:251-361 | in every guarded run no executor call loses anything, and every inode moved off the target is named by backup or claim |
| VaultWriter.World.SameFile | app/vault_writer.py:244-249 | private names are compared exactly; no name or byte of the executor's changes meanwhile |
| VaultWriter.World.RenameAside | app/vault_writer.py:310-316 | with a free claim name the rename takes the target away into it, keeps the backup, and fails only when the target has gone or the executor is killed |
| VaultWriter.AtomicVaultWriter.Capture | app/vault_writer.py:251-338 | whatever the editor does, of the events it adds those of the editor are the edits of the script's turns it played, none of its own calls loses a name or a byte, and every inode moved off the target is named by backup or claim; a capture that returns has seen a file of the hash it reports under the backup, the expected one if one was expected, or no file at the target; with no editor, from any point an earlier capture may have reached, it can only be killed or end with target and claim absent and backup naming the original inode, or none for a new page |
| VaultWriter.AtomicVaultWriter.RestoreStrayClaim | app/vault_writer.py:270-284 | a stray claim always ends the capture with a report; backup, claim and staged keep their inodes |
| VaultWriter.AtomicVaultWriter.CheckBackup | app/vault_writer.py:285-297 | with no editor an existing backup ends the capture only with the target away and no duplicate claim left, and otherwise nothing has changed |
| VaultWriter.AtomicVaultWriter.CaptureWithReruns | app/vault_writer.py:251-338 | with no editor, any sequence of kills and reruns of the capture ends, captured |
| VaultWriter.AtomicVaultWriter.Install | app/vault_writer.py:340-361 | the same for an editor at work, and a finished install has seen a file with the content's hash at the target; with no editor a finished install leaves the content at the target, any failure but a kill means that the staged file is torn, and a staged file that was whole or absent is torn only by a turn of the script that kills in the write and leaves just that much |
| VaultWriter.IntentExecutor.CapturePhase | app/vault_writer.py:714-743 | the intent becomes captured exactly when the capture returns, having seen the expected file under the backup (or none at the target); without an editor only a kill stops it |
| VaultWriter.IntentExecutor.InstallPhase | app/vault_writer.py:745-764 | the intent becomes installed exactly when the phase returns, having seen a file with the content's hash at the target; without an editor only a kill or a torn staged file stops it, and only a kill in the write tears it |
| VaultWriter.IntentExecutor.FinishPhase | app/vault_writer.py:766-781 | the intent becomes applied exactly when the phase returns, and then a file with the content's hash was at the target on the way; without an editor only a kill stops it |
| VaultWriter.IntentExecutor.ReconcileRecovery | app/vault_writer.py:533-695 | it ends applied, failed, handed over or still in recovery, or lets the capture run again; applied only after a file with the content's hash was at the target; with no editor the files under the four names decide which, and after finishing the target has such a file, backup and claim being as before |
| VaultWriter.RecoveryGoesByFiles | app/vault_writer.py:533-695 | how recovery goes on, by the hashes under the four names: unknown files are handed over, a target or lone backup with the content is finished, with neither file it gives up, and else the capture is tried again |
| VaultWriter.IntentExecutor.CaptureAndInstall | app/vault_writer.py:697-792 | from any status and with any editor a run loses nothing, as for the capture, and is stopped only by a kill, any failure becoming a recovery; it makes the intent applied only after a file with the content's hash was at the target; without an editor it keeps the quiet invariant, and only a kill in the write tears the staged file |
| VaultWriter.IntentExecutor.ExecuteWithReruns | app/vault_writer.py:697-810 | without an editor, from any status and for an existing or a new page, kills and reruns end with the content at the target, or with a recovery or handover for a torn staged file; if the staged file was not torn before, then the intent is applied unless a turn of the script killed the executor in the write and left what is there; the backup names the original with its bytes unchanged |
| VaultWriter.IntentExecutor.Execute | app/vault_writer.py:697-810 | any number of runs under any script lose nothing |
| VaultWriter.EveryRunIsSafe | app/vault_writer.py:251-361 | whatever continues a history of the executor keeps the files: the editor's events are the edits of the turns played, no executor call in between loses anything, and what was moved off the target is named |
| Outbox.ProjectionOutbox.Enqueue | app/projection_jobs.py:70-112 | one row per idempotency key: inserts a pending row of what is asked, or returns the row that has the key and changes nothing |
| Outbox.ProjectionOutbox.SelectClaimable | app/projection_jobs.py:165-179 | the candidates are the first claimable rows by availability and creation, up to the limit |
| Outbox.ProjectionOutbox.Claim | app/projection_jobs.py:138-211 | claims the selection, of rows that may be claimed up to the limit, those that waited longest first; each row claimed is held by the worker with one more attempt until `now` plus the seconds asked for, at least one; rows exhausted under an expired lease fail, and every other row stays |
| Outbox.ProjectionOutbox.RenewLease | app/projection_jobs.py:213-247 | extends the lease if and only if the worker owns the running row, to `now` plus the seconds asked for, at least one; nothing else changes |
| Outbox.ProjectionOutbox.FinishClaimed | app/projection_jobs.py:249-270 | ends the row as asked and unleased if and only if the worker owns it; nothing else changes |
| Outbox.ProjectionOutbox.FailClaimed | app/projection_jobs.py:281-315 | a failure is scheduled again by the number of attempts, or not at all; nothing else changes |
| Outbox.ProjectionOutbox.SupersedeOlder | app/projection_jobs.py:317-326 | supersedes the unfinished rows of the page with a smaller epoch, and no others |
| Outbox.ProjectionOutbox.RetryJob | app/projection_worker.py:118-138 | a manual retry makes a failed row pending without attempts, and is refused for any other; nothing else changes |
| Outbox.RunKeepsInv | app/projection_jobs.py:82-211 | in every reachable table: one job per key, at most five attempts, running exactly when owner and lease are set |
| Outbox.EndedIsAbsorbing | app/projection_jobs.py:155-201 | a succeeded or superseded row never changes again |
| Outbox.ClaimsAreBounded | app/projection_jobs.py:138-211 | a job is claimed at most five times for each of its successful manual retries and once more |
| Outbox.OwnerChangesOnlyAfterExpiry | app/projection_jobs.py:155-201 | a running job passes to another worker only by a claim made after its lease expired |
| Outbox.OneFinishPerClaim | app/projection_jobs.py:249-270 | between two claims a job leaves running at most once |
| Outbox.FinishIsFenced | app/projection_jobs.py:249-270 | only the worker whose claim was the last to take effect can finish the job |
| Outbox.LeaseHolds | app/projection_jobs.py:155-201 | up to the instant at which a lease expires no claim of anybody takes effect on the row, nor any step but its owner's and a newer epoch's |
| Outbox.RenewedLeaseHolds | app/projection_jobs.py:213-247 | a renewed lease holds for the seconds asked for, at least one, against whatever others do; right after it anyone may claim the row if an attempt is left |
| Outbox.ClaimedLeaseHolds | app/projection_jobs.py:138-211 | the same for the lease of a row just claimed |
| Outbox.KeysTellEpochs | app/projection_jobs.py:82 | equal idempotency keys mean equal epochs, whatever the jobs are about |
| Outbox.KeysTellJobs | app/projection_jobs.py:82 | if no name has a colon, keys are equal if and only if target, operation, page, revision and epoch are, a missing, an empty and a dash id being the same |
| RagProjection.VisibleRowsAreAllOrNothing | app/wiki_rag_projection.py:389-405 | in every run the visible rows of a page are none, or exactly the chunks of its current revision at its current epoch |
| RagProjection.CleanupIsInvisible | app/wiki_rag_projection.py:174-232 | in every state whatsoever a clean-up leaves the visible rows as they are |
| RagProjection.CleanupRemoves | app/wiki_rag_projection.py:174-232 | a clean-up removes exactly the rows of the epoch, unless a job of the epoch is running, or the page is active at the epoch and its current revision is visible or was projected there |
| RagProjection.DeadEpochGoes | app/wiki_rag_projection.py:174-232 | a clean-up leaves no row of an epoch that the page has left and no running job has |
| RagProjection.OwnerFindsItsRows | app/wiki_rag_projection.py:71-132 | a worker that still owns its job at the publish transaction finds every row it wrote, or supersedes the job and changes nothing visible |
| RagProjection.SuccessMeansVisible | app/wiki_rag_projection.py:104-126 | a succeeded upsert at the page's present revision and epoch means that this pair is the visible one |
| RagProjection.VisibleEpochNeverFalls | app/wiki_rag_projection.py:104-126 | the visible epoch never exceeds the page's and never falls; it is unset only by the delete path or by an edit that raises the epoch |
| RagProjection.RunKeepsInv | app/wiki_rag_projection.py:60-232 | the invariant behind these results holds in every reachable database |
| RagProjection.WikiRagProjector.LoadSnapshot | app/wiki_rag_projection.py:234-270 | the snapshot matches if and only if the page is active with the job's revision and epoch, and the revision is the page's own; said of the page and revision rows |
| RagProjection.WikiRagProjector.WritePhysicalRows | app/wiki_rag_projection.py:309-351 | adds all chunk rows of the revision at the job's epoch in one transaction |
| RagProjection.WikiRagProjector.RemoveEpochRows | app/wiki_rag_projection.py:174-232 | removes the rows of the epoch, and no others, if and only if no visible, succeeded or running owner has it; readers see no change |
| RagProjection.WikiRagProjector.PublishRows | app/wiki_rag_projection.py:71-132 | publishes, supersedes or notices the lost lease, by ownership and by the page as it is |
| RagProjection.WikiRagProjector.GiveUp | app/wiki_rag_projection.py:353-374 | a job whose snapshot did not match is superseded, unless its lease is lost |
| RagProjection.WikiRagProjector.ProjectRagDelete | app/projection_worker.py:329-384 | a delete is carried out if and only if its page is gone at the job's epoch and the worker holds the job: then it clears the visible pair and all rows of that page and of no other; else the job is superseded, or without the job nothing of pages, rows or jobs changes |
| RagProjection.WikiRagProjector.Project | app/wiki_rag_projection.py:60-139 | a whole projection is the run in which its transactions alternate with the given ones of the others, and nothing else; a job that is wanted by the rows when the snapshot is loaded and at the publish transaction, and that the worker then holds, is published, and no other; its outcome means what it says; unpublished, it leaves no row of its epoch once the epoch is dead |
| DelayedDeletes.EndedStays | app/vault_events.py:504-589 | a cancelled or completed row never changes again |
| DelayedDeletes.EndsOnce | app/vault_events.py:504-589 | along any run at most one step ends a row |
| DelayedDeletes.EndingShows | app/vault_events.py:504-589 | a row that ends is completed and unclaimed, or cancelled by the given occurrence, at the step's time; all else of it stays |
| DelayedDeletes.CancelNeedsNoFreshClaim | app/vault_events.py:504-529 | a cancel without a claim ends a pending row if and only if no claim of it is younger than the lease |
| DelayedDeletes.FreshClaimExcludes | app/vault_events.py:436-589 | a step under a fresh claim changes the row only if it is the owner's, and is not a claim |
| DelayedDeletes.FreshClaimHolds | app/vault_events.py:436-589 | while the claim is fresh no run of others' steps changes the row |
| DelayedDeletes.ClaimHoldsForTheLease | app/vault_events.py:436-483 | a claim just taken or renewed keeps everyone else from the row while it is younger than the lease, and its owner may complete the row so long; from then on anyone may claim it if it is due |
| DelayedDeletes.LapsedOwnerIsFenced | app/vault_events.py:463-589 | renewal, cancel and completion under a claim take effect if and only if the claim is fresh |
| DelayedDeletes.LapsedOwnerStaysFenced | app/vault_events.py:463-589 | along any run, an owner whose claim has lapsed and who does not claim again takes no effect on the row but to give it back, the cancel of a move excepted |
| DelayedDeletes.LapsedOwnerEndsOnlyByMove | app/wiki_revisions.py:1287-1320 | a lapsed owner ends the row if and only if by the cancel of a move for the row's own page and path |
| DelayedDeletes.LapsedOwnerCanCancelByMove | app/wiki_revisions.py:1287-1320 | a run in which the owner of a lapsed claim cancels |
| DelayedDeletes.HeldMeansExpired | app/vault_events.py:436-461 | an owner that claims only with due time d holds only rows that had expired by d |
| DelayedDeletes.CompletionFollowsExpiry | app/vault_events.py:557-589 | and so completes only rows that had expired by d |
| DelayedDeletes.RunKeepsUniqueness | app/db.py:231-247 | one row per occurrence and one pending row per page and path, in every run |
| DelayedDeletes.VaultEventStore.GetOrCreatePendingDelete | app/vault_events.py:337-384 | a new pending row of what is asked, or the row that stands for the occurrence or the absence, and then nothing changes |
| DelayedDeletes.VaultEventStore.ClaimDelete | app/vault_events.py:436-461 | the compare-and-set of a claim |
| DelayedDeletes.VaultEventStore.CompleteDelete | app/vault_events.py:557-589 | the compare-and-set of a completion |
| DelayedDeletes.VaultEventStore.ReleaseClaim | app/vault_events.py:485-502 | the compare-and-set of a release, and whether it took effect |
| DelayedDeletes.VaultEventStore.ListDueDeletes | app/vault_events.py:386-396 | exactly the due pending rows, by expiry, detection and id |
| DelayedDeletes.CallStepIsOwnOrGiven | app/vault_sync.py:711-787 | each step of a call is a given step of the others, or a claim, completion or release of a candidate under its own name, the claim with the call's instant as due time |
| DelayedDeletes.ExpiredMeansExpired | app/vault_sync.py:711-787 | whatever others do, every row that a call completes was pending, had expired by its instant, and is completed at the end |
| DelayedDeletes.CompletedByCallOrOthers | app/vault_sync.py:711-787 | a row pending before a call and completed after it was completed under a name of the call or by a given step |
| DelayedDeletes.SmoothRowsAreCompleted | app/vault_sync.py:711-787 | a due row that nothing blocks and nobody else touches ends completed if and only if it may be claimed at its turn, and otherwise stays as it is |
| DelayedDeletes.NoClaimIsLeft | app/vault_sync.py:781-787 | a call leaves no row held under one of its names, whatever others do |
| DelayedDeletes.VaultEventStore.ExpireOne | app/vault_sync.py:716-787 | one candidate: the run is the others' steps at their four points with this call's claim, completion and release in between, and it is reported completed if and only if that completion takes effect; then it was pending and had expired by the instant used |
| DelayedDeletes.VaultEventStore.ExpireDeletes | app/vault_sync.py:705-787 | the run is the turns of the due rows in order; the rows counted are exactly those completed in it under the call's own names, each pending before, expired by the instant used, and completed for good; any other row completed meanwhile was completed by a given step of the others; a due row with an unblocked turn that the others leave alone is counted if and only if it may be claimed; no claim is left behind |
| PageLocks.TableIsExact | app/vault_sync.py:514-550 | in every interleaving with cancellation anywhere: a key has an entry exactly while a coroutine is registered on it, the count is the number registered, all share one entry, at most one holds its lock, and nothing leaks |
| PageLocks.CanLeave | app/vault_sync.py:514-550 | from every reachable table a registered coroutine can leave by itself and changes no other's registration; a waiter gets the lock if it is free, and if not another registered coroutine holds it |
| PageLocks.PageLockTable.Register | app/vault_sync.py:525-531 | joins the entry of the key or makes one, under the guard |
| PageLocks.PageLockTable.AcquireLock | app/vault_sync.py:533-536 | a waiter gets the free lock |
| PageLocks.PageLockTable.GiveUp | app/vault_sync.py:533-541 | a cancelled waiter leaves without releasing |
| PageLocks.PageLockTable.ReleaseLock | app/vault_sync.py:538-540 | the holder frees the lock |
| PageLocks.PageLockTable.DropPageLockUser | app/vault_sync.py:514-522 | the key keeps an entry if and only if another coroutine is registered on it |
| Attribution.MappingsStayUnique | app/gbrain_projection.py:1416-1472 | in every run one row per source and slug, one current row per source and page, and no row is lost or changes its document |
| Attribution.LiveDocumentKeepsPage | app/gbrain_projection.py:1376-1395 | a document that is not deleted never moves to another page |
| Attribution.DeletedOnlyWhileGone | app/gbrain_projection.py:1606-1634 | a row becomes deleted only in a transaction that finds its page deleted or invalid |
| Attribution.GenerationCountsChanges | app/gbrain_projection.py:2231-2242 | the generation never falls, and while it stays the mapping table stays |
| Attribution.StepKeepsMappings | app/gbrain_projection.py:1334-1739 | each transaction keeps the table unique and changes it only together with a generation one higher |
| Effects.FinishAllRow | app/gbrain_projection.py:1474-1481 | ending jobs ends exactly those, and only the worker's own |
| Effects.FinishAllOnce | app/gbrain_projection.py:1474-1481 | and each once: a second time the job is no longer the worker's and the transaction fails |
| Effects.AttributionSettlesJobs | app/gbrain_projection.py:1334-1497 | an imported or skipped result ends all member jobs of its page in one way and touches no other job: superseded when the page has moved, failed when it is refused, succeeded when it is written |
| Effects.PageFailureSettles | app/gbrain_projection.py:1499-1544 | any other result supersedes the page's member jobs when the page has moved or the file has changed, fails them otherwise, and touches no other job |
| Effects.SucceededMeansMapped | app/gbrain_projection.py:1334-1497 | a page job succeeds only together with a current mapping of the page's current revision, epoch and path |
| Effects.WriteMappingShows | app/gbrain_projection.py:1416-1496 | a written result leaves exactly one current row for its page, made of the result and the page; the page's other current rows become stale, the rows of other pages stay, the generation is one higher, and exactly the page's protections of that document are released |
| Effects.SupersedeSettles | app/gbrain_projection.py:1864-1880 | superseding ends the given jobs as superseded and changes nothing but the job table |
| Effects.FailPageSettles | app/gbrain_projection.py:1546-1571 | a refused result fails the page's jobs, leaves an active protection of its document for the page, and changes nothing else |
| Effects.MarkDeletedMarks | app/gbrain_projection.py:1628-1652 | a deletion that is carried out marks one unchanged mapping deleted, its job succeeds, and the protections of the document for the job's page are released; no other mapping, job or protection changes |
| Effects.MarkAmbiguousProtects | app/gbrain_projection.py:1655-1686 | an ambiguous deletion makes exactly the candidate mappings stale, fails its jobs and leaves an active protection of the document |
| Effects.SetStatusSets | app/gbrain_projection.py:1689-1739 | setting the status of different rows goes through if and only if all are as in the snapshot, and changes only their status and invalidation time |
| Effects.PersistProtects | app/gbrain_projection.py:1201-1246 | persisting keeps the old rows in place, leaves an active row for each given protection and the page, and adds only given ones that were not there |
| Effects.PageFailureProtects | app/gbrain_projection.py:1509-1544 | a failed result leaves the protections it reports active for the page, or one of its own document if it reports none, releases none, and changes nothing but jobs and protections |
| Effects.PageSuccessProtects | app/gbrain_projection.py:1334-1497 | an imported result leaves the protections it reports active for the page, except those of the document that is then mapped |
| Effects.SegmentProtects | app/gbrain_projection.py:866-886 | protections of a segment are persisted without a page if and only if the worker runs the segment and holds the jobs |
| Requeue.UnfinishedIsClaimable | app/projection_jobs.py:165-200 | a job counts as unfinished if and only if it runs or some moment lets it be claimed |
| Requeue.EnqueuesThePage | app/gbrain_projection.py:1933-1944 | enqueueing a page adds one pending job to project it as it is if it is active with a revision and no row has the key, and nothing otherwise |
| Requeue.SupersedeRequeues | app/gbrain_projection.py:1864-1944 | superseding jobs leaves an unfinished job for the page as it is if and only if no row had its key, or an unfinished row had it that is not among those superseded |
| Requeue.MovedPageIsRequeued | app/gbrain_projection.py:1360-1363 | the same for an imported result whose page has moved |
| Requeue.StaleResultIsRequeued | app/gbrain_projection.py:1527-1543 | the same for another result, of a page that has moved or a file that has changed |
| Requeue.DeletionOfLivePageIsRequeued | app/gbrain_projection.py:1606-1627 | the same for a deletion whose page is live |
| Requeue.UnfitJobIsRequeued | app/gbrain_projection.py:345-364 | the same for a claimed job that does not fit its page when a batch is made |
| Requeue.ChangedFileMayBeForgotten | app/gbrain_projection.py:1527-1543 | an input for which nothing is left: the page has not moved and its only job is superseded |
| Requeue.EmptyHashIsForgotten | app/gbrain_projection.py:1883-1944 | a page with an empty semantic hash: its batch expects it, each identified result supersedes its job and maps nothing, and nothing is left |
| Effects.ProtectionsAreGuarded | app/gbrain_projection.py:1482-1647 | a protection is released only when its page is gone, or when a current mapping shows its page as it is |
| Deletions.OwnedDeletion | app/gbrain_projection.py:1606-1654 | one mapping has the document and one delete job, held and in the snapshot, is for its page: if the page is gone at the job's epoch and revision, the deletion goes through exactly if the mapping is unchanged, and then the mapping is deleted, the job has succeeded, the generation is one higher and the document's protections are released; if not, the job is superseded and no mapping changes |
| Deletions.UnownedDeletion | app/gbrain_projection.py:1606-1634 | one mapping and no delete job: if the page is gone, the mapping is deleted, if it is unchanged, and no job changes; if not, no mapping changes and no job ends |
| Deletions.UnheldDeletion | app/gbrain_projection.py:1600-1603 | if the one delete job is not held or the snapshot does not have it once as it is, nothing changes |
| Deletions.UnknownDeletion | app/gbrain_projection.py:1604-1605 | a document that the snapshot does not have changes nothing |
| Deletions.AmbiguousDeletion | app/gbrain_projection.py:1655-1686 | several mappings or several delete jobs: exactly the mappings of the document become stale, exactly the delete jobs for their pages fail, the document is protected, and the generation is one higher |
| Deletions.AmbiguousGoesThrough | app/gbrain_projection.py:1600-1686 | and this goes through if and only if every such mapping is unchanged and every such job is held and in the snapshot, rows and members being different |
| Deletions.DeletionNeedsRun | app/gbrain_projection.py:1600 | only the worker that runs the batch and the segment changes anything |
| Results.ResultGoesThrough | app/gbrain_projection.py:1334-1544 | a result goes through, imported or not, if and only if the worker runs the segment and holds the page's jobs |
| Results.SuccessIsDecided | app/gbrain_projection.py:1334-1497 | an imported result supersedes the page's jobs if the page is not as expected; else they succeed and a current mapping shows the page with the result's document, if it has an identity, no other page has the slug and all jobs want what was expected; else they fail; mappings and generation change only when it is mapped |
| Results.FailureIsDecided | app/gbrain_projection.py:1499-1544 | any other result supersedes the page's jobs if the page is not as expected or the file changed under the import, else fails them; mappings and generation stay |
| Batches.MembersAreThoseThatFit | app/gbrain_projection.py:335-366 | of the claimed jobs, all held by the worker, exactly the page jobs whose page is active with their revision and epoch and has a file, and all other jobs, become members, untouched; the rest are superseded |
| Batches.PagesExpected | app/gbrain_projection.py:366-378 | a batch made from a delete, rename or reconcile job expects exactly the active pages with a revision, a file and a safe path; any other exactly the pages of the claimed page jobs that fit; the entries are the page rows' |
| Batches.BatchIsMade | app/gbrain_projection.py:299-457 | for held jobs, each once: the transaction goes through if and only if a reconciliation is asked for or every page asked for can be sent, and makes a batch if and only if a reconciliation or a page is asked for |
| Batches.ManifestPathIsSafe | app/gbrain_projection.py:47-58 | a path is sent if and only if it is below the wiki root, has no backslash, and no part between slashes is empty, a dot or two |
| Batches.FreshBatchIsAttributed | app/gbrain_projection.py:299-457 | if nothing changes between making a batch and attributing a result for one of its pages, a current mapping shows the page with the result's document, and its jobs succeed, if its revision has a semantic hash, the result has an identity and no other page has the slug; otherwise no mapping and no generation changes, and its jobs are superseded or fail |
| ReconcileRequest.RequestHasAllButLifted | app/gbrain_projection.py:1013-1156 | a reconcile request has each active protection once, except those all of whose rows may be lifted, and nothing else |
| ReconcileRequest.OnlySpokenForAreLeftOut | app/gbrain_projection.py:1073-1156 | every row of a protection left out belongs to a page gone at the epoch of the one delete job that the batch has for it, which runs under this worker, and matches exactly one mapping unchanged since the snapshot |
| ReconcileRequest.LeftOutExactlyIfLifted | app/gbrain_projection.py:1013-1156 | an active protection is left out if and only if there is a snapshot and, for each of its active rows, the page is gone as the batch's one delete job for it says, which is held and is the snapshot's one such job, and just one unchanged mapping of the snapshot has the slug and path protected |
| ReconcileRequest.NamedComeFirst | app/gbrain_projection.py:1039-1066 | a request has the protections that the caller names before all others |
| Segments.BuildSegments | app/gbrain_projection.py:264-291 | the segments in order are the pages sorted by id, stably; all but the last are full, and only the last of a reconcile batch reconciles |
| Segments.NoMemberLeftRunning | app/gbrain_projection.py:1290-1332 | when the closing transaction commits no member job is running: reconcile jobs have succeeded and the rest have failed |
| Segments.RemainingGoesThrough | app/gbrain_projection.py:1290-1332 | the closing transaction goes through if and only if the worker runs the batch and holds every member job that still runs |
| BatchRepository.GBrainBatchRepository.CreateBatch | app/gbrain_projection.py:299-457 | commits exactly the batch of the model, which `BatchIsMade`, `PagesExpected` and `MembersAreThoseThatFit` speak of, or leaves the tables as they were |
| BatchRepository.GBrainBatchRepository.AttributePageSuccess | app/gbrain_projection.py:1334-1497 | commits exactly the transaction of the model, which `Results` speaks of, or leaves the tables as they were |
| BatchRepository.GBrainBatchRepository.AttributePageFailure | app/gbrain_projection.py:1499-1544 | as for the success |
| BatchRepository.GBrainBatchRepository.AttributeOneDeletion | app/gbrain_projection.py:1586-1686 | as for the success, for one reported deletion, which `Deletions` speaks of |
| BatchRepository.GBrainBatchRepository.AuthoritativeMappings | app/gbrain_projection.py:1073-1118 | the pages for which one delete job of the batch speaks, with their mappings of the snapshot |
| BatchRepository.GBrainBatchRepository.LiftableProtections | app/gbrain_projection.py:1120-1145 | exactly the protections all of whose rows match one unchanged mapping |
| BatchRepository.GBrainBatchRepository.ReconcileRequestProtections | app/gbrain_projection.py:1013-1156 | the request of the model, in its order |
| BatchRepository.GBrainBatchRepository.FinishRemainingJobs | app/gbrain_projection.py:1290-1332 | commits the closing transaction of the model, or leaves the tables as they were |
| QueryCache.ServedFromSameTable | app/gbrain.py:221-226 | in every run a query served from the cache computed its key on the same mapping table as the query that stored the entry, which is the present table if the generation has not moved since |
| QueryCache.ServedAnswersTheQuestion | app/gbrain.py:688-736 | in every run a query served from the cache gets the answer that was given, within the time to live, to a query with the same settings, limit and question, but for space around it |
| QueryCache.KeysTellQueries | app/gbrain.py:688-702 | keys are equal if and only if settings, limit and generation are, and the questions but for space around them |
| QueryCache.ServedTableMayHaveMoved | app/gbrain.py:221-226 | a run in which the table has moved by the time the entry is served |
| QueryCache.GenerationMayMoveAlone | app/gbrain.py:221-226 | a run in which the generation has moved and the table is the same |
| QueryCache.CacheIsBounded | app/gbrain.py:739-744 | never more than 256 entries |
| QueryCache.ResultCache.GetCachedQuery | app/gbrain.py:724-736 | an entry is served if and only if it is there and within a positive time to live, and an expired one is removed |
| QueryCache.ResultCache.SetCachedQuery | app/gbrain.py:739-744 | stores the entry; beyond 256 an oldest one goes |
| Chunker.ChunkParagraphs | app/normalization.py:132-171 | chunks are numbered from 0 in order and have the texts that the results below speak of |
| Chunker.OverlapBuffer | app/normalization.py:174-184 | the shortest tail with the wanted number of characters, or the whole buffer; nothing for an overlap of 0 or less |
| Chunker.SplitLongParagraph | app/normalization.py:187-194 | the stripped windows that are not empty, in order, for every window and overlap |
| Chunker.PiecesCover | app/normalization.py:187-194 | each character that is not a space is in a piece |
| Chunker.TextsCover | app/normalization.py:147-171 | for every paragraph list and setting, each character that is not a space is in some chunk |
| Chunker.TextsAreWindows | app/normalization.py:147-171 | when no paragraph is too large the chunks are the joined paragraphs of contiguous windows with increasing ends and no gap, each ending where the next paragraph does not fit |
| Chunker.WindowingIsUnique | app/normalization.py:147-184 | the window conditions admit one windowing only |
| Chunker.StitchingGivesBack | app/normalization.py:147-184 | dropping the overlaps gives back the paragraph list |
| Chunker.WindowSize | app/normalization.py:147-184 | a window has at most 2 * max + overlap - 1 characters, and at most max without overlap |
| Chunker.WindowSizeIsReached | app/normalization.py:147-184 | that bound is reached, for every overlap |
| Citations.AllSourcesReadable | app/citations.py:24-42 | there is a source to read, and the user may read them all |
| Citations.WhoMayRead | app/auth.py:118-128 | a source is read by administrators, by anyone if it has no tag or a public one, by who shares a tag, and by its owner |
| Citations.DedupeCitations | app/citations.py:137-154 | the first of each, in order |
| Lists.DistinctOfPrefix | app/citations.py:137-154 | what is kept of a first part comes first, so each item stands where it was first met |
| Citations.HitIsSound | app/citations.py:45-251 | the citations of a mapped page hit are one group with exactly the sources of a current, projected, readable revision; a document's one source is readable |
| Citations.RemoteHitIsMapped | app/citations.py:45-94 | a remote hit is mapped if and only if it has text, one mapping has its document, that mapping is current with the hit's hash, generation and path and shows its one page as it is, and the user may read every source of the revision; what is amiss first decides the diagnostic |
| Citations.RemoteHitCites | app/citations.py:96-118 | it then cites each source of the revision once, with the hit's text and chunk and the page's path, id and revision |
| Citations.WikiHitIsMapped | app/citations.py:157-221 | a wiki hit is mapped, and cites likewise, if and only if its one page is active and visible with the hit's revision and epoch, under the hit's path if it has one, and the sources are readable |
| Citations.DocumentHitIsMapped | app/citations.py:224-262 | a document hit is mapped if and only if its source is readable, which it then cites with its text |
| Citations.OtherHitsAreUnmapped | app/citations.py:121-134 | all other local hits are unmapped |
| Citations.PageCitationGroupIsCurrent | app/search.py:656-726 | a group is current if and only if its page, revision, path and projection are, and it cites exactly the revision's readable sources |
| Citations.RevalidateCitations | app/search.py:621-653 | keeps exactly the citations of current groups and of readable documents, in order |
| Citations.RevalidationKeepsGroups | app/search.py:621-653 | an order-preserving sublist, whole groups or nothing, stable under a second check |
| Citations.KeptMeansCurrent | app/search.py:656-726 | a kept page citation names the active page's current revision, and each of its sources is cited in the group and readable |
| Citations.KeptExactly | app/search.py:621-726 | a citation is kept if and only if it cites a readable document, or a page that is shown now as it is cited, by its visible pair or a current mapping, together with just the sources of its revision, all readable |
| Citations.MappingAgreesWithCheck | app/citations.py:45-251 | in unchanged tables the citations of any hits, without repetition, pass the check unchanged if and only if none has an empty page id, revision id or path |
| Citations.EmptyPathDoesNotPass | app/search.py:661-663 | an input whose citation is mapped and then dropped |

## Left out

- `app/wiki_revisions.py`: finalising, recovering, deleting and renaming are abstract steps that change pages as stated above; of its rows only the cancel of a pending delete inside a move is modelled.
- SQL, connections and timestamps as text: a transaction is one atomic step and a time is an integer.
- HTTP, the MCP envelopes and the subprocesses of `app/gbrain.py` and `app/gbrain_projection.py`; a result that reaches attribution is any value.
- `_resume_batch` and the segment loop of `execute_batch`: in the runs of attribution, batches, members, snapshots and running segments are arbitrary values that may change between transactions; resuming a half-attributed segment is rejected by the program and no progress is claimed. The model of `create_batch` makes the members and the expected pages, not the stored snapshot.
- The lease rows of write intents (`claim`, `renew_lease` of `app/vault_writer.py`): the executor lock is what keeps the private names private.
- `BatchRepository` carries a failure to the end of a loop where the source raises at once; both roll the transaction back.
- Attribution order: member jobs are taken in the order of the batch's list, not by creation time, which only decides the recorded last job of a mapping.
- fsync and Windows handles: a completed file-system call is durable. A lost lease is a kill, since the executor then stops before its next call.
- VaultWriter.IntentExecutor.ReconcileRecovery: with an editor at work it does not say which files lead to which end, since they may change between two looks; whether what is handed over is superseded is decided in `app/wiki_revisions.py` and left open.
- The circuit breaker in front of the query cache.
- Job payloads, error texts and update times; `mark_succeeded`, which nothing calls.
- Occurrence rows and reconcile-job leases of `app/vault_events.py`, which repeat the lease pattern of the outbox in a simpler form.
- Splitting markdown into paragraphs with regular expressions, and the chunk metadata. No size is claimed for lists with a paragraph longer than the limit: stripped pieces may pile up in the buffer.
- The context and answer texts of mapped evidence; ranking, embeddings, prompts, evaluation, accounts, aliases, the web application and the frontend.
- asyncio cancellation beyond the page lock.
