# Verification model of Little Orbit's protocols

This project states, in Dafny, what the riskiest parts of the repository do, and proves properties of them
that hold for every input, every run or every reachable state. Run `dafny verify dfyconfig.toml` to check
all of it.

## What is modelled

**Direct migration** (`MigrationInventory`, `MigrationWorld`, `MigrationHosts`, `DirectMigration`). A
durable journal on Unraid names who owns the data: local production (absent, `preparing`,
`forward-cleaned`), Unraid (`committed`, `rollback-preparing`) or the local rollback copy
(`rollback-committed`). A `World` holds the journal, the three copies and the writers running beside each,
and what the run under way last read of its source. Every remote script, container stop or start, stream,
rename and erasure is one or more atomic effects of the class `Hosts`; each effect may succeed, raise, or
coincide with the death of the tool before or after it took place, and clients may write in between, also
through database sessions that a freeze did not stop. Every atomic change passes through `Hosts.Become`,
whose precondition is the step relation of `MigrationWorld`: each journal edge, writer start, erasure and
handover has its guard there, and the world's invariant is proved inductive over these steps. The methods of
`DirectMigration` (one run, its in-process recovery, the two recovery commands, and a driver that repeats
them in any order) therefore produce only runs for which the world's lemmas hold. `Hosts` also records
whether the tool's process lives, how many of its commands failed and what it checked, so a step that
ignores a death or skips a check does not verify. A parameter `calm` says that no external command and no
check of a host fails; liveness results are stated under it.

**Shared-GPU work queue** (`GpuCoordination`, `AiWorkRunner`, `AiWorkQueue`, `QueueRuns`). `GpuFileLock` is
a class with a ghost log of what happened to the lock and to the work under it. `RunLease` may fail, be
cancelled or be torn down at every await; a `Course` follows the awaits, and `MayFollow` says which may come
next. `QueueTable` is the database table with one method per transaction, each tied to a function on rows.
`QueueRuns` interleaves those functions: any lease ever issued may act at any time, workers may die, and a
commit may take effect without its session hearing of it.

**Attachment accounting** (`AttachmentStorage`). One method per committed transaction of the media worker,
the upload, fork and delete routes, and maintenance. `ScanPendingOnce` runs a worker cycle with any number
of the others' transactions between its own, any outcome of the scan, commits that fail or go unheard, and
the worker's death at any await. Every contract says exactly when a transaction takes effect, what it then
writes, and what its caller hears.

**Restore swap** (`RestoreSwap`) counts the operations of the file system and takes the set of those that
fail as a parameter, so its results hold for every schedule of failures. **Edit log** (`NoteEdits`), **DNS
lease merging** (`AddressLeases`), **question selection** (`QuestionPool`, `LightBatchCase`), **question
reserve** (`Reserve`) and **environment rebuild** (`EnvironmentRebuild`) follow one source file each.
`Arithmetic` holds facts about quotients.

## What the proofs found

- *A published file can be taken back.* If the staged copy of a file cannot be removed after its publication
  was committed, the error handler of the same cycle queues it again, and after the eighth attempt rejects
  it (`CycleDoesItsWork`).
- *A passed admin job can be reopened.* If the commit of `passed` takes effect but raises, the error handler
  of the same, still current lease puts the job back to `pending`. `PassedIsLeftExactlyWhenDoubtful` shows
  that this is the only way, `AnUnseenCommitReopensTheJob` gives such a run, and `JobsPassAtMostOnce` shows
  that otherwise a job passes at most once.
- *The delete route reads before it locks.* It subtracts the size it saw before waiting for the couple's
  lock. The account stays exact if and only if that reading still weighs what the row weighs now
  (`DeletionKeepsTheAccount`); two overlapping deletions leave the counter short
  (`OverlappingDeletionsDrift`).
- *The chunk upload does, too.* Its locking read returns the object that the session already loaded, so two
  overlapping last chunks of one bad upload can both free the reservation (`OverlappingFinishesDrift`): the
  second is written exactly when the upload has a single chunk, since the first removes the staging file
  (`OverlappingFinishes`). The exact condition on the rows is `FinishingKeepsTheAccount`. Maintenance
  repairs any such drift (`Store.RunMaintenance`).
- *An attachment whose worker dies during the eighth attempt is stranded.* An abandoned lease is taken over
  by a later claim if and only if attempts are left (`AbandonedIsTakenOverUnlessStranded`). `EightDeaths` is
  such a run, and `RunForever` shows that in every continuation the attachment stays unclaimed and keeps its
  reservation until it is deleted or removed.
- *Concurrent edits converge unless one inserts strictly inside what the other deletes*
  (`TransformConverges`, an equivalence). The server's log stays consistent either way.
- *A lone carriage return can break an environment rebuild.* Other lines are kept if and only if removal
  leaves no lone CR directly before an empty LF line, and rebuilding twice works if and only if no such pair
  completes a bare fixed name (`OtherLinesAreKept`, `RebuildIsIdempotent`). LF and CRLF files are never
  affected (`OrdinaryTextRebuilds`).
- *A batch of ten generated questions can make selection fail* outside strict recovery, whatever the bank
  holds: the four slots left bring at most one deeper question (`TenWithoutDeeperFail`). Six counts of the
  searched pool decide it (`AdmissibleWhenMixPossible`). `TenLightQuestionsFail` gives ten unlike questions
  for which it fails. Such a batch has also missed the requested intimacy mix: parsing records that
  (`candidate_mix_invalid`) but does not refuse the batch.
- *A write after the last reading of a source stays behind.* Once a migration has compared its source for
  the last time, a database session that outlives the freeze can still write. The destination then serves an
  image of what was read, and one of the source's data if and only if that is still what was read
  (`HandoverServesTheReading`, `OvertakenByAWrite`). The write remains at the superseded site;
  `LateWriteIsLeftBehind` is such a run.
- *The archive's manifest may stand anywhere.* Its docstring calls it the final entry; the code accepts it
  at any place and uses the last one. The model follows the code.

## Model

| member | source | states |
|---|---|---|
| MigrationWorld.RunKeepsInv | infra/scripts/migration_target.py:53-470 | whatever fails or dies between two effects, the invariant of journal, copies and writers holds at every moment of every run |
| MigrationWorld.NoSplitBrain | infra/scripts/migration_recovery.py:51-151 | in every run with a failure or death between any two effects, writers run at no two sites and never away from the authority the journal names |
| MigrationWorld.CustodyKept | infra/scripts/migration_target.py:244-457 | without client writes, from any moment at which no run is under way or its reading still stands, the authority's data after any number of failed, killed and repeated commands is the original, up to the one reviewed schema transition |
| MigrationWorld.HandoverIsFrozen | infra/scripts/direct_migration.py:450-467 | between two authorities lies a moment when no writer runs anywhere |
| MigrationWorld.HandoverServesTheReading | infra/scripts/direct_migration.py:418-467 | whoever takes over serves an image of what was last read, which is one of the data if and only if that is still what was read; the old authority keeps what it holds |
| MigrationWorld.OvertakenByAWrite | infra/scripts/direct_migration.py:442-467 | data that differs from the reading was written by a client after it |
| MigrationWorld.LateWriteIsLeftBehind | infra/scripts/direct_migration.py:442-467 | for any source and any later write, a run that commits without it |
| MigrationWorld.StoppedWritersAreJournaled | infra/scripts/direct_migration.py:499-553 | writers missing at the authority always leave a journal phase from which a recovery command proceeds |
| MigrationWorld.SupersededStaysDown | infra/scripts/migration_recovery.py:121-151 | once a forward migration committed, local production never runs again and its data never changes |
| MigrationWorld.RollbackIsFinal | infra/scripts/migration_target.py:382-391 | a committed rollback is never left by any later command |
| MigrationInventory.ForwardThenRollback | infra/scripts/migration_inventory.py:130-160 | forward then rollback returns attachments, releases, table counts, roles and security objects unchanged, plus one empty `ai_work_queue` and its objects, under schema head `0032` instead of `0031` |
| MigrationWorld.CustodyIsTheOriginalOrItsImage | infra/scripts/direct_migration.py:418-467 | over a whole run without client writes, production's data is the original and every later authority's data is its image under the one transition |
| MigrationWorld.RollbackReturnsTheOriginal | infra/scripts/migration_inventory.py:130-160 | a run that ends rolled back returns every attachment, release, table count, role and security object, under schema head `0032` instead of `0031` |
| MigrationInventory.AssertDestinationMatching | infra/scripts/migration_inventory.py:137-160 | accepts exactly the images of the source: equality, or the single forward transition; an ordinary upgrade to head `0032` with one empty queue table is accepted, and nothing under another head |
| MigrationInventory.WithoutObjectKeeps | infra/scripts/migration_inventory.py:137-160 | removing the queue table's security evidence removes nothing else |
| MigrationInventory.ImageDeterminesSource | infra/scripts/migration_inventory.py:137-160 | an accepted image of one reading is an image of no other data |
| MigrationInventory.UpgradableMeansImage | infra/scripts/migration_inventory.py:137-160 | a source has an acceptable image forward if and only if its schema head is the reviewed one and neither a table nor a security object is named after the queue |
| MigrationInventory.UpgradeIsAnImage | infra/scripts/migration_inventory.py:137-160 | the upgraded destination is acceptable, also with a security object of the new table at any place among the others |
| MigrationHosts.Hosts.Become | infra/scripts/migration_target.py:53-72 | admits only steps that start writers at the authority, move authority between frozen sites to an accepted image, and leave the authority's data alone; each keeps the invariant |
| MigrationHosts.Hosts.BeginFreshTarget | infra/scripts/migration_target.py:108-135 | writes `preparing` only over an absent journal and an unused target |
| MigrationHosts.Hosts.BeginRollback | infra/scripts/migration_target.py:371-379 | journals rollback intent only over a commit, keeping its token |
| MigrationHosts.Hosts.RenameSiblings | infra/scripts/migration_artifacts.py:413-456 | success means both renames took effect and the accepted image is live; an occupied live root is never touched, and a refused second rename is undone |
| MigrationHosts.Hosts.PromoteRemote | infra/scripts/migration_artifacts.py:413-435 | `committed` is reached only with the accepted image live on Unraid; any other end leaves `preparing` |
| MigrationHosts.Hosts.MarkRollbackCommitted | infra/scripts/migration_target.py:382-391 | `rollback-committed` is written only over this run's own intent and equal live copies |
| MigrationHosts.Hosts.TeardownTarget | infra/scripts/migration_target.py:244-271 | erases the whole target and only then marks it cleaned; an interrupted teardown stays `preparing`, and a cleaned journal stands beside an empty target only |
| MigrationHosts.Hosts.RecoverFailedTarget | infra/scripts/migration_target.py:332-359 | reports a phase that the journal really has, and never reports a committed target as safe to clean |
| MigrationHosts.Hosts.AdoptInterruptedForward | infra/scripts/migration_target.py:295-318 | adopts every forward phase, tearing down only an unfinished target |
| MigrationHosts.Hosts.CompleteForward | infra/scripts/migration_target.py:321-329 | removes exactly a cleaned journal, with a guard only its own, after all source writers run |
| MigrationHosts.Hosts.RecoverFailedRollback | infra/scripts/migration_target.py:431-457 | classifies only this rollback's own journal and changes nothing |
| MigrationHosts.Hosts.CompleteRollback | infra/scripts/migration_target.py:406-415 | restores the forward commit the rollback started from, once nothing is left of its copy |
| MigrationHosts.Hosts.CleanRollbackDestination | infra/scripts/migration_artifacts.py:469-489 | success leaves no rollback project and no copy |
| DirectMigration.PrepareRun | infra/scripts/direct_migration.py:394-415 | a prepared run found a healthy source and an unused destination and owns the journal; until its intent is journaled it changes nothing; without failures it prepares if and only if it finds them |
| DirectMigration.FreezeAndStream | infra/scripts/direct_migration.py:418-447 | success means a frozen source without sessions or active work, read alike before and after streaming, and a staged accepted image of it, even with stray sessions writing; without failures and strays it succeeds if and only if the streams deliver such an image |
| DirectMigration.CommitRun | infra/scripts/direct_migration.py:450-467 | authority moves only with the accepted image of the last reading at the destination and only under a live lock, proved again before a rollback's commit; it is an image of the source if and only if nothing changed since; without failures it moves exactly when both live roots are empty |
| DirectMigration.RecoverForward | infra/scripts/migration_recovery.py:51-69 | the source is declared safe only under a live lock holder and for an absent or cleaned journal; a holder lost during an unclear attempt causes a second one |
| DirectMigration.RecoverRollback | infra/scripts/migration_recovery.py:72-95 | safe means this rollback's intent is journaled and its local copy is erased under the lock; without the lock nothing is erased |
| DirectMigration.RecoverFailure | infra/scripts/migration_recovery.py:121-151 | the evidence it reports is true of the journal, the copies and the writers, and "not started" is reported exactly by a run that built nothing; if nothing else fails, whatever the run built is erased, frozen or not, and a frozen source comes back healthy with its journal consumed, unless the destination was already committed |
| DirectMigration.ExecuteMigration | infra/scripts/direct_migration.py:470-496 | success means every check passed in order, no command failed, and authority moved to an accepted image of the last reading with everything frozen; failure reports true evidence, a run that may not start changes nothing, and a run that fails anywhere is undone if its recovery works; if no command fails and no stray session writes, a run that may start succeeds if and only if its streams deliver an accepted image and both live roots are empty |
| DirectMigration.RecoverInterruptedForward | infra/scripts/direct_migration.py:499-521 | never leaves or invents a commit; a normal end is a frozen superseded source or an absent journal with all writers back, and the record says which |
| DirectMigration.RecoverInterruptedRollback | infra/scripts/direct_migration.py:524-553 | a committed rollback is untouched; an earlier one, or one already restored, ends with Unraid serving under its original commit and no local copy, each step under a proven lock, and does so whenever no command fails |
| DirectMigration.RecoverForwardEventually | infra/scripts/direct_migration.py:499-521 | interrupted any number of times, then run once undisturbed, recovery reaches one of the two final situations |
| DirectMigration.RecoverRollbackEventually | infra/scripts/direct_migration.py:524-553 | interrupted any number of times, before or after the commit is restored, the last command ends normally with the original forward commit and all writers, or with the committed rollback untouched |
| DirectMigration.Operate | infra/scripts/direct_migration.py:574-611 | any number of commands, each failing or dying anywhere, is one run of the world, with its invariant at every moment |
| GpuCoordination.SafeExtends | services/api/src/little_orbit_api/gpu_coordination.py:35-46 | extending a history keeps every unlock first and covered |
| GpuCoordination.GpuFileLock.Release | services/api/src/little_orbit_api/gpu_coordination.py:35-46 | unlocks at most once, and retains the handle while work under it is not cleared |
| GpuCoordination.GpuFileLock.RequireVerifiedRelease | services/api/src/little_orbit_api/gpu_coordination.py:48-53 | arms retention exactly on an available lock |
| GpuCoordination.GpuFileLock.VerifyRelease | services/api/src/little_orbit_api/gpu_coordination.py:55-60 | disarms only after ended work and an idle proof |
| GpuCoordination.GpuFileLock.Quarantine | services/api/src/little_orbit_api/gpu_coordination.py:62-73 | keeps the locked handle in the retained list, once |
| AiWorkRunner.ReleaseGpu | services/api/src/little_orbit_api/ai_work_runner.py:302-317 | models are unloaded first; on AMD a normal end means the device was then proved idle and the lock cleared, and a refusal means the lock is quarantined |
| AiWorkRunner.RunLease | services/api/src/little_orbit_api/ai_work_runner.py:106-157 | whatever raises or is cancelled at any await, started AMD work stays covered; completion follows the work and the release of the device; a failed item is handed back after its work was stopped and a release tried, always so if the handlers' awaits end well; if everything works the lease passes |
| AiWorkRunner.RunAiWorkCycle | services/api/src/little_orbit_api/ai_work_runner.py:66-103 | due work is queued first, an item is claimed only under the lock and the head is deferred when the device is busy; at the end the lock is released or retained, and work not cleared keeps it locked; if everything works the outcome follows from the lock, the device and the queue |
| AiWorkQueue.QueueTable.ClaimDueWork | services/api/src/little_orbit_api/ai_work_queue.py:129-163 | claims the least unfinished row not locked by another session, with a fresh token, and refuses exactly when nothing is claimable |
| AiWorkQueue.QueueTable.DeferDueWork | services/api/src/little_orbit_api/ai_work_queue.py:166-188 | moves exactly the due, unleased first row among those not locked by another session |
| AiWorkQueue.QueueTable.FencedUpdate | services/api/src/little_orbit_api/ai_work_queue.py:248-261 | applies exactly while the token is current |
| AiWorkQueue.QueueTable.HeartbeatWork | services/api/src/little_orbit_api/ai_work_queue.py:191-197 | refreshes a current lease, nothing else |
| AiWorkQueue.QueueTable.CompleteWork | services/api/src/little_orbit_api/ai_work_queue.py:200-210 | turns a current lease's row into a tombstone |
| AiWorkQueue.QueueTable.RetryWork | services/api/src/little_orbit_api/ai_work_queue.py:213-223 | frees a current lease's row for its next slot, one retry period away |
| AiWorkQueue.QueueTable.Enqueue | services/api/src/little_orbit_api/ai_work_queue.py:58-126 | inserts exactly when neither the identity nor the weekly slot has a row, and changes no other row |
| AiWorkQueue.QueueTable.ClaimQuizJob | services/api/src/little_orbit_api/admin_operations.py:220-243 | a current lease starts a pending, running or failed job, so a dead worker's job is restarted; a passed, cancelled or missing job and a replaced lease start nothing |
| AiWorkQueue.QueueTable.FinishJob | services/api/src/little_orbit_api/admin_operations.py:246-265 | changes a job's status exactly under a current lease |
| AiWorkQueue.DueHeadIsClaimable | services/api/src/little_orbit_api/ai_work_queue.py:129-163 | a due head with all activity older than both windows can be claimed, so a dead worker's item is taken over |
| AiWorkQueue.HeadIsOldest | services/api/src/little_orbit_api/ai_work_queue.py:129-163 | the head is the oldest by schedule, then by the stored kind's name, then by identity |
| AiWorkQueue.RankIsAlphabetical | services/api/src/little_orbit_api/ai_work_queue.py:17-22 | the kinds are ordered as their stored names are |
| AiWorkQueue.WeeklyByName | services/api/src/little_orbit_api/ai_work_queue.py:17-22 | exactly the two kinds named `weekly_` are weekly |
| AiWorkQueue.LatestDueDateIsUnique | services/api/src/little_orbit_api/ai_work_queue.py:44-55 | the date is the only one on its weekday whose hour lies less than seven days back |
| AiWorkQueue.DueDatesAdvance | services/api/src/little_orbit_api/ai_work_queue.py:44-55 | later times never bring back an older slot |
| QueueRuns.RunKeepsInv | services/api/src/little_orbit_api/ai_work_queue.py:129-261 | the token, cadence, lock, result, slot and job invariants hold in every reachable state |
| QueueRuns.FencedForever | services/api/src/little_orbit_api/ai_work_queue.py:129-163 | a lease that is not current never becomes current again |
| QueueRuns.StaleStepsChangeNothing | services/api/src/little_orbit_api/ai_work_queue.py:191-261 | no heartbeat, completion, retry, job claim, job finish or result of a replaced lease takes effect |
| QueueRuns.CurrentStepsTakeEffect | services/api/src/little_orbit_api/admin_operations.py:220-265 | while a lease is current, each of its steps does exactly its own work |
| QueueRuns.StagesAdvance | services/api/src/little_orbit_api/admin_operations.py:37-82 | a program goes through its stages once: under one lease no job step is taken twice |
| QueueRuns.ClaimantExecutes | services/api/src/little_orbit_api/ai_work_runner.py:80-103 | whoever claims executes under the lock until it ends or dies |
| QueueRuns.RetriedItemWaits | services/api/src/little_orbit_api/ai_work_queue.py:213-223 | a failed item is due one retry period later, and no claim takes it before |
| QueueRuns.DeferredItemWaits | services/api/src/little_orbit_api/ai_work_queue.py:166-188 | a deferred head waits as long |
| QueueRuns.ActivityHoldsOffClaims | services/api/src/little_orbit_api/ai_work_queue.py:129-163 | after a heartbeat, completion or retry of any item nothing is claimed for the minimum gap |
| QueueRuns.BeatingLeaseIsKept | services/api/src/little_orbit_api/ai_work_queue.py:129-163 | a lease is not taken over while its heartbeat is fresh |
| QueueRuns.AttemptsAreClaims | services/api/src/little_orbit_api/ai_work_queue.py:158-163 | an item's attempts are the claims made of it |
| QueueRuns.DueSlotIsQueued | services/api/src/little_orbit_api/ai_work_queue.py:58-90 | queueing a due weekly slot leaves a row for it: the one there was, or a new one |
| QueueRuns.ResultsFollowClaims | services/api/src/little_orbit_api/ai_work_queue.py:236-245 | results of an item are committed in the order of its claims |
| QueueRuns.CadenceAndExclusion | services/api/src/little_orbit_api/ai_work_runner.py:66-103 | any two claims are at least the minimum gap apart and at most one worker executes |
| QueueRuns.OneRowPerSlot | services/api/alembic/versions/0032_gpu_work_queue.py:45-53 | every weekly slot has at most one row in every run |
| QueueRuns.TombstonesStay | services/api/src/little_orbit_api/ai_work_queue.py:200-210 | nothing revives, claims or reschedules a finished row |
| QueueRuns.ItemsAreNotLost | services/api/src/little_orbit_api/ai_work_queue.py:200-223 | an item leaves the queue only when its current lease completes it |
| QueueRuns.HeadCanBeClaimed | services/api/src/little_orbit_api/ai_work_queue.py:129-163 | every run with an unfinished row goes on, by deaths and passing time alone, to one in which a worker claims the first such row |
| QueueRuns.QueueCanBeWorkedOff | services/api/src/little_orbit_api/ai_work_queue.py:129-210 | every run goes on, without any client's help, to one in which every row is finished and every admin job in the table that has a row is passed or cancelled |
| QueueRuns.TombstoneMeansSettled | services/api/src/little_orbit_api/admin_operations.py:37-82 | a finished admin row's job is passed, cancelled or gone, never pending, running or failed |
| QueueRuns.PassedIsLeftExactlyWhenDoubtful | services/api/src/little_orbit_api/admin_operations.py:37-82 | a passed job is reopened if and only if its current lease committed it unheard and now puts it back |
| QueueRuns.AnUnseenCommitReopensTheJob | services/api/src/little_orbit_api/admin_operations.py:246-265 | a run in which that happens |
| QueueRuns.OneJobDone | services/api/src/little_orbit_api/admin_operations.py:37-82 | a run in which a job is requested, claimed and passed with one result, and the lock is free again |
| QueueRuns.JobsPassAtMostOnce | services/api/src/little_orbit_api/admin_operations.py:246-265 | with every commit acknowledged, a job passes at most once and stays passed |
| AttachmentStorage.TotalsAfterWrite | services/api/src/little_orbit_api/attachment_quota.py:47-66 | writing one row moves the global and every couple's sum by exactly that row's change |
| AttachmentStorage.Store.AdjustStorage | services/api/src/little_orbit_api/attachment_quota.py:34-44 | refuses exactly overflow and underflow, and then changes nothing |
| AttachmentStorage.Store.ReserveUpload | services/api/src/little_orbit_api/routes/attachments.py:113-191 | takes effect exactly for requests within every limit (100 MiB a file, 2 GiB a couple, 50 GiB in all, four uploads at a time) whose commit holds; the counter stays the sum of the live rows |
| AttachmentStorage.Store.FinishUpload | services/api/src/little_orbit_api/routes/attachments.py:251-297 | exactly when it takes effect, given the reading, the chunk's offset and the staging file, and what it writes; the account stays exact if and only if the early reading is balanced against the row |
| AttachmentStorage.FinishingKeepsTheAccount | services/api/src/little_orbit_api/routes/attachments.py:251-296 | the same equivalence on the sums |
| AttachmentStorage.OverlappingFinishesDrift | services/api/src/little_orbit_api/routes/attachments.py:251-282 | two overlapping last chunks of a bad upload, both written, both free its reservation |
| AttachmentStorage.OverlappingFinishes | services/api/src/little_orbit_api/routes/attachments.py:270-282 | after two such requests the counter is exact if and only if the upload had more than one chunk or the counter would have fallen below zero |
| AttachmentStorage.Store.ForkAttachments | services/api/src/little_orbit_api/routes/note_forks.py:96-184 | takes effect exactly for clean files within every limit whose commit holds; the clones are reserved together |
| AttachmentStorage.Store.ClaimReady | services/api/src/little_orbit_api/attachment_media.py:101-136 | claims a job that is due first, exactly when one is claimable and the commit holds, and no job more than eight times |
| AttachmentStorage.Store.MarkAvailable | services/api/src/little_orbit_api/attachment_media.py:183-250 | publishes under the final size within both ceilings; refuses exactly otherwise; underflow cannot occur |
| AttachmentStorage.Store.Retry | services/api/src/little_orbit_api/attachment_media.py:257-278 | requeues with its delay exactly when attempts are left and the commit holds, and asks for rejection exactly after the eighth attempt |
| AttachmentStorage.Store.Reject | services/api/src/little_orbit_api/attachment_media.py:281-307 | rejects exactly when the row exists and the commit holds, and gives the bytes back exactly once, even after a deletion in between |
| AttachmentStorage.Store.DeleteAttachment | services/api/src/little_orbit_api/routes/attachments.py:367-385 | hides the row exactly when it exists, the counter covers the reading and the commit holds; keeps the account if and only if that reading still weighs what the row weighs |
| AttachmentStorage.DeletionKeepsTheAccount | services/api/src/little_orbit_api/routes/attachments.py:378-384 | the same equivalence on the sums |
| AttachmentStorage.OverlappingDeletionsDrift | services/api/src/little_orbit_api/routes/attachments.py:378-384 | two overlapping deletions leave the counter short |
| AttachmentStorage.Store.RunMaintenance | services/api/src/little_orbit_api/maintenance.py:46-74 | one transaction that removes exactly doomed rows, uploads untouched for a day and rejections untouched for a week, leaves every other row and its job as they were, and ends with an exact counter whatever drift it started from |
| AttachmentStorage.Store.ScanPendingOnce | services/api/src/little_orbit_api/attachment_media.py:77-98 | a worker cycle, interleaved with any transactions on readings that are not outdated and ending anywhere, keeps the counter equal to the live sum, every couple within quota, and claims at most eight; an attachment given up stays so, a published one stays as it is until deleted; undisturbed, it brings the file due first to its end |
| AttachmentStorage.AbandonedIsTakenOverUnlessStranded | services/api/src/little_orbit_api/attachment_media.py:101-136 | an abandoned lease can be claimed at some time if and only if it was not the eighth; the file keeps its reservation |
| AttachmentStorage.RunForever | services/api/src/little_orbit_api/attachment_media.py:316-326 | in every continuation a stranded attachment stays scanning, unclaimed and counted until it is deleted or removed, and a published file stays on offer until it is deleted or its note or couple removed |
| AttachmentStorage.EightDeaths | services/api/src/little_orbit_api/attachment_media.py:101-129 | a run that strands an attachment |
| AttachmentStorage.RetryDelayIsBounded | services/api/src/little_orbit_api/attachment_media.py:268-272 | delays grow from five seconds and settle at five minutes exactly from the seventh attempt |
| AttachmentStorage.CycleDoesItsWork | services/api/src/little_orbit_api/attachment_media.py:77-98 | a clean file that fits is published, an unclean one rejected, a failure tried again up to the eighth time; a published file is taken back in the same way when its staged copy cannot be removed |
| AttachmentStorage.ClaimedIsLeased | services/api/src/little_orbit_api/attachment_media.py:101-136 | a claim leases the job for ten minutes, and no job a ninth time |
| AttachmentStorage.RetriedIsDueLater | services/api/src/little_orbit_api/attachment_media.py:257-278 | a job put back is claimable exactly from the end of its delay on |
| AttachmentStorage.PublishedIsOnOffer | services/api/src/little_orbit_api/attachment_media.py:183-250 | a published file has its final size and is never scanned or expired again |
| AttachmentStorage.RejectedIsOver | services/api/src/little_orbit_api/attachment_media.py:281-307 | a rejected file weighs nothing, is never scanned again, and may be removed after a week |
| AttachmentStorage.FinishedIsQueuedOrOver | services/api/src/little_orbit_api/routes/attachments.py:276-296 | a good last chunk makes the file claimable from then on, a bad one rejects it |
| AttachmentStorage.DeletedIsHidden | services/api/src/little_orbit_api/routes/attachments.py:378-385 | a deleted file weighs nothing, is never scanned again, and keeps its row |
| AttachmentStorage.ClonesAreCopies | services/api/src/little_orbit_api/routes/note_forks.py:96-184 | every clone is its source's file under a new identity |
| RestoreSwap.CreateAddsOneFile | infra/scripts/restore-attachment-backup.py:39-59 | extracting a payload adds that one file, which was not there |
| RestoreSwap.CreatesUnlessObstructed | infra/scripts/restore-attachment-backup.py:39-59 | a file can be created exactly where no file lies on the way, at it, or below it |
| RestoreSwap.ArchiveRoundTrip | infra/scripts/restore-attachment-backup.py:18-75 | the archive of a list of files is intact if and only if their names are proper and none is in another's way, and then it yields exactly them |
| RestoreSwap.BadMemberIsNeverReceived | infra/scripts/restore-attachment-backup.py:18-59 | one member that is absolute, climbs, lies outside the payload, or is no readable regular file, and nothing is received |
| RestoreSwap.Volume.ReceiveArchive | infra/scripts/restore-attachment-backup.py:62-75 | success means the staging directory holds exactly the files the manifest lists, each once |
| RestoreSwap.Volume.ReplacePayload | infra/scripts/restore-attachment-backup.py:78-106 | for every schedule of failures: without a failed rename exactly the staged entries; after one, exactly the originals if and only if none of the undoing renames fails, and otherwise every original is still on the volume; killed at any moment, it leaves every original or all staged entries |
| RestoreSwap.SafelyMeans | infra/scripts/restore-attachment-backup.py:78-106 | what the recorded history of a swap promises: it leaves no step out, and at each moment every original is in place or set aside, or all staged entries are in place |
| RestoreSwap.EveryScheduleIsCovered | infra/scripts/restore-attachment-backup.py:78-104 | a schedule fails at once, fails first at some rename, or does not fail a rename: no case is left open |
| RestoreSwap.Volume.PopulateEmptyStaging | infra/scripts/restore-attachment-backup.py:109-117 | fills only an empty root, with exactly the staged entries |
| RestoreSwap.Volume.RestoreAttachments | infra/scripts/restore-attachment-backup.py:127-145 | for every schedule, exactly when it succeeds and what the root then holds; an archive not intact or not fully received changes nothing, and a failed swap leaves what the row above says |
| NoteEdits.FitsMeansApplies | services/api/src/little_orbit_api/domain/notes.py:32-43 | an edit applies exactly when it is in range, and changes the length by its own size |
| NoteEdits.AppliesExactly | services/api/src/little_orbit_api/domain/notes.py:32-43 | when an edit applies, and what the note then reads |
| NoteEdits.ParsedAsNamed | services/api/src/little_orbit_api/note_edit_service.py:164-169 | a message asks for exactly the edit it names |
| NoteEdits.TransformKeepsFit | services/api/src/little_orbit_api/domain/notes.py:46-84 | transformation neither breaks an edit in range nor repairs one out of range |
| NoteEdits.TransformConverges | services/api/src/little_orbit_api/domain/notes.py:46-84 | two concurrent edits give one note in either order if and only if neither inserts strictly inside what the other deletes |
| NoteEdits.SwallowedInsertionDiverges | services/api/src/little_orbit_api/domain/notes.py:67-80 | what the two orders give in the excluded case |
| NoteEdits.StoredEditsRoundTrip | services/api/src/little_orbit_api/note_edit_service.py:172-188 | restoring a stored edit returns it, and a payload restores only to the edit it stores |
| NoteEdits.CarriedFits | services/api/src/little_orbit_api/note_edit_service.py:191-215 | an edit fits the current note exactly when it fitted the note its author had |
| NoteEdits.SinceIsTheTail | services/api/src/little_orbit_api/note_edit_service.py:196-207 | the selected operations are the gapless tail of the log in order |
| NoteEdits.AppendKeepsCoherence | services/api/src/little_orbit_api/note_edit_service.py:119-136 | an accepted edit extends the log so that it still replays |
| NoteEdits.Note.TransformSince | services/api/src/little_orbit_api/note_edit_service.py:191-215 | the gap check never fires |
| NoteEdits.Note.ApplyLocked | services/api/src/little_orbit_api/note_edit_service.py:97-136 | exactly when an edit is a duplicate, a conflict, invalid or appended, and the whole new state in each case |
| NoteEdits.Note.ApplyCurrent | services/api/src/little_orbit_api/note_edit_service.py:97-136 | a message against the current note is applied as it asks, or refused and nothing changes |
| NoteEdits.CurrentEditApplies | services/api/src/little_orbit_api/note_edit_service.py:97-136 | the same on logs, as an equivalence |
| NoteEdits.ServingOrderDoesNotMatter | services/api/src/little_orbit_api/note_edit_service.py:191-215 | two messages against one note leave the same note in either order if and only if neither inserts strictly inside what the other deletes |
| NoteEdits.Note.Serve | services/api/src/little_orbit_api/note_edit_service.py:35-53 | for any messages and retries, each is answered on the log the ones before it left, so acceptable ones are appended; the body is the replay of the log, revisions are one to the note's, and each operation identity occurs at most once |
| AddressLeases.BestIsLatest | infra/scripts/array_serving_network.py:96-101 | the kept observation is a live one with the latest expiry, and exists exactly when one is live |
| AddressLeases.MergeAddressLeases | infra/scripts/array_serving_network.py:85-103 | refuses exactly malformed observations or more than thirty-two live addresses; otherwise one lease per live address in order |
| AddressLeases.OneIsAccepted | infra/scripts/array_serving_network.py:63-82 | one observation is accepted exactly with 1 to 32 different admissible addresses and a lifetime of at most five minutes |
| AddressLeases.MergeKeepsPermission | infra/scripts/array_serving_network.py:63-103 | an address is permitted at any later instant exactly when an observation live at the merge permits it |
| AddressLeases.MergeIsIdempotent | infra/scripts/array_serving_network.py:85-103 | merging a merged result changes nothing |
| AddressLeases.IncrementalMergeIsExact | infra/scripts/array_serving_network.py:85-103 | merging stepwise equals merging from scratch if and only if no future observation that becomes the best for its address is forgotten; so it does when none lies in the future |
| AddressLeases.StepwiseAcceptance | infra/scripts/array_serving_network.py:85-103 | exactly when the second step is accepted: it counts the addresses still live from the first merge or newly observed, so it accepts whatever a merge from scratch does, and no more than that when none lies in the future |
| AddressLeases.FutureObservationIsLost | infra/scripts/array_serving_network.py:94-95 | why that condition is needed |
| AddressLeases.MergedPolicyPermitsTheSame | infra/scripts/array_serving_network.py:128-134 | replacing past observations by their merge never changes what the egress rule permits |
| AddressLeases.EgressIsNarrow | infra/scripts/array_serving_network.py:128-134 | mail goes to its host's port, context to port 443 of its hosts, while a lease lasts, and nothing goes anywhere else |
| QuestionPool.ChoicesAreCombinations | services/ai/src/little_orbit_ai/pipeline.py:170-172 | the search enumerates every choice of five positions |
| QuestionPool.Search | services/ai/src/little_orbit_ai/pipeline.py:162-202 | no admissible five beats the result by score or, at equal score, by smaller identifiers; none exactly when none is admissible |
| QuestionPool.OptimalIsBest | services/ai/src/little_orbit_ai/pipeline.py:190-199 | no admissible five scores more, and one that scores as much has the larger identifier where they first differ |
| QuestionPool.BalancedFive | services/ai/src/little_orbit_ai/pipeline.py:162-202 | the best five, reordered, with the required mix, reading light, reflective, reflective, deeper, deeper |
| QuestionPool.OrderIsAStableSort | services/ai/src/little_orbit_ai/pipeline.py:205-238 | the order is the stable sort by the three ranks |
| QuestionPool.RankIsTheTriple | services/ai/src/little_orbit_ai/pipeline.py:231-238 | the rank compares as depth, then category, then kind |
| QuestionPool.SortedMixIsALadder | services/ai/src/little_orbit_ai/pipeline.py:205-252 | a sorted admissible day climbs from light to deeper |
| QuestionPool.ScoreIsBounded | services/ai/src/little_orbit_ai/pipeline.py:173-189 | every five score between -204 and 220, and 220 exactly for five generated questions of five kinds and five categories with a light one |
| QuestionPool.ScoreOfFive | services/ai/src/little_orbit_ai/pipeline.py:173-189 | the score in terms of the kinds, categories and generated questions present and of the most frequent kind and category |
| QuestionPool.AdmissibleWhenMixPossible | services/ai/src/little_orbit_ai/pipeline.py:241-252 | an admissible five exists if and only if the counts of the six role and depth pairs among the first fourteen allow one |
| QuestionPool.FiveSlotsMeetTheMix | services/ai/src/little_orbit_ai/pipeline.py:255-273 | the first five fallback slots meet the required mix |
| QuestionPool.FallbackIsAdmissible | services/ai/src/little_orbit_ai/pipeline.py:106-145 | with at most nine generated questions the first five fallbacks are an admissible choice inside the searched fourteen |
| QuestionPool.FillFromBank | services/ai/src/little_orbit_ai/pipeline.py:108-126 | goes through the bank once until the pool holds fourteen |
| QuestionPool.FillingIsComplete | services/ai/src/little_orbit_ai/pipeline.py:108-126 | every filling is a reviewed question dressed for its slot, safe, new and not recent; below fourteen no usable identity is left out |
| QuestionPool.FillingTakesTheFirst | services/ai/src/little_orbit_ai/pipeline.py:108-126 | the bank is used in its order, so the first usable questions are taken |
| QuestionPool.RotationStepsByFive | services/ai/src/little_orbit_ai/pipeline.py:103-106 | the calendar starts five questions further each day and goes around the whole bank |
| QuestionPool.SlotDresses | services/ai/src/little_orbit_ai/pipeline.py:255-273 | what a slot makes of a question |
| QuestionPool.AcceptedNext | services/ai/src/little_orbit_ai/pipeline.py:66-79 | a candidate is accepted exactly when it passes against the recent prompts and those accepted before it; a refused one leaves no trace |
| QuestionPool.SelectPool | services/ai/src/little_orbit_ai/pipeline.py:50-159 | fails exactly for the stated shortage, so a stocked bank means it cannot; strict recovery publishes only generated questions; whatever is published is the best day, with three themed questions, climbing from light to deeper, and the calendar's intimacy question when none was generated |
| QuestionPool.TenWithoutDeeperFail | services/ai/src/little_orbit_ai/pipeline.py:106-145 | ten or more generated questions, none deeper, make selection fail whatever the bank holds |
| LightBatchCase.TenLightQuestionsFail | services/ai/src/little_orbit_ai/pipeline.py:70-145 | ten unlike, well-formed general questions for which it fails as soon as the rules accept them in turn |
| LightBatchCase.TheTenPassStrictRules | services/ai/src/little_orbit_ai/safety.py:58-82 | rules that want the source's form of a question and refuse every seen one accept these ten |
| Reserve.GeneralWalkIsABijection | services/ai/src/little_orbit_ai/reserve.py:368-379 | for any number of contexts, indices and pairs correspond one to one, with the inverse given |
| Reserve.NeighboursDiffer | services/ai/src/little_orbit_ai/reserve.py:368-379 | any two of five cyclically consecutive entries differ in lens and context |
| Reserve.IntimacyWalkIsInjectiveUnless | services/ai/src/little_orbit_ai/reserve.py:406-411 | the intimacy walk repeats a pair if and only if five divides the stride |
| Reserve.IntimacyWalkReaches | services/ai/src/little_orbit_ai/reserve.py:406-411 | otherwise every pair has its place |
| Reserve.GeneralEntries | services/ai/src/little_orbit_ai/reserve.py:368-379 | the 1,825 entries hold every pair once and keep neighbours apart |
| Reserve.IntimacyEntries | services/ai/src/little_orbit_ai/reserve.py:406-425 | the 365 entries hold every pair once |
| EnvironmentRebuild.AssignedMeansAssignmentLine | infra/scripts/migration_transport.py:15 | the matcher accepts exactly the assignment lines and reads their name |
| EnvironmentRebuild.NamesAreOfLettersAndDigits | infra/scripts/migration_transport.py:15 | a name is made of ASCII letters, digits and underscores and starts with no digit |
| EnvironmentRebuild.TerminatorsDoNotMatter | infra/scripts/migration_transport.py:15-19 | a terminator never changes what a line assigns, and only a lone CR hides a bare name |
| EnvironmentRebuild.SplitIsWhole | infra/scripts/migration_transport.py:41 | splitting yields whole lines that join back to the text |
| EnvironmentRebuild.JoinThenSplit | infra/scripts/migration_transport.py:41-49 | joining and splitting merges exactly the pairs of a lone CR and an empty LF line |
| EnvironmentRebuild.EnvironmentOverrides | infra/scripts/migration_transport.py:22-35 | accepts exactly one or more distinct assignments |
| EnvironmentRebuild.NonEmptyNext | infra/scripts/migration_transport.py:23 | exactly the empty override lines are dropped, and the others stay in their order |
| EnvironmentRebuild.RepeatIsRefused | infra/scripts/migration_transport.py:38-49 | a source is refused exactly when two of its lines define the same fixed name |
| EnvironmentRebuild.RemoveEnvironmentOverrides | infra/scripts/migration_transport.py:38-49 | removes exactly the fixed definitions, and refuses exactly a repeated one |
| EnvironmentRebuild.RebuildEnvironment | infra/scripts/migration_transport.py:62-71 | succeeds exactly for usable overrides and no repeated definition, so its final check cannot fail; every fixed name is assigned once |
| EnvironmentRebuild.EachNameOnce | infra/scripts/migration_transport.py:52-59 | each fixed name is assigned exactly once, whatever the source's line ends |
| EnvironmentRebuild.OtherLinesAreKept | infra/scripts/migration_transport.py:62-71 | the result is the other lines in order plus the replacements if and only if removal leaves no clashing pair |
| EnvironmentRebuild.RebuildIsIdempotent | infra/scripts/migration_transport.py:62-71 | rebuilding again changes nothing if and only if no two kept lines fuse into a fixed name |
| EnvironmentRebuild.OrdinaryTextRebuilds | infra/scripts/migration_transport.py:62-71 | for LF and CRLF text both hold |
| EnvironmentRebuild.LoneCrBreaksRebuilding | infra/scripts/migration_transport.py:38-49 | a family of texts with a lone CR for which both fail |

## Left out

- Shell quoting, SSH, Docker, tar streams, PostgreSQL dump and restore, file modes and ownership: each is replaced by its abstract effect, success or failure; inventories and hashes are equality of contents.
- A remote script that goes on running after its SSH connection is lost: an effect happens before its caller's next one or not at all.
- Starting a container that no longer exists: assumed away.
- Two copies of the media worker sharing an expired attachment lease: attachment jobs carry no token, so the accounting results hold for the single worker the program starts.
- AttachmentStorage.Store.ScanPendingOnce: requests in between read nothing that another transaction has since made untrue; when they do, the two equivalences for deletions and last chunks say what happens.
- AttachmentStorage.Store.FinishUpload: when an outdated last chunk hits the very row the worker holds, only the counter is stated, not the row's further fate.
- Upload progress below the last chunk, idempotent upload retries, and the order of a sender's chunks: only the last chunk is a step, given its offset and the length of the staging file.
- Files on disk behind attachment rows, and the removal of orphaned files.
- Database isolation below whole transactions, attachment jobs skipped because another session holds them, and clocks that run backwards within one transaction.
- AiWorkQueue.LatestDueDateIsUnique: stated on local wall-clock time; the repeated and missing hours of daylight saving are not modelled.
- `lease_is_current`, runtime limits, summaries of generation runs, model unloading and GPU probe parsing.
- Note authorization, activity records and notifications around an edit, and edits of a note that no longer exists.
- Text of AddressLeases hostnames and addresses: an address is the number of its text in sorted order, and which addresses are unsafe or public is a parameter.
- The safety and duplicate rules of question selection: a parameter; so are prompts beyond equality and the schema checks of a published pool.
- Wording of the reserve: an entry is its pair of lens and context.
- Array-recovery profile validators, security policy parsing, release signing, authentication, mail, the web and Android clients.
