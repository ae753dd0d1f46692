/**
 The orchestrator: one forward or rollback run with its in-process recovery, the two
 recovery commands, and a driver that interleaves any number of them.
 */
module DirectMigration {
  import opened Wrappers
  import opened MigrationInventory
  import opened MigrationWorld
  import opened MigrationHosts

  datatype SourceStatus = Unchanged | StillFrozen | Healthy | HealthyJournalPending | RestartFailed

  datatype RecoveryRecord = RecoveryRecord(phase: Phase, cleanup: Cleanup, source: SourceStatus)

  /** Until when database sessions that a freeze did not stop may write to a source on its way to a commit. */
  datatype Sessions = Shut | UntilLastReading | Anytime

  /** What the preparation leaves at the destination, and what the streams then deliver. */
  datatype Transfer = Transfer(prepared: Copy, streamed: Inventory)

  /** What a run must find before it may touch anything. */
  predicate Ready(direction: Direction, world: World) {
    match direction
    case Forward => world.journal.Absent? && world.unraid == EMPTY_COPY
    case Rollback => && world.journal.Committed? && world.unraidWriters == WRITERS && !world.oldProjectUp
                     && !world.rollbackProject && world.rollback == EMPTY_COPY
  }

  /** At some moment from `begin` on nothing ran and the source held exactly this. */
  ghost predicate FrozenWith(trace: seq<Moment>, begin: nat, direction: Direction, data: Inventory) {
    exists i :: begin <= i < |trace| && Frozen(trace[i].world)
                && Content(trace[i].world, Source(direction)) == Some(data)
  }

  /** What a run has done so far; recovery reads nothing else. */
  class MigrationRun {
    const direction: Direction
    var guard: Option<Token>
    var freezeAttempted: bool
    var destinationOwned: bool

    constructor (direction: Direction)
      ensures this.direction == direction
      ensures guard.None? && !freezeAttempted && !destinationOwned
    {
      this.direction := direction;
      guard := None;
      freezeAttempted := false;
      destinationOwned := false;
    }
  }

  /** The run wrote its own intent into the journal. */
  predicate Began(run: MigrationRun, world: World)
    reads run
  {
    run.guard.Some? && Owns(world.journal, run.direction, run.guard.value)
  }

  /**
   How the run's fields describe the journal: before the freeze nothing of the source was
   stopped, and from the freeze on the journal is this run's own.
   */
  ghost predicate Describes(run: MigrationRun, world: World)
    reads run
  {
    && (run.freezeAttempted ==> run.guard.Some? && (run.direction.Rollback? ==> run.destinationOwned))
    && (run.freezeAttempted ==> Journaled(run.direction, run.guard.value, world.journal))
  }

  /** Every journal value a run that reached its freeze may leave behind. */
  ghost predicate Journaled(direction: Direction, guard: Token, journal: Journal) {
    match direction
    case Forward => journal in {Preparing(guard), Committed(guard), ForwardCleaned(guard)}
    case Rollback => || Owns(journal, Rollback, guard)
                     || (journal.RollbackCommitted? && journal.guard == guard)
  }

  /** The evidence a failed run reports is true of the hosts. */
  ghost predicate Truthful(record: RecoveryRecord, direction: Direction, world: World) {
    && (record.phase.CommittedPhase? ==> world.journal.Committed?)
    && (record.phase.RollbackCommittedPhase? ==> world.journal.RollbackCommitted?)
    && (record.phase.NoJournal? ==> world.journal.Absent?)
    && (record.phase.ForwardCleanedPhase? ==>
          world.unraid == EMPTY_COPY
          && (world.journal.ForwardCleaned?
              || (world.journal.Absent? && record.source in {Healthy, HealthyJournalPending})))
    && (record.cleanup.NotNeeded? <==> record.phase.NotStarted? || record.phase.NoJournal?)
    && (record.cleanup.Erased? ==> world.rollback == EMPTY_COPY && !world.rollbackProject)
    && (record.source.StillFrozen? || record.source.RestartFailed? ==> !world.journal.Absent?)
    && (record.source.Healthy? || record.source.HealthyJournalPending?
        ==> Writers(world, Source(direction)) == WRITERS
            && Authority(world.journal) == Source(direction))
    && (record.source.Healthy? ==> if direction == Forward then world.journal.Absent? else world.journal.Committed?)
    && (record.source.HealthyJournalPending? ==>
          if direction == Forward then world.journal.ForwardCleaned? || world.journal.Absent?
          else world.journal.RollbackPreparing? || world.journal.Committed?)
  }

  /**
   Require every writer of a healthy source before anything else. Until its intent is journaled a run
   leaves everything as it was.
   */
  method PrepareRun(hosts: Hosts, run: MigrationRun, prepared: Copy, calm: bool) returns (o: Outcome)
    requires hosts.Valid() && hosts.alive && run.guard.None? && !run.freezeAttempted && !run.destinationOwned
    modifies hosts`now, hosts`trace, hosts`alive, hosts`failures, hosts`checks, run
    ensures hosts.Valid() && old(hosts.trace) <= hosts.trace
    ensures (hosts.alive <==> !o.Died?) && (o.Done? ==> hosts.failures == old(hosts.failures))
    ensures !run.freezeAttempted
    ensures o.Done? ==> hosts.checks == old(hosts.checks) + [SourceProved]
    ensures o.Done? && run.direction.Rollback? ==> hosts.now.rollbackProject
    ensures o.Done? ==> Ready(run.direction, old(hosts.now))
    ensures o.Done? ==> Began(run, hosts.now) && (run.direction.Rollback? ==> run.destinationOwned)
                        && DestinationCopy(hosts.now, run.direction) == prepared
    ensures run.destinationOwned ==> run.direction.Rollback? && Began(run, hosts.now)
    ensures run.guard.Some? ==> run.guard.value >= old(hosts.now).nextToken
    ensures if Began(run, hosts.now) then Ready(run.direction, old(hosts.now))
            else OnlyData(old(hosts.now).(nextToken := hosts.now.nextToken), hosts.now)
    ensures run.direction.Rollback? && Began(run, hosts.now) ==>
              && hosts.now.journal.forward == old(hosts.now).journal.token
              && (!run.destinationOwned ==> hosts.now.rollback == EMPTY_COPY && !hosts.now.rollbackProject)
    ensures calm ==> (o.Done? <==> Ready(run.direction, old(hosts.now))) && !o.Died?
  {
    o := hosts.Check(SourceProved, calm, true);
    if !o.Done? {
      return;
    }
    if Writers(hosts.now, Source(run.direction)) != WRITERS {
      return Raised;
    }
    if run.direction == Forward {
      o := PrepareForward(hosts, run, prepared, calm);
      return;
    }
    if hosts.now.oldProjectUp || hosts.now.productionWriters != {} {
      return Raised;
    }
    if hosts.now.rollbackProject || hosts.now.rollback != EMPTY_COPY {
      return Raised;
    }
    o := PrepareRollback(hosts, run, prepared, calm);
  }

  method PrepareForward(hosts: Hosts, run: MigrationRun, prepared: Copy, calm: bool) returns (o: Outcome)
    requires hosts.Valid() && hosts.alive && run.direction.Forward? && run.guard.None?
    modifies hosts`now, hosts`trace, hosts`alive, hosts`failures, run`guard
    ensures hosts.Valid() && old(hosts.trace) <= hosts.trace
    ensures (hosts.alive <==> !o.Died?) && (o.Done? ==> hosts.failures == old(hosts.failures))
    ensures o.Done? ==> Began(run, hosts.now) && hosts.now.unraid == prepared
    ensures run.guard.Some? && run.guard.value >= old(hosts.now).nextToken
    ensures if Began(run, hosts.now) then old(hosts.now).journal.Absent? && old(hosts.now).unraid == EMPTY_COPY
            else OnlyData(old(hosts.now).(nextToken := hosts.now.nextToken), hosts.now)
    ensures calm ==> !o.Died?
    ensures calm && old(hosts.now).journal.Absent? && old(hosts.now).unraid == EMPTY_COPY ==> o.Done?
  {
    var guard := hosts.NewGuard();
    run.guard := Some(guard);
    o := hosts.BeginFreshTarget(guard, calm);
    if !o.Done? {
      return;
    }
    o := hosts.ChangeDestination(Forward, prepared, calm, true);
  }

  method PrepareRollback(hosts: Hosts, run: MigrationRun, prepared: Copy, calm: bool) returns (o: Outcome)
    requires hosts.Valid() && hosts.alive && run.direction.Rollback? && run.guard.None? && !run.destinationOwned
    requires hosts.now.unraidWriters == WRITERS && !hosts.now.oldProjectUp
    requires hosts.now.rollback == EMPTY_COPY && !hosts.now.rollbackProject
    modifies hosts`now, hosts`trace, hosts`alive, hosts`failures, run`guard, run`destinationOwned
    ensures hosts.Valid() && old(hosts.trace) <= hosts.trace
    ensures (hosts.alive <==> !o.Died?) && (o.Done? ==> hosts.failures == old(hosts.failures))
    ensures o.Done? ==> run.destinationOwned && hosts.now.rollback == prepared && hosts.now.rollbackProject
    ensures run.destinationOwned ==> Began(run, hosts.now)
    ensures run.guard.Some? && run.guard.value >= old(hosts.now).nextToken
    ensures if Began(run, hosts.now)
            then old(hosts.now).journal.Committed? && hosts.now.journal.forward == old(hosts.now).journal.token
            else OnlyData(old(hosts.now).(nextToken := hosts.now.nextToken), hosts.now)
    ensures Began(run, hosts.now) && !run.destinationOwned ==>
              hosts.now.rollback == EMPTY_COPY && !hosts.now.rollbackProject
    ensures calm ==> (o.Done? <==> old(hosts.now).journal.Committed?) && !o.Died?
  {
    var guard := hosts.NewGuard();
    run.guard := Some(guard);
    o := hosts.BeginRollback(guard, calm);
    if !o.Done? {
      return;
    }
    run.destinationOwned := true;
    o := hosts.OpenRollbackProject(calm);
    if !o.Done? {
      return;
    }
    o := hosts.ChangeDestination(Rollback, prepared, calm, true);
  }

  /** Read an inventory while stray sessions may still interfere. */
  method SourceInventory(hosts: Hosts, direction: Direction, calm: bool, stray: bool)
    returns (o: Outcome, seen: Inventory)
    requires hosts.Valid() && hosts.alive && Source(direction) == Authority(hosts.now.journal)
    modifies hosts`now, hosts`trace, hosts`alive, hosts`failures
    ensures hosts.Valid() && old(hosts.trace) <= hosts.trace
    ensures (hosts.alive <==> !o.Died?) && (o.Done? ==> hosts.failures == old(hosts.failures))
    ensures OnlyData(old(hosts.now), hosts.now.(read := old(hosts.now).read))
    ensures Quiet(old(hosts.now)) && !stray ==> hosts.now == old(hosts.now).(read := hosts.now.read)
    ensures Content(hosts.now, Source(direction)) == Some(seen) && (o.Done? ==> hosts.now.read == Some(seen))
    ensures calm ==> o.Done?
  {
    o, seen := hosts.ReadSource(calm, stray);
  }

  /** Stream the database into place and both trees into staging; what arrives is not trusted. */
  method StreamAll(hosts: Hosts, direction: Direction, streamed: Inventory, calm: bool, stray: bool)
    returns (o: Outcome)
    requires hosts.Valid() && hosts.alive && MayBuild(hosts.now.journal, direction)
    modifies hosts`now, hosts`trace, hosts`alive, hosts`failures
    ensures hosts.Valid() && old(hosts.trace) <= hosts.trace
    ensures (hosts.alive <==> !o.Died?) && (o.Done? ==> hosts.failures == old(hosts.failures))
    ensures OnlyDestination(old(hosts.now), hosts.now, direction)
    ensures Quiet(old(hosts.now)) && !stray
            ==> hosts.now == WithDestination(old(hosts.now), direction, DestinationCopy(hosts.now, direction))
    ensures o.Done? ==> DestinationCopy(hosts.now, direction)
                        == DestinationCopy(old(hosts.now), direction).(
                             db := Some(streamed.database), attachmentStage := Some(streamed.attachments),
                             releaseStage := Some(streamed.releases))
    ensures calm ==> o.Done?
  {
    o := hosts.ChangeDestination(
      direction, DestinationCopy(hosts.now, direction).(db := Some(streamed.database)), calm, stray);
    if !o.Done? {
      return;
    }
    o := hosts.ChangeDestination(
      direction, DestinationCopy(hosts.now, direction).(attachmentStage := Some(streamed.attachments)), calm, stray);
    if !o.Done? {
      return;
    }
    o := hosts.ChangeDestination(
      direction, DestinationCopy(hosts.now, direction).(releaseStage := Some(streamed.releases)), calm, stray);
  }

  /**
   Freeze the source, stream every part into staging, and accept only a destination that
   matches the source as read both before and after the streaming.
   */
  method FreezeAndStream(hosts: Hosts, run: MigrationRun, streamed: Inventory, sessions: Sessions, calm: bool)
    returns (o: Outcome, before: Inventory, after: Inventory)
    requires hosts.Valid() && hosts.alive && run.guard.Some? && Owns(hosts.now.journal, run.direction, run.guard.value)
    requires run.direction.Rollback? ==> run.destinationOwned
    modifies hosts`now, hosts`trace, hosts`alive, hosts`failures, hosts`checks, run`freezeAttempted
    ensures hosts.Valid() && old(hosts.trace) <= hosts.trace
    ensures (hosts.alive <==> !o.Died?) && (o.Done? ==> hosts.failures == old(hosts.failures))
    ensures hosts.now.journal == old(hosts.now).journal && run.freezeAttempted
    ensures o.Done? ==>
              hosts.checks == old(hosts.checks) + [SessionsAbsent, WorkAbsent, StagingSealed, SessionsAbsent]
    ensures o.Done? ==> && Frozen(hosts.now) && hosts.now.read == Some(before)
                        && Content(hosts.now, Source(run.direction)) == Some(before)
                        && Staged(DestinationCopy(hosts.now, run.direction)) == Some(after)
                        && Image(run.direction, before, after)
                        && (NoLiveRoots(DestinationCopy(hosts.now, run.direction))
                            <==> NoLiveRoots(DestinationCopy(old(hosts.now), run.direction)))
    ensures calm && sessions.Shut? ==>
              && Frozen(hosts.now) && Content(hosts.now, Source(run.direction)) == Some(before)
              && (o.Done? <==> Image(run.direction, before, streamed))
    ensures calm ==> !o.Died?
  {
    before, after := *, *;
    run.freezeAttempted := true;
    var direction, stray := run.direction, sessions != Shut;
    o := FreezeSource(hosts, direction, run.guard.value, calm, stray);
    if !o.Done? {
      return;
    }
    o, before := SourceInventory(hosts, direction, calm, stray);
    if !o.Done? {
      return;
    }
    o := StreamAll(hosts, direction, streamed, calm, stray);
    if !o.Done? {
      return;
    }
    o, after := AcceptStaged(hosts, run, before, calm, stray);
  }

  /** Stop the source's writers, and prove that nothing else is at work on it. */
  method FreezeSource(hosts: Hosts, direction: Direction, guard: Token, calm: bool, stray: bool) returns (o: Outcome)
    requires hosts.Valid() && hosts.alive && Owns(hosts.now.journal, direction, guard)
    modifies hosts`now, hosts`trace, hosts`alive, hosts`failures, hosts`checks
    ensures hosts.Valid() && old(hosts.trace) <= hosts.trace
    ensures (hosts.alive <==> !o.Died?) && (o.Done? ==> hosts.failures == old(hosts.failures))
    ensures hosts.now.journal == old(hosts.now).journal
    ensures DestinationCopy(hosts.now, direction) == DestinationCopy(old(hosts.now), direction)
    ensures o.Done? ==> Frozen(hosts.now) && hosts.checks == old(hosts.checks) + [SessionsAbsent, WorkAbsent]
    ensures calm ==> o.Done?
  {
    o := hosts.StopWriters(direction, guard, calm);
    if !o.Done? {
      return;
    }
    o := hosts.Check(SessionsAbsent, calm, stray);
    if !o.Done? {
      return;
    }
    o := hosts.Check(WorkAbsent, calm, stray);
  }

  /** Read what was staged, compare it, and read the source again. */
  method AcceptStaged(hosts: Hosts, run: MigrationRun, before: Inventory, calm: bool, stray: bool)
    returns (o: Outcome, after: Inventory)
    requires hosts.Valid() && hosts.alive && Source(run.direction) == Authority(hosts.now.journal)
    modifies hosts`now, hosts`trace, hosts`alive, hosts`failures, hosts`checks
    ensures hosts.Valid() && old(hosts.trace) <= hosts.trace
    ensures (hosts.alive <==> !o.Died?) && (o.Done? ==> hosts.failures == old(hosts.failures))
    ensures OnlyData(old(hosts.now), hosts.now.(read := old(hosts.now).read))
    ensures Quiet(old(hosts.now)) && !stray ==> hosts.now == old(hosts.now).(read := hosts.now.read)
    ensures o.Done? ==> && hosts.now.read == Some(before)
                        && Content(hosts.now, Source(run.direction)) == Some(before)
                        && Staged(DestinationCopy(hosts.now, run.direction)) == Some(after)
                        && Image(run.direction, before, after)
    ensures o.Done? ==> hosts.checks == old(hosts.checks) + [StagingSealed, SessionsAbsent]
    ensures var staged := Staged(DestinationCopy(old(hosts.now), run.direction));
            calm && Quiet(old(hosts.now)) && !stray && Content(old(hosts.now), Source(run.direction)) == Some(before)
            ==> (o.Done? <==> staged.Some? && Image(run.direction, before, staged.value))
    ensures calm ==> !o.Died?
  {
    after := *;
    o := hosts.Check(StagingSealed, calm, stray);
    if !o.Done? {
      return;
    }
    var staged := Staged(DestinationCopy(hosts.now, run.direction));
    if staged.None? {
      return Raised, after;
    }
    after := staged.value;
    var matching := AssertDestinationMatching(before, after, run.direction);
    if !matching {
      return Raised, after;
    }
    o := ReadAgain(hosts, run.direction, before, calm, stray);
  }

  /** The source must still read as before. */
  method ReadAgain(hosts: Hosts, direction: Direction, before: Inventory, calm: bool, stray: bool)
    returns (o: Outcome)
    requires hosts.Valid() && hosts.alive && Source(direction) == Authority(hosts.now.journal)
    modifies hosts`now, hosts`trace, hosts`alive, hosts`failures, hosts`checks
    ensures hosts.Valid() && old(hosts.trace) <= hosts.trace
    ensures (hosts.alive <==> !o.Died?) && (o.Done? ==> hosts.failures == old(hosts.failures))
    ensures OnlyData(old(hosts.now), hosts.now.(read := old(hosts.now).read))
    ensures Quiet(old(hosts.now)) && !stray ==> hosts.now == old(hosts.now).(read := hosts.now.read)
    ensures o.Done? ==> hosts.now.read == Content(hosts.now, Source(direction)) == Some(before)
    ensures o.Done? ==> hosts.checks == old(hosts.checks) + [SessionsAbsent]
    ensures calm && Quiet(old(hosts.now)) && !stray && Content(old(hosts.now), Source(direction)) == Some(before)
            ==> o.Done?
    ensures calm ==> !o.Died?
  {
    o := hosts.Check(SessionsAbsent, calm, stray);
    if !o.Done? {
      return;
    }
    var again;
    o, again := SourceInventory(hosts, direction, calm, stray);
    if !o.Done? {
      return;
    }
    var matching := AssertMatching(before, again);
    if !matching {
      return Raised;
    }
  }

  /** The lock is proved before every promotion, and again before a rollback's commit. */
  function LockProofs(direction: Direction): seq<Check> {
    if direction == Forward then [LockHeld] else [LockHeld, LockHeld]
  }

  /**
   Promote under a proven lock; a rollback then persists its own commit. A stray session may write to
   the source until then: the destination serves an image of the source as last read, so exactly what
   was written since is missing from it, and stays at the source.
   */
  method CommitRun(hosts: Hosts, run: MigrationRun, ghost before: Inventory, ghost after: Inventory,
                   calm: bool, stray: bool)
    returns (o: Outcome)
    requires hosts.Valid() && hosts.alive && run.guard.Some? && Owns(hosts.now.journal, run.direction, run.guard.value)
    requires Frozen(hosts.now) && hosts.now.read == Some(before)
    requires Staged(DestinationCopy(hosts.now, run.direction)) == Some(after)
    requires Image(run.direction, before, after)
    modifies hosts
    ensures hosts.Valid() && old(hosts.trace) <= hosts.trace
    ensures (hosts.alive <==> !o.Died?) && (o.Done? ==> hosts.failures == old(hosts.failures))
    ensures Journaled(run.direction, run.guard.value, hosts.now.journal)
    ensures Frozen(hosts.now)
    ensures o.Done? ==> Authority(hosts.now.journal) == Destination(run.direction) && hosts.held
    ensures Authority(hosts.now.journal) == Destination(run.direction)
            ==> Served(hosts.now, run.direction, before)
                && Content(hosts.now, Destination(run.direction)) == Some(after)
                && (!stray ==> Content(hosts.now, Source(run.direction)) == Content(old(hosts.now), Source(run.direction)))
    ensures hosts.now.journal == old(hosts.now).journal
            || Authority(hosts.now.journal) == Destination(run.direction)
    ensures o.Done? ==> hosts.checks == old(hosts.checks) + LockProofs(run.direction)
    ensures hosts.held ==> old(hosts.held)
    ensures calm && old(hosts.held) ==> (o.Done? <==> NoLiveRoots(DestinationCopy(old(hosts.now), run.direction)))
    ensures calm && old(hosts.held) ==> !o.Died? && hosts.held
    ensures calm && old(hosts.held) && !o.Done? ==> Authority(hosts.now.journal) == Source(run.direction)
  {
    var ok := hosts.AssertHeld(calm);
    if !ok {
      return Raised;
    }
    if run.direction == Forward {
      o := hosts.PromoteRemote(run.guard.value, before, after, calm, stray);
      ImageDeterminesSource(Forward, before, hosts.now.production, after);
      return;
    }
    o := CommitRollback(hosts, run.guard.value, after, calm, stray);
  }

  /** Rename the copy into place, prove the lock again, and record the commit. */
  method CommitRollback(hosts: Hosts, guard: Token, ghost image: Inventory, calm: bool, stray: bool)
    returns (o: Outcome)
    requires hosts.Valid() && hosts.alive && Frozen(hosts.now) && Owns(hosts.now.journal, Rollback, guard)
    requires hosts.now.read == Some(image) && Staged(hosts.now.rollback) == Some(image)
    modifies hosts
    ensures hosts.Valid() && old(hosts.trace) <= hosts.trace
    ensures (hosts.alive <==> !o.Died?) && (o.Done? ==> hosts.failures == old(hosts.failures))
    ensures hosts.now
            == old(hosts.now).(journal := hosts.now.journal, unraid := hosts.now.unraid, rollback := hosts.now.rollback)
    ensures hosts.now.journal in {old(hosts.now).journal, RollbackCommitted(guard, old(hosts.now).journal.forward)}
    ensures o.Done? ==> hosts.now.journal.RollbackCommitted? && hosts.held
    ensures o.Done? ==> hosts.checks == old(hosts.checks) + [LockHeld]
    ensures hosts.now.journal.RollbackCommitted? ==> Live(hosts.now.rollback) == Some(image) && Live(hosts.now.unraid).Some?
    ensures !stray ==> hosts.now.unraid == old(hosts.now).unraid
    ensures hosts.held ==> old(hosts.held)
    ensures calm && old(hosts.held) ==>
              && (o.Done? <==> NoLiveRoots(old(hosts.now).rollback)) && !o.Died? && hosts.held
              && (!o.Done? ==> hosts.now.journal == old(hosts.now).journal)
  {
    var refused: bool := *;
    o := hosts.RenameSiblings(Rollback, image, refused && !calm, calm, stray);
    if !o.Done? {
      return;
    }
    var ok := hosts.AssertHeld(calm);
    if !ok {
      return Raised;
    }
    o := hosts.MarkRollbackCommitted(guard, image, calm, stray);
  }

  /** The destination serves an image of what was read, which is one of the source unless that changed since. */
  ghost predicate Served(world: World, direction: Direction, read: Inventory) {
    var source, served := Content(world, Source(direction)), Content(world, Destination(direction));
    && source.Some? && served.Some? && Image(direction, read, served.value)
    && (Image(direction, source.value, served.value) <==> source.value == read)
  }

  /** A single attempt at forward cleanup; anything unreadable is indeterminate. */
  method RecoverForwardOnce(hosts: Hosts, guard: Option<Token>, calm: bool)
    returns (died: bool, phase: Phase, cleanup: Cleanup, safe: bool)
    requires hosts.Valid() && hosts.alive
    modifies hosts`now, hosts`trace, hosts`alive, hosts`failures
    ensures hosts.Valid() && old(hosts.trace) <= hosts.trace
    ensures died <==> !hosts.alive
    ensures Authority(hosts.now.journal) == Authority(old(hosts.now).journal)
    ensures guard.None? ==> phase.NotStarted? && safe && hosts.now == old(hosts.now)
    ensures guard.Some? ==>
              && (hosts.now.journal == old(hosts.now).journal
                  || (old(hosts.now).journal == Preparing(guard.value)
                      && hosts.now.journal == ForwardCleaned(guard.value)))
              && !phase.NotStarted?
              && (phase.CommittedPhase? ==> hosts.now.journal == Committed(guard.value))
              && (phase.NoJournal? ==> hosts.now.journal.Absent?)
              && (phase.ForwardCleanedPhase? ==> hosts.now.journal == ForwardCleaned(guard.value))
              && (safe <==> phase.NoJournal? || phase.ForwardCleanedPhase?)
              && (old(hosts.now).journal != Preparing(guard.value) ==> OnlyData(old(hosts.now), hosts.now))
    ensures cleanup.NotNeeded? <==> phase.NotStarted? || phase.NoJournal?
    ensures cleanup.RestartRequired? <==> phase.ForwardCleanedPhase?
    ensures !cleanup.Erased?
    ensures died ==> phase.Indeterminate?
    ensures SameWriters(old(hosts.now), hosts.now)
    ensures !phase.RollbackCommittedPhase? && !phase.RollbackPreparingPhase?
    ensures calm && guard.Some? && Journaled(Forward, guard.value, old(hosts.now).journal) ==> !died && !phase.Indeterminate?
    ensures calm ==> !died
  {
    died := false;
    if guard.None? {
      return false, NotStarted, NotNeeded, true;
    }
    var o: Outcome;
    o, phase, cleanup, safe := hosts.RecoverFailedTarget(guard.value, calm);
    died := o.Died?;
    if !o.Done? {
      phase, cleanup, safe := Indeterminate, NotRun, false;
    }
  }

  /**
   Clean the target; without a live lock holder the source is never declared safe. When the holder is lost
   during an unclear first attempt there is a second one, whose commands all work if `again`.
   */
  method RecoverForward(hosts: Hosts, guard: Option<Token>, calm: bool, again: bool)
    returns (died: bool, phase: Phase, cleanup: Cleanup, safe: bool)
    requires hosts.Valid() && hosts.alive
    modifies hosts
    ensures hosts.Valid() && old(hosts.trace) <= hosts.trace
    ensures died <==> !hosts.alive
    ensures Authority(hosts.now.journal) == Authority(old(hosts.now).journal)
    ensures guard.None? ==> phase.NotStarted? && hosts.now == old(hosts.now)
    ensures guard.Some? ==>
              && (hosts.now.journal == old(hosts.now).journal
                  || (old(hosts.now).journal == Preparing(guard.value)
                      && hosts.now.journal == ForwardCleaned(guard.value)))
              && !phase.NotStarted?
              && (phase.CommittedPhase? ==> hosts.now.journal == Committed(guard.value))
              && (safe ==> hosts.held)
              && (phase.NoJournal? ==> hosts.now.journal.Absent?)
              && (phase.ForwardCleanedPhase? ==> hosts.now.journal == ForwardCleaned(guard.value))
              && (safe ==> phase.NoJournal? || phase.ForwardCleanedPhase?)
              && (old(hosts.now).journal != Preparing(guard.value) ==> OnlyData(old(hosts.now), hosts.now))
    ensures cleanup.NotNeeded? <==> phase.NotStarted? || phase.NoJournal?
    ensures cleanup.RestartRequired? <==> phase.ForwardCleanedPhase?
    ensures !cleanup.Erased?
    ensures SameWriters(old(hosts.now), hosts.now)
    ensures hosts.held ==> old(hosts.held)
    ensures !phase.RollbackCommittedPhase? && !phase.RollbackPreparingPhase?
    ensures calm && old(hosts.held) && guard.Some? && Journaled(Forward, guard.value, old(hosts.now).journal)
            ==> !died && hosts.held && (safe <==> !old(hosts.now).journal.Committed?)
    ensures !died && guard.Some? && hosts.held ==>
              hosts.checks == old(hosts.checks) + if phase.Indeterminate? then [LockHeld, LockHeld] else [LockHeld]
    ensures again && !died && hosts.checks == old(hosts.checks) + [LockHeld] && !hosts.held
            && guard.Some? && Journaled(Forward, guard.value, old(hosts.now).journal)
            ==> !phase.Indeterminate?
    ensures calm ==> !died
  {
    var holderAlive := hosts.AssertHeld(calm);
    died, phase, cleanup, safe := RecoverForwardOnce(hosts, guard, calm);
    if died {
      return;
    }
    if phase != Indeterminate || !holderAlive {
      safe := safe && holderAlive;
      return;
    }
    var stillAlive := hosts.AssertHeld(calm);
    if stillAlive {
      return;
    }
    died, phase, cleanup, safe := RecoverForwardOnce(hosts, guard, calm || again);
    safe := false;
  }

  /** Classify and clean only this rollback, and only while the lock holder answers. */
  method RecoverRollback(hosts: Hosts, guard: Option<Token>, destinationOwned: bool, calm: bool)
    returns (died: bool, phase: Phase, cleanup: Cleanup, safe: bool)
    requires hosts.Valid() && hosts.alive
    modifies hosts
    ensures hosts.Valid() && old(hosts.trace) <= hosts.trace
    ensures died <==> !hosts.alive
    ensures hosts.now.journal == old(hosts.now).journal
    ensures destinationOwned && safe ==> guard.Some? && phase.RollbackPreparingPhase? && cleanup.Erased?
                                         && Owns(hosts.now.journal, Rollback, guard.value)
                                         && hosts.now.rollback == EMPTY_COPY && !hosts.now.rollbackProject
    ensures !destinationOwned ==> safe && hosts.now == old(hosts.now)
    ensures !(guard.Some? && Owns(old(hosts.now).journal, Rollback, guard.value)) ==> OnlyData(old(hosts.now), hosts.now)
    ensures destinationOwned && (safe || cleanup.Erased?) ==> hosts.held
    ensures SameWriters(old(hosts.now), hosts.now)
    ensures destinationOwned && !hosts.held ==> OnlyData(old(hosts.now), hosts.now)
    ensures phase.NotStarted? <==> !destinationOwned
    ensures cleanup.NotNeeded? <==> !destinationOwned
    ensures cleanup.Erased? ==> hosts.now.rollback == EMPTY_COPY && !hosts.now.rollbackProject
    ensures hosts.held ==> old(hosts.held)
    ensures phase.CommittedPhase? ==> hosts.now.journal.Committed?
    ensures phase.RollbackCommittedPhase? ==> hosts.now.journal.RollbackCommitted?
    ensures !phase.ForwardCleanedPhase? && !phase.NoJournal?
    ensures calm && old(hosts.held) && destinationOwned && guard.Some?
            && Journaled(Rollback, guard.value, old(hosts.now).journal)
            ==> !died && hosts.held && (safe <==> !old(hosts.now).journal.RollbackCommitted?)
    ensures calm ==> !died
  {
    died := false;
    if !destinationOwned {
      return false, NotStarted, NotNeeded, true;
    }
    if guard.None? {
      return false, Indeterminate, NotRun, false;
    }
    var ok := hosts.AssertHeld(calm);
    if !ok {
      return false, Indeterminate, NotRun, false;
    }
    var o: Outcome;
    o, phase, cleanup, safe := hosts.RecoverFailedRollback(guard.value, calm);
    if !o.Done? {
      return o.Died?, Indeterminate, NotRun, false;
    }
    if !safe {
      return;
    }
    o := hosts.CleanRollbackDestination(calm);
    if !o.Done? {
      return o.Died?, phase, CleanupFailed, false;
    }
    cleanup, safe := Erased, true;
  }

  /** With all writers of the source back, the run's own journal is finished. */
  method CompleteJournal(hosts: Hosts, phase: Phase, guard: Option<Token>, direction: Direction, calm: bool)
    returns (died: bool, ok: bool)
    requires hosts.Valid() && hosts.alive && Writers(hosts.now, Source(direction)) == WRITERS
    requires Authority(hosts.now.journal) == Source(direction)
    requires phase.ForwardCleanedPhase? ==> direction == Forward
    requires phase.RollbackPreparingPhase? ==>
               direction == Rollback && hosts.now.rollback == EMPTY_COPY && !hosts.now.rollbackProject
    modifies hosts
    ensures hosts.Valid() && old(hosts.trace) <= hosts.trace
    ensures died <==> !hosts.alive
    ensures Writers(hosts.now, Source(direction)) == WRITERS
    ensures hosts.now.journal == old(hosts.now).journal
            || (direction == Forward && hosts.now.journal.Absent?)
            || (direction == Rollback && old(hosts.now).journal.RollbackPreparing?
                && hosts.now.journal == Committed(old(hosts.now).journal.forward))
    ensures direction == Forward ==> hosts.now.unraid == old(hosts.now).unraid
    ensures direction == Rollback ==> hosts.now.rollback == old(hosts.now).rollback
                                      && hosts.now.rollbackProject == old(hosts.now).rollbackProject
    ensures !phase.ForwardCleanedPhase? && !phase.RollbackPreparingPhase? ==> hosts.now.journal == old(hosts.now).journal
    ensures hosts.held ==> old(hosts.held)
    ensures guard.None? ==> !ok && hosts.now == old(hosts.now)
    ensures ok ==> hosts.held
    ensures ok && phase.ForwardCleanedPhase? ==> hosts.now.journal.Absent?
    ensures ok && phase.RollbackPreparingPhase? ==> hosts.now.journal.Committed?
    ensures calm && old(hosts.held) && guard.Some?
            && (phase.ForwardCleanedPhase? ==> old(hosts.now).journal == ForwardCleaned(guard.value))
            && (phase.RollbackPreparingPhase? ==> Owns(old(hosts.now).journal, Rollback, guard.value))
            ==> ok && !died
    ensures calm ==> !died
  {
    died := false;
    if guard.None? {
      return false, false;
    }
    ok := hosts.AssertHeld(calm);
    if !ok {
      return;
    }
    var o := Done;
    if phase == ForwardCleanedPhase {
      o := hosts.CompleteForward(guard, calm);
    } else if phase == RollbackPreparingPhase {
      o := hosts.CompleteRollback(guard, calm);
    }
    died, ok := o.Died?, o.Done?;
  }

  /** The run has nothing to clean up: its recovery does not start. */
  predicate Unstarted(run: MigrationRun)
    reads run
  {
    if run.direction == Forward then run.guard.None? else !run.destinationOwned
  }

  /**
   Recovery within the failed run: erase what it built, frozen or not, then bring a frozen source back.
   What it reports as cleaned or erased is empty, and it reports nothing started only for a run that built nothing.
   */
  method RecoverFailure(hosts: Hosts, run: MigrationRun, calm: bool)
    returns (died: bool, record: RecoveryRecord)
    requires hosts.Valid() && hosts.alive && Describes(run, hosts.now)
    modifies hosts
    ensures hosts.Valid() && old(hosts.trace) <= hosts.trace
    ensures died <==> !hosts.alive
    ensures !died ==> Truthful(record, run.direction, hosts.now)
    ensures !died && record.source.Healthy? ==> hosts.held
    ensures !died ==> (record.source.Unchanged? <==> !run.freezeAttempted)
    ensures !died && record.source.StillFrozen? ==>
              Writers(hosts.now, Source(run.direction)) == Writers(old(hosts.now), Source(run.direction))
    ensures !died ==> (record.phase.NotStarted? <==> Unstarted(run))
    ensures !died && record.phase.ForwardCleanedPhase? ==>
              run.guard.Some? && hosts.now.journal in {ForwardCleaned(run.guard.value), Absent}
    ensures Authority(old(hosts.now).journal) != Source(run.direction) ==> hosts.now.journal == old(hosts.now).journal
    ensures Unstarted(run) ==> hosts.now == old(hosts.now)
    ensures !run.freezeAttempted && !old(Began(run, hosts.now)) ==> OnlyData(old(hosts.now), hosts.now)
    ensures calm && old(hosts.held) && run.direction.Forward? && old(Began(run, hosts.now)) ==>
              && hosts.now.unraid == EMPTY_COPY
              && hosts.now.journal == (if run.freezeAttempted then Absent else ForwardCleaned(run.guard.value))
              && record == RecoveryRecord(ForwardCleanedPhase, RestartRequired,
                                          if run.freezeAttempted then Healthy else Unchanged)
    ensures calm && old(hosts.held) && run.direction.Rollback? && run.destinationOwned && old(Began(run, hosts.now)) ==>
              && hosts.now.rollback == EMPTY_COPY && !hosts.now.rollbackProject
              && hosts.now.journal == (if run.freezeAttempted then Committed(old(hosts.now).journal.forward)
                                       else old(hosts.now).journal)
              && record == RecoveryRecord(RollbackPreparingPhase, Erased,
                                          if run.freezeAttempted then Healthy else Unchanged)
    ensures hosts.held ==> old(hosts.held)
    ensures calm && old(hosts.held) && run.freezeAttempted
            ==> !died && record.source == if Authority(old(hosts.now).journal) == Source(run.direction)
                                          then Healthy else StillFrozen
    ensures calm ==> !died
  {
    var phase, cleanup, safe;
    if run.direction == Forward {
      died, phase, cleanup, safe := RecoverForward(hosts, run.guard, calm, calm);
    } else {
      died, phase, cleanup, safe := RecoverRollback(hosts, run.guard, run.destinationOwned, calm);
    }
    record := RecoveryRecord(phase, cleanup, Unchanged);
    if died || !run.freezeAttempted {
      return;
    }
    record := record.(source := StillFrozen);
    if !safe {
      return;
    }
    var o := hosts.RestartWriters(Source(run.direction), calm);
    if !o.Done? {
      record := record.(source := RestartFailed);
      return o.Died?, record;
    }
    record := record.(source := Healthy);
    var ok;
    died, ok := CompleteJournal(hosts, phase, run.guard, run.direction, calm);
    if !ok && (phase == ForwardCleanedPhase || phase == RollbackPreparingPhase) {
      record := record.(source := HealthyJournalPending);
    }
  }

  /** What a failed run leaves once its recovery could do its work: nothing of what it built, unless it committed. */
  predicate Undone(direction: Direction, was: World, world: World) {
    match direction
    case Forward =>
      || world.journal.Committed?
      || (world.journal.Absent? && world.unraid == EMPTY_COPY)
      || (world.journal.ForwardCleaned? && world.unraid == EMPTY_COPY)
    case Rollback =>
      || world.journal.RollbackCommitted?
      || (&& world.rollback == EMPTY_COPY && !world.rollbackProject && was.journal.Committed?
          && (world.journal == was.journal
              || (world.journal.RollbackPreparing? && world.journal.forward == was.journal.token)))
  }

  /**
   One forward or rollback run. On success the destination holds an accepted image of the source as
   `read` behind its freeze; on failure the reported evidence is true; after a death the journal still
   says what to do. With no failing command and no stray session, a run that may start succeeds exactly
   when its streams deliver an accepted image and nothing stands where it is promoted to. A run that may
   not start changes nothing, and one that fails anywhere is undone if its recovery's commands work.
   */
  method ExecuteMigration(hosts: Hosts, direction: Direction, transfer: Transfer, sessions: Sessions,
                          calm: bool, mends: bool)
    returns (o: Outcome, record: Option<RecoveryRecord>, ghost read: Inventory)
    requires hosts.Valid() && hosts.alive
    modifies hosts
    ensures hosts.Valid() && old(hosts.trace) <= hosts.trace
    ensures (o.Died? <==> !hosts.alive) && (o.Done? ==> hosts.failures == old(hosts.failures))
    ensures o.Done? ==> && Frozen(hosts.now)
                        && Authority(hosts.now.journal) == Destination(direction)
                        && Served(hosts.now, direction, read)
                        && (sessions != Anytime ==> Content(hosts.now, Source(direction)) == Some(read))
    ensures o.Done? ==>
              hosts.checks == old(hosts.checks)
                              + [SourceProved, SessionsAbsent, WorkAbsent, StagingSealed, SessionsAbsent]
                              + LockProofs(direction)
    ensures o.Raised? ==> record.Some? && Truthful(record.value, direction, hosts.now)
    ensures calm && mends && old(hosts.held) ==> !o.Died?
    ensures calm && mends && old(hosts.held) && o.Raised? ==> record.value.source in {Unchanged, Healthy}
    ensures calm && old(hosts.held) && sessions.Shut? && Ready(direction, old(hosts.now)) ==>
              && FrozenWith(hosts.trace, |old(hosts.trace)| - 1, direction, read)
              && (o.Done? <==> transfer.prepared.attachments.None? && transfer.prepared.releases.None?
                               && Image(direction, read, transfer.streamed))
    ensures !Ready(direction, old(hosts.now)) ==>
              !o.Done? && OnlyData(old(hosts.now).(nextToken := hosts.now.nextToken), hosts.now)
    ensures mends && hosts.held && o.Raised? && Ready(direction, old(hosts.now)) ==>
              Undone(direction, old(hosts.now), hosts.now)
  {
    record := None;
    var run := new MigrationRun(direction);
    o, read := AttemptRun(hosts, run, transfer, sessions, calm);
    ghost var moments := hosts.trace;
    if o.Raised? {
      var died, evidence := RecoverAttempt(hosts, run, old(hosts.now), mends);
      if died {
        return Died, None, read;
      }
      record := Some(evidence);
    }
    LaterMoments(moments, hosts.trace, |old(hosts.trace)| - 1, direction, read);
  }

  /** Recovery undoes what a run that could start has built, and changes nothing for one that could not. */
  method RecoverAttempt(hosts: Hosts, run: MigrationRun, ghost was: World, mends: bool)
    returns (died: bool, record: RecoveryRecord)
    requires hosts.Valid() && hosts.alive && Describes(run, hosts.now)
    requires Ready(run.direction, was) ==> Attempted(run, was, hosts.now)
    requires !Ready(run.direction, was) ==> !run.freezeAttempted && !Began(run, hosts.now)
    modifies hosts
    ensures hosts.Valid() && old(hosts.trace) <= hosts.trace && (died <==> !hosts.alive)
    ensures !died ==> Truthful(record, run.direction, hosts.now)
    ensures !Ready(run.direction, was) ==> OnlyData(old(hosts.now), hosts.now)
    ensures mends ==> !died
    ensures mends && old(hosts.held) && Authority(old(hosts.now).journal) == Source(run.direction) ==>
              record.source in {Unchanged, Healthy}
    ensures mends && old(hosts.held) && !run.freezeAttempted ==> record.source.Unchanged?
    ensures mends && hosts.held && Ready(run.direction, was) ==> Undone(run.direction, was, hosts.now)
  {
    died, record := RecoverFailure(hosts, run, mends);
  }

  lemma LaterMoments(trace: seq<Moment>, longer: seq<Moment>, begin: nat, direction: Direction, data: Inventory)
    requires trace <= longer
    ensures FrozenWith(trace, begin, direction, data) ==> FrozenWith(longer, begin, direction, data)
  {
    if FrozenWith(trace, begin, direction, data) {
      var i :| begin <= i < |trace| && Frozen(trace[i].world)
               && Content(trace[i].world, Source(direction)) == Some(data);
      assert longer[i] == trace[i];
    }
  }

  /** How far a run that could start has come: nowhere, into its own journal phase, or to its commit. */
  ghost predicate Attempted(run: MigrationRun, was: World, world: World)
    reads run
  {
    || (OnlyData(was.(nextToken := world.nextToken), world) && !Began(run, world))
    || match run.direction
       case Forward => Began(run, world) || world.journal.Committed?
       case Rollback => || (Began(run, world) && was.journal.Committed? && world.journal.forward == was.journal.token
                            && (run.destinationOwned || (world.rollback == EMPTY_COPY && !world.rollbackProject)))
                        || world.journal.RollbackCommitted?
  }

  /** The run itself, up to its success or its first failure. */
  method AttemptRun(hosts: Hosts, run: MigrationRun, transfer: Transfer, sessions: Sessions, calm: bool)
    returns (o: Outcome, ghost read: Inventory)
    requires hosts.Valid() && hosts.alive && run.guard.None? && !run.freezeAttempted && !run.destinationOwned
    modifies hosts, run
    ensures hosts.Valid() && old(hosts.trace) <= hosts.trace
    ensures (hosts.alive <==> !o.Died?) && (o.Done? ==> hosts.failures == old(hosts.failures)) && Describes(run, hosts.now)
    ensures o.Done? ==> && Frozen(hosts.now)
                        && Authority(hosts.now.journal) == Destination(run.direction)
                        && Served(hosts.now, run.direction, read)
                        && (sessions != Anytime ==> Content(hosts.now, Source(run.direction)) == Some(read))
    ensures o.Done? ==>
              hosts.checks == old(hosts.checks)
                              + [SourceProved, SessionsAbsent, WorkAbsent, StagingSealed, SessionsAbsent]
                              + LockProofs(run.direction)
    ensures run.guard.Some? ==> run.guard.value >= old(hosts.now).nextToken
    ensures !Ready(run.direction, old(hosts.now)) ==>
              && !o.Done? && !run.freezeAttempted && !Began(run, hosts.now)
              && OnlyData(old(hosts.now).(nextToken := hosts.now.nextToken), hosts.now)
    ensures Ready(run.direction, old(hosts.now)) ==> Attempted(run, old(hosts.now), hosts.now)
    ensures calm && old(hosts.held) ==> !o.Died? && hosts.held
    ensures calm && old(hosts.held) && !o.Done? ==>
              Authority(hosts.now.journal) == if Ready(run.direction, old(hosts.now)) then Source(run.direction)
                                              else Authority(old(hosts.now).journal)
    ensures calm && old(hosts.held) && sessions.Shut? && Ready(run.direction, old(hosts.now)) ==>
              && FrozenWith(hosts.trace, |old(hosts.trace)| - 1, run.direction, read)
              && (o.Done? <==> NoLiveRoots(transfer.prepared) && Image(run.direction, read, transfer.streamed))
    ensures hosts.held ==> old(hosts.held)
  {
    read := transfer.streamed;
    o := PrepareRun(hosts, run, transfer.prepared, calm);
    if o.Done? {
      ghost var after;
      o, read, after := FreezeAndStream(hosts, run, transfer.streamed, sessions, calm);
      ghost var moments := hosts.trace;
      assert moments[|moments| - 1].world == hosts.now;
      if o.Done? {
        o := CommitRun(hosts, run, read, after, calm, sessions == Anytime);
      }
      assert hosts.trace[|moments| - 1] == moments[|moments| - 1];
    }
  }

  /**
   The `recover-forward` command. It never leaves a committed journal, never invents one, and
   when it ends normally the source is either superseded and frozen or back with no journal.
   */
  method RecoverInterruptedForward(hosts: Hosts, calm: bool)
    returns (o: Outcome, record: RecoveryRecord)
    requires hosts.Valid() && hosts.alive
    modifies hosts
    ensures hosts.Valid() && old(hosts.trace) <= hosts.trace
    ensures (hosts.alive <==> !o.Died?) && (o.Done? ==> hosts.failures == old(hosts.failures))
    ensures old(hosts.now).journal.Committed? ==> hosts.now.journal == old(hosts.now).journal
    ensures RecoverableForward(old(hosts.now).journal)
            ==> RecoverableForward(hosts.now.journal)
                && (hosts.now.journal.Committed? <==> old(hosts.now).journal.Committed?)
    ensures !RecoverableForward(old(hosts.now).journal)
            ==> !o.Done? && hosts.now.journal == old(hosts.now).journal
    ensures o.Done? ==>
              if old(hosts.now).journal.Committed?
              then hosts.now.productionWriters == {} && record == RecoveryRecord(CommittedPhase, Preserved, StillFrozen)
              else hosts.now.journal.Absent? && hosts.now.productionWriters == WRITERS
                   && record == if old(hosts.now).journal.Absent?
                                then RecoveryRecord(NoJournal, NotNeeded, Unchanged)
                                else RecoveryRecord(ForwardCleanedPhase, RestartRequired, Healthy)
    ensures o.Done? ==>
              hosts.checks == old(hosts.checks)
                              + if record.source.Healthy? then [LockHeld, LockHeld, LockHeld] else [LockHeld]
    ensures hosts.checks == old(hosts.checks) ==> hosts.now == old(hosts.now)
    ensures hosts.checks == old(hosts.checks) + [LockHeld] ==> SameWriters(old(hosts.now), hosts.now)
    ensures o.Done? ==> hosts.held
    ensures calm && old(hosts.held) && RecoverableForward(old(hosts.now).journal) ==> o.Done?
  {
    record := RecoveryRecord(Indeterminate, NotRun, Unchanged);
    var ok := hosts.AssertHeld(calm);
    if !ok {
      return Raised, record;
    }
    var phase, cleanup;
    o, phase, cleanup := hosts.AdoptInterruptedForward(calm);
    if !o.Done? {
      return;
    }
    record := RecoveryRecord(phase, cleanup, if phase == CommittedPhase then StillFrozen else Unchanged);
    if phase == ForwardCleanedPhase {
      ok := hosts.AssertHeld(calm);
      if !ok {
        return Raised, record;
      }
      o := hosts.RestartWriters(LocalProduction, calm);
      if !o.Done? {
        return;
      }
      ok := hosts.AssertHeld(calm);
      if !ok {
        return Raised, record;
      }
      o := hosts.CompleteForward(None, calm);
      if !o.Done? {
        return;
      }
      record := record.(source := Healthy);
    }
  }

  /**
   The `recover-rollback` command. A committed rollback is left alone; anything earlier ends,
   when the command ends normally, with Unraid serving again under its forward commit.
   */
  method RecoverInterruptedRollback(hosts: Hosts, calm: bool)
    returns (o: Outcome, record: RecoveryRecord)
    requires hosts.Valid() && hosts.alive
    modifies hosts
    ensures hosts.Valid() && old(hosts.trace) <= hosts.trace
    ensures (hosts.alive <==> !o.Died?) && (o.Done? ==> hosts.failures == old(hosts.failures))
    ensures old(hosts.now).journal.RollbackCommitted? || old(hosts.now).journal.Committed?
            ==> hosts.now.journal == old(hosts.now).journal
    ensures old(hosts.now).journal.RollbackPreparing?
            ==> hosts.now.journal in {old(hosts.now).journal, Committed(old(hosts.now).journal.forward)}
    ensures old(hosts.now).journal.RollbackPreparing? && hosts.now.journal.Committed?
            ==> hosts.now.unraidWriters == WRITERS
    ensures !RecoverableRollback(old(hosts.now).journal)
            ==> !o.Done? && hosts.now.journal == old(hosts.now).journal
    ensures o.Done? ==>
              if old(hosts.now).journal.RollbackCommitted?
              then hosts.now.unraidWriters == {} && record == RecoveryRecord(RollbackCommittedPhase, Preserved, StillFrozen)
              else && hosts.now.unraidWriters == WRITERS && !hosts.now.oldProjectUp && hosts.now.productionWriters == {}
                   && hosts.now.rollback == EMPTY_COPY && !hosts.now.rollbackProject
                   && if old(hosts.now).journal.Committed?
                      then hosts.now.journal == old(hosts.now).journal
                           && record == RecoveryRecord(CommittedPhase, Erased, Healthy)
                      else hosts.now.journal == Committed(old(hosts.now).journal.forward)
                           && record == RecoveryRecord(RollbackPreparingPhase, Erased, Healthy)
    ensures o.Done? ==>
              hosts.checks == old(hosts.checks)
                              + (match record.phase
                                 case CommittedPhase => [LockHeld, LockHeld, LockHeld]
                                 case RollbackPreparingPhase => [LockHeld, LockHeld, LockHeld, LockHeld]
                                 case _ => [LockHeld])
    ensures o.Done? ==> hosts.held
    ensures calm && old(hosts.held) && old(hosts.now).journal.RollbackPreparing? ==> o.Done?
    ensures calm && old(hosts.held) && old(hosts.now).journal.RollbackCommitted? ==> o.Done?
    ensures calm && old(hosts.held) && old(hosts.now).journal.Committed? && !old(hosts.now).oldProjectUp ==> o.Done?
  {
    record := RecoveryRecord(Indeterminate, NotRun, Unchanged);
    var ok := hosts.AssertHeld(calm);
    if !ok {
      return Raised, record;
    }
    var phase;
    o, phase := hosts.ReadRollbackPhase(calm);
    if !o.Done? {
      return;
    }
    if phase == RollbackCommittedPhase {
      record := RecoveryRecord(phase, Preserved, StillFrozen);
      return;
    }
    if hosts.now.oldProjectUp || hosts.now.productionWriters != {} {
      return Raised, record;
    }
    o := RestoreUnraid(hosts, phase, calm);
    if !o.Done? {
      return;
    }
    record := RecoveryRecord(phase, Erased, Healthy);
  }

  /** Erase the rollback copy, bring Unraid back, and give an unfinished rollback up, each under a proven lock. */
  method RestoreUnraid(hosts: Hosts, phase: Phase, calm: bool) returns (o: Outcome)
    requires hosts.Valid() && hosts.alive && Authority(hosts.now.journal) == Unraid && !hosts.now.oldProjectUp
    requires phase.RollbackPreparingPhase? <==> hosts.now.journal.RollbackPreparing?
    modifies hosts
    ensures hosts.Valid() && old(hosts.trace) <= hosts.trace
    ensures (hosts.alive <==> !o.Died?) && (o.Done? ==> hosts.failures == old(hosts.failures))
    ensures hosts.now.journal == old(hosts.now).journal
            || (old(hosts.now).journal.RollbackPreparing? && hosts.now.unraidWriters == WRITERS
                && hosts.now.journal == Committed(old(hosts.now).journal.forward))
    ensures o.Done? ==>
              && hosts.now.unraidWriters == WRITERS && !hosts.now.oldProjectUp && hosts.held
              && hosts.now.rollback == EMPTY_COPY && !hosts.now.rollbackProject && !hosts.now.journal.RollbackPreparing?
              && hosts.checks == old(hosts.checks) + [LockHeld, LockHeld]
                                 + if phase.RollbackPreparingPhase? then [LockHeld] else []
    ensures calm && old(hosts.held) ==> o.Done?
  {
    o := EraseAndRestart(hosts, calm);
    if !o.Done? {
      return;
    }
    if phase == RollbackPreparingPhase {
      var ok := hosts.AssertHeld(calm);
      if !ok {
        return Raised;
      }
      o := hosts.CompleteRollback(None, calm);
    }
  }

  method EraseAndRestart(hosts: Hosts, calm: bool) returns (o: Outcome)
    requires hosts.Valid() && hosts.alive && Authority(hosts.now.journal) == Unraid
    modifies hosts
    ensures hosts.Valid() && old(hosts.trace) <= hosts.trace
    ensures (hosts.alive <==> !o.Died?) && (o.Done? ==> hosts.failures == old(hosts.failures))
    ensures hosts.now.journal == old(hosts.now).journal && hosts.now.oldProjectUp == old(hosts.now).oldProjectUp
    ensures hosts.checks == old(hosts.checks) ==> hosts.now == old(hosts.now)
    ensures hosts.checks == old(hosts.checks) + [LockHeld] ==> SameWriters(old(hosts.now), hosts.now)
    ensures o.Done? ==>
              && hosts.now.unraidWriters == WRITERS && hosts.held
              && hosts.now.rollback == EMPTY_COPY && !hosts.now.rollbackProject
              && hosts.checks == old(hosts.checks) + [LockHeld, LockHeld]
    ensures calm && old(hosts.held) ==> o.Done?
  {
    var ok := hosts.AssertHeld(calm);
    if !ok {
      return Raised;
    }
    o := hosts.CleanRollbackDestination(calm);
    if !o.Done? {
      return;
    }
    ok := hosts.AssertHeld(calm);
    if !ok {
      return Raised;
    }
    o := hosts.RestartWriters(Unraid, calm);
  }

  /**
   Recovery interrupted any number of times, then run once undisturbed: a committed forward
   migration stays committed with its source frozen, anything earlier returns to no journal
   with every source writer running.
   */
  method RecoverForwardEventually(hosts: Hosts, interruptions: nat)
    requires hosts.Valid() && RecoverableForward(hosts.now.journal)
    modifies hosts
    ensures hosts.Valid() && old(hosts.trace) <= hosts.trace
    ensures old(hosts.now).journal.Committed?
            ==> hosts.now.journal == old(hosts.now).journal && hosts.now.productionWriters == {}
    ensures !old(hosts.now).journal.Committed?
            ==> hosts.now.journal.Absent? && hosts.now.productionWriters == WRITERS
  {
    var o, record;
    for i := 0 to interruptions
      invariant hosts.Valid() && old(hosts.trace) <= hosts.trace
      invariant RecoverableForward(hosts.now.journal)
      invariant hosts.now.journal.Committed? <==> old(hosts.now).journal.Committed?
      invariant old(hosts.now).journal.Committed? ==> hosts.now.journal == old(hosts.now).journal
    {
      hosts.held, hosts.alive := true, true;
      o, record := RecoverInterruptedForward(hosts, false);
    }
    hosts.held, hosts.alive := true, true;
    o, record := RecoverInterruptedForward(hosts, true);
  }

  /**
   The same for rollback: the forward commit it started from is restored exactly, however many
   commands are interrupted before the restoration or after it, and the last one ends normally.
   */
  method RecoverRollbackEventually(hosts: Hosts, interruptions: nat) returns (o: Outcome)
    requires hosts.Valid()
    requires hosts.now.journal.RollbackPreparing? || hosts.now.journal.RollbackCommitted?
    modifies hosts
    ensures hosts.Valid() && old(hosts.trace) <= hosts.trace && o.Done?
    ensures old(hosts.now).journal.RollbackCommitted?
            ==> hosts.now.journal == old(hosts.now).journal && hosts.now.unraidWriters == {}
    ensures old(hosts.now).journal.RollbackPreparing?
            ==> hosts.now.journal == Committed(old(hosts.now).journal.forward)
                && hosts.now.unraidWriters == WRITERS
  {
    var record;
    for tries := 0 to interruptions
      invariant hosts.Valid() && old(hosts.trace) <= hosts.trace
      invariant hosts.now.journal == old(hosts.now).journal
                || (old(hosts.now).journal.RollbackPreparing?
                    && hosts.now.journal == Committed(old(hosts.now).journal.forward))
    {
      hosts.held, hosts.alive := true, true;
      o, record := RecoverInterruptedRollback(hosts, false);
    }
    hosts.held, hosts.alive := true, true;
    LatchesHold(hosts.trace, |old(hosts.trace)| - 1, |hosts.trace| - 1);
    o, record := RecoverInterruptedRollback(hosts, true);
  }

  /**
   Any number of commands in any order, each failing or dying anywhere, with the operator
   opening committed copies in between. The whole history is one run of `MigrationWorld`,
   so its lemmas hold at every moment.
   */
  method Operate(start: World, commands: nat) returns (hosts: Hosts)
    requires Inv(start)
    ensures hosts.Valid() && hosts.trace[0] == Moment(Operator, start)
    ensures Run(hosts.trace) && forall i :: 0 <= i < |hosts.trace| ==> Inv(hosts.trace[i].world)
  {
    hosts := new Hosts(start);
    for i := 0 to commands
      invariant hosts.Valid() && fresh(hosts) && hosts.trace[0] == Moment(Operator, start)
    {
      var choice: nat := *;
      hosts.held, hosts.alive := true, true;
      var transfer: Transfer, sessions: Sessions := *, *;
      var o, record, evidence;
      ghost var read;
      match choice {
        case 0 => o, record, read := ExecuteMigration(hosts, Forward, transfer, sessions, false, false);
        case 1 => o, record, read := ExecuteMigration(hosts, Rollback, transfer, sessions, false, false);
        case 2 => o, evidence := RecoverInterruptedForward(hosts, false);
        case 3 => o, evidence := RecoverInterruptedRollback(hosts, false);
        case 4 =>
          if hosts.now.journal.Committed? || hosts.now.journal.RollbackCommitted? {
            hosts.Become(Operator, WithWriters(hosts.now, Authority(hosts.now.journal), WRITERS));
          }
        case 5 =>
          if Authority(hosts.now.journal) != LocalProduction {
            hosts.Become(Operator, hosts.now.(oldProjectUp := false));
          }
        case _ => hosts.Pass(true);
      }
    }
    forall i | 0 <= i < |hosts.trace| ensures Inv(hosts.trace[i].world) {
      RunKeepsInv(hosts.trace, i);
    }
  }
}
