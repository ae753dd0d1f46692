/**
 The effects a direct migration has on its hosts. Each effect may succeed, raise, or
 coincide with the death of the tool, before or after it took place. Clients may write
 between any two effects. Every atomic change goes through `Become`, which admits only
 the steps of `MigrationWorld`, so each method here is proved never to start writers
 away from the authority and never to touch the authority's data.
 */
module MigrationHosts {
  import opened Wrappers
  import opened MigrationInventory
  import opened MigrationWorld

  datatype Outcome = Done | Raised | Died

  datatype Phase =
    | NotStarted | Indeterminate | NoJournal | CommittedPhase | ForwardCleanedPhase
    | RollbackPreparingPhase | RollbackCommittedPhase

  datatype Cleanup =
    | NotNeeded | NotRun | Preserved | RestartRequired | CleanupRequired | RollbackNotStarted
    | Erased | CleanupFailed

  function Source(direction: Direction): Site {
    if direction == Forward then LocalProduction else Unraid
  }

  function Destination(direction: Direction): Site {
    if direction == Forward then Unraid else LocalRollback
  }

  function DestinationCopy(world: World, direction: Direction): Copy {
    if direction == Forward then world.unraid else world.rollback
  }

  function WithDestination(world: World, direction: Direction, copy: Copy): World {
    if direction == Forward then world.(unraid := copy) else world.(rollback := copy)
  }

  /** The journal value a run of this direction holds from its first effect to its commit. */
  predicate Owns(journal: Journal, direction: Direction, guard: Token) {
    if direction == Forward then journal == Preparing(guard)
    else journal.RollbackPreparing? && journal.guard == guard
  }

  /** `b` differs from `a` at most in the data its authority serves. */
  ghost predicate OnlyData(a: World, b: World) {
    && b.journal == a.journal
    && (Authority(a.journal) != LocalProduction ==> b.production == a.production)
    && (Authority(a.journal) != Unraid ==> b.unraid == a.unraid)
    && (Authority(a.journal) != LocalRollback ==> b.rollback == a.rollback)
    && b.productionWriters == a.productionWriters
    && b.unraidWriters == a.unraidWriters
    && b.rollbackWriters == a.rollbackWriters
    && b.oldProjectUp == a.oldProjectUp && b.rollbackProject == a.rollbackProject
    && b.served == a.served && b.read == a.read && b.nextToken == a.nextToken
  }

  /** `b` differs from `a` at most in that and in a destination that is not the authority. */
  ghost predicate OnlyDestination(a: World, b: World, direction: Direction) {
    && Authority(a.journal) != Destination(direction)
    && OnlyData(WithDestination(a, direction, DestinationCopy(b, direction)), b)
  }

  /** A destination may be built up or erased while it is not the authority, nor already called clean. */
  predicate MayBuild(journal: Journal, direction: Direction) {
    Authority(journal) != Destination(direction) && (direction == Forward ==> !journal.ForwardCleaned?)
  }

  lemma DestinationMayChange(a: World, direction: Direction, copy: Copy)
    requires MayBuild(a.journal, direction) && Inv(a)
    ensures ToolStep(a, WithDestination(a, direction, copy))
    ensures DestinationCopy(WithDestination(a, direction, copy), direction) == copy
    ensures OnlyDestination(a, WithDestination(a, direction, copy), direction)
  {
  }

  lemma OnlyDestinationThen(a: World, b: World, c: World, direction: Direction)
    requires OnlyDestination(a, b, direction) && OnlyDestination(b, c, direction)
    ensures OnlyDestination(a, c, direction)
  {
  }

  /** Nothing built beside the authority was touched. */
  predicate SameCopies(a: World, b: World) {
    && (Authority(a.journal) != Unraid ==> b.unraid == a.unraid)
    && (Authority(a.journal) != LocalRollback ==> b.rollback == a.rollback)
    && b.rollbackProject == a.rollbackProject && b.oldProjectUp == a.oldProjectUp
  }

  /** No writer was started or stopped, and the old project is as it was. */
  predicate SameWriters(a: World, b: World) {
    && b.productionWriters == a.productionWriters && b.unraidWriters == a.unraidWriters
    && b.rollbackWriters == a.rollbackWriters && b.oldProjectUp == a.oldProjectUp
  }

  /** No writer runs, so only a stray session could change data. */
  predicate Quiet(world: World) {
    Writers(world, Authority(world.journal)) == {}
  }

  /** Both live roots are empty, so staged trees may be renamed into them. */
  predicate NoLiveRoots(copy: Copy) {
    copy.attachments.None? && copy.releases.None?
  }

  /** What a run proves without changing anything. */
  datatype Check = SourceProved | SessionsAbsent | WorkAbsent | StagingSealed | LockHeld

  /** A staged copy after its first rename, and after both. */
  function HalfRenamed(staged: Copy): Copy {
    staged.(attachments := staged.attachmentStage, attachmentStage := None)
  }

  function Renamed(staged: Copy): Copy {
    HalfRenamed(staged).(releases := staged.releaseStage, releaseStage := None)
  }

  class Hosts {
    var now: World
    /** Whether the process holding the remote operations lock still answers. */
    var held: bool
    ghost var trace: seq<Moment>
    /** Whether the tool's process lives, how many of its commands failed, and what it checked. */
    ghost var alive: bool
    ghost var failures: nat
    ghost var checks: seq<Check>

    ghost predicate Valid()
      reads this
    {
      Run(trace) && trace[|trace| - 1].world == now && Inv(now)
    }

    constructor (start: World)
      requires Inv(start)
      ensures Valid() && now == start && held && trace == [Moment(Operator, start)]
      ensures alive && failures == 0 && checks == []
    {
      alive, failures, checks := true, 0, [];
      now := start;
      held := true;
      trace := [Moment(Operator, start)];
    }

    method Become(ghost actor: Actor, next: World)
      requires Valid() && Step(actor, now, next) && (actor.Tool? ==> alive)
      modifies this`now, this`trace
      ensures Valid() && now == next && trace == old(trace) + [Moment(actor, next)]
    {
      StepKeepsInv(actor, now, next);
      now := next;
      trace := trace + [Moment(actor, next)];
    }

    /** Time passes: clients may write through running writers, or through a stray session. */
    method Pass(stray: bool)
      requires Valid()
      modifies this`now, this`trace
      ensures Valid() && old(trace) <= trace
      ensures OnlyData(old(now), now)
      ensures Quiet(old(now)) && !stray ==> now == old(now)
    {
      var writes: bool := *;
      var data: Inventory := *;
      if writes && (!Quiet(now) || stray) {
        Become(Client, WithContent(now, Authority(now.journal), data));
      }
    }

    /** One external command that changes nothing itself. */
    method Attempt(calm: bool, stray: bool) returns (o: Outcome)
      requires Valid() && alive
      modifies this`now, this`trace, this`alive, this`failures
      ensures Valid() && old(trace) <= trace
      ensures (alive <==> !o.Died?) && failures == old(failures) + if o.Done? then 0 else 1
      ensures OnlyData(old(now), now)
      ensures Quiet(old(now)) && !stray ==> now == old(now)
      ensures calm ==> o.Done?
    {
      Pass(stray);
      o := Acknowledge(calm);
    }

    /** The fate of an effect that already took place. */
    method Acknowledge(calm: bool) returns (o: Outcome)
      requires alive
      modifies this`alive, this`failures
      ensures calm ==> o.Done?
      ensures (alive <==> !o.Died?) && failures == old(failures) + if o.Done? then 0 else 1
    {
      o := *;
      if calm {
        o := Done;
      }
      alive := !o.Died?;
      failures := failures + if o.Done? then 0 else 1;
    }

    /** One external command that only proves something. */
    method Check(check: Check, calm: bool, stray: bool) returns (o: Outcome)
      requires Valid() && alive
      modifies this`now, this`trace, this`alive, this`failures, this`checks
      ensures Valid() && old(trace) <= trace
      ensures (alive <==> !o.Died?) && failures == old(failures) + if o.Done? then 0 else 1
      ensures checks == if o.Done? then old(checks) + [check] else old(checks)
      ensures OnlyData(old(now), now)
      ensures Quiet(old(now)) && !stray ==> now == old(now)
      ensures calm ==> o.Done?
    {
      o := Attempt(calm, stray);
      if o.Done? {
        checks := checks + [check];
      }
    }

    /** Require the lock holder to answer; once it fails it stays dead. */
    method AssertHeld(calm: bool) returns (ok: bool)
      requires alive
      modifies this`held, this`checks
      ensures checks == if ok then old(checks) + [LockHeld] else old(checks)
      ensures ok == held
      ensures ok ==> old(held)
      ensures calm && old(held) ==> ok
    {
      var answers: bool := *;
      ok := held && (calm || answers);
      held := ok;
      if ok {
        checks := checks + [LockHeld];
      }
    }

    /** A fresh run-specific capability. */
    method NewGuard() returns (guard: Token)
      requires Valid() && alive
      modifies this`now, this`trace
      ensures Valid() && old(trace) <= trace
      ensures guard == old(now).nextToken && now == old(now).(nextToken := guard + 1)
    {
      guard := now.nextToken;
      Become(Tool, now.(nextToken := guard + 1));
    }

    /** Stop some of the source writers of a journaled run. */
    method StopSome(direction: Direction, ghost guard: Token, left: set<Service>, calm: bool) returns (o: Outcome)
      requires Valid() && alive && Owns(now.journal, direction, guard)
      modifies this`now, this`trace, this`alive, this`failures
      ensures Valid() && old(trace) <= trace
      ensures (alive <==> !o.Died?) && (o.Done? ==> failures == old(failures))
      ensures now.journal == old(now).journal
      ensures DestinationCopy(now, direction) == DestinationCopy(old(now), direction)
      ensures o.Done? ==> Writers(now, Source(direction)) == Writers(old(now), Source(direction)) * left
      ensures calm ==> o.Done?
    {
      o := Attempt(calm, true);
      if !o.Done? {
        return;
      }
      var site := Source(direction);
      Become(Tool, WithWriters(now, site, Writers(now, site) * left).(served := now.served));
      o := Acknowledge(calm);
    }

    /** Stop the source writers; a failure may leave any of them running. */
    method StopWriters(direction: Direction, ghost guard: Token, calm: bool) returns (o: Outcome)
      requires Valid() && alive && Owns(now.journal, direction, guard)
      modifies this`now, this`trace, this`alive, this`failures
      ensures Valid() && old(trace) <= trace
      ensures (alive <==> !o.Died?) && (o.Done? ==> failures == old(failures))
      ensures now.journal == old(now).journal
      ensures DestinationCopy(now, direction) == DestinationCopy(old(now), direction)
      ensures o.Done? ==> Frozen(now)
      ensures calm ==> o.Done?
    {
      var left: set<Service> := *;
      o := StopSome(direction, guard, left, calm);
      if o.Done? {
        o := StopSome(direction, guard, {}, calm);
      }
    }

    /** Start existing containers, only ever beside the authority's data. */
    method StartSome(site: Site, services: set<Service>, calm: bool) returns (o: Outcome)
      requires Valid() && alive && site == Authority(now.journal)
      modifies this`now, this`trace, this`alive, this`failures
      ensures Valid() && old(trace) <= trace
      ensures (alive <==> !o.Died?) && (o.Done? ==> failures == old(failures))
      ensures now.journal == old(now).journal && SameCopies(old(now), now)
      ensures o.Done? ==> Writers(now, site) == Writers(old(now), site) + services
      ensures calm ==> o.Done?
    {
      o := Attempt(calm, true);
      if !o.Done? {
        return;
      }
      EveryServiceIsAWriter(Writers(now, site) + services);
      Become(Tool, WithWriters(now, site, Writers(now, site) + services));
      o := Acknowledge(calm);
    }

    /** Bring the authority's writers back, first some of them and in the end all. */
    method RestartWriters(site: Site, calm: bool) returns (o: Outcome)
      requires Valid() && alive && site == Authority(now.journal)
      modifies this`now, this`trace, this`alive, this`failures
      ensures Valid() && old(trace) <= trace
      ensures (alive <==> !o.Died?) && (o.Done? ==> failures == old(failures))
      ensures now.journal == old(now).journal && SameCopies(old(now), now)
      ensures o.Done? ==> Writers(now, site) == WRITERS
      ensures calm ==> o.Done?
    {
      var started: set<Service> := *;
      o := StartSome(site, started, calm);
      if !o.Done? {
        return;
      }
      EveryServiceIsAWriter(Writers(now, site));
      o := StartSome(site, WRITERS, calm);
    }

    /** Any change to a destination that is not yet the authority. */
    method ChangeDestination(direction: Direction, copy: Copy, calm: bool, stray: bool) returns (o: Outcome)
      requires Valid() && alive && MayBuild(now.journal, direction)
      modifies this`now, this`trace, this`alive, this`failures
      ensures Valid() && old(trace) <= trace
      ensures (alive <==> !o.Died?) && (o.Done? ==> failures == old(failures))
      ensures OnlyDestination(old(now), now, direction)
      ensures Quiet(old(now)) && !stray
              ==> now == WithDestination(old(now), direction, DestinationCopy(now, direction))
      ensures o.Done? ==> DestinationCopy(now, direction) == copy
      ensures DestinationCopy(now, direction) in {DestinationCopy(old(now), direction), copy}
      ensures calm ==> o.Done?
    {
      o := Attempt(calm, stray);
      if !o.Done? {
        return;
      }
      DestinationMayChange(now, direction, copy);
      Become(Tool, WithDestination(now, direction, copy));
      o := Acknowledge(calm);
    }

    /** With no journal and nothing on the target, become the run that may later erase it. */
    method BeginFreshTarget(guard: Token, calm: bool) returns (o: Outcome)
      requires Valid() && alive && guard < now.nextToken
      modifies this`now, this`trace, this`alive, this`failures
      ensures Valid() && old(trace) <= trace
      ensures (alive <==> !o.Died?) && (o.Done? ==> failures == old(failures))
      ensures OnlyData(old(now), now.(journal := old(now).journal, read := old(now).read))
      ensures o.Done? ==> now.journal == Preparing(guard)
                          && old(now).journal.Absent? && old(now).unraid == EMPTY_COPY
      ensures if now.journal == old(now).journal then OnlyData(old(now), now)
              else old(now).journal.Absent? && old(now).unraid == EMPTY_COPY && now.journal == Preparing(guard)
      ensures calm && old(now).journal.Absent? && old(now).unraid == EMPTY_COPY ==> o.Done?
      ensures calm ==> !o.Died?
    {
      o := Attempt(calm, true);
      if !o.Done? {
        return;
      }
      if now.unraid != EMPTY_COPY || now.unraidWriters != {} || !now.journal.Absent? {
        return Raised;
      }
      Become(Tool, now.(journal := Preparing(guard), read := None));
      o := Acknowledge(calm);
    }

    /** The rollback's intent is durable before it creates anything on the local host. */
    method BeginRollback(guard: Token, calm: bool) returns (o: Outcome)
      requires Valid() && alive && guard < now.nextToken
      requires now.journal.Committed? ==> now.unraidWriters == WRITERS && !now.oldProjectUp
      modifies this`now, this`trace, this`alive, this`failures
      ensures Valid() && old(trace) <= trace
      ensures (alive <==> !o.Died?) && (o.Done? ==> failures == old(failures))
      ensures OnlyData(old(now), now.(journal := old(now).journal, read := old(now).read))
      ensures o.Done? ==> old(now).journal.Committed?
                          && now.journal == RollbackPreparing(guard, old(now).journal.token)
      ensures if now.journal == old(now).journal then OnlyData(old(now), now)
              else old(now).journal.Committed? && now.journal == RollbackPreparing(guard, old(now).journal.token)
      ensures calm && old(now).journal.Committed? ==> o.Done?
      ensures calm ==> !o.Died?
    {
      o := Attempt(calm, true);
      if !o.Done? {
        return;
      }
      if !now.journal.Committed? {
        return Raised;
      }
      Become(Tool, now.(journal := RollbackPreparing(guard, now.journal.token), read := None));
      o := Acknowledge(calm);
    }

    /** The run reads its source; what it saw may be overtaken by a stray session at once. */
    method ReadSource(calm: bool, stray: bool) returns (o: Outcome, seen: Inventory)
      requires Valid() && alive
      modifies this`now, this`trace, this`alive, this`failures
      ensures Valid() && old(trace) <= trace
      ensures (alive <==> !o.Died?) && (o.Done? ==> failures == old(failures))
      ensures OnlyData(old(now), now.(read := old(now).read))
      ensures Quiet(old(now)) && !stray ==> now == old(now).(read := now.read)
      ensures Content(now, Authority(now.journal)) == Some(seen) && (o.Done? ==> now.read == Some(seen))
      ensures calm ==> o.Done?
    {
      o := Attempt(calm, stray);
      seen := Content(now, Authority(now.journal)).value;
      if o.Done? {
        Become(Tool, now.(read := Some(seen)));
      }
    }

    /**
     Rename two complete staged trees into two empty live roots. A `refused` second rename is
     undone, and the undo may itself fail; the caller sees success only after both.
     */
    method RenameSiblings(direction: Direction, ghost image: Inventory, refused: bool, calm: bool, stray: bool)
      returns (o: Outcome)
      requires Valid() && alive && Frozen(now) && MayBuild(now.journal, direction)
      requires Staged(DestinationCopy(now, direction)) == Some(image)
      modifies this`now, this`trace, this`alive, this`failures
      ensures Valid() && old(trace) <= trace
      ensures (alive <==> !o.Died?) && (o.Done? ==> failures == old(failures))
      ensures OnlyDestination(old(now), now, direction)
      ensures !stray ==> now == WithDestination(old(now), direction, DestinationCopy(now, direction))
      ensures o.Done? ==> Live(DestinationCopy(now, direction)) == Some(image)
      ensures var was := DestinationCopy(old(now), direction);
              && (was.attachments.Some? || was.releases.Some? ==> DestinationCopy(now, direction) == was)
              && (calm ==> (o.Done? <==> was.attachments.None? && was.releases.None? && !refused))
              && (calm && refused ==> DestinationCopy(now, direction) == was)
      ensures calm ==> !o.Died?
    {
      ghost var start := now;
      var staged := DestinationCopy(now, direction);
      o := RenameFirst(direction, calm, stray);
      ghost var halfway := now;
      if o.Done? {
        o := RenameSecond(direction, staged, refused, calm, stray);
        OnlyDestinationThen(start, halfway, now, direction);
      }
    }

    /** Both live roots must be empty before the first rename. */
    method RenameFirst(direction: Direction, calm: bool, stray: bool) returns (o: Outcome)
      requires Valid() && alive && Frozen(now) && MayBuild(now.journal, direction)
      modifies this`now, this`trace, this`alive, this`failures
      ensures Valid() && old(trace) <= trace
      ensures (alive <==> !o.Died?) && (o.Done? ==> failures == old(failures))
      ensures OnlyDestination(old(now), now, direction)
      ensures !stray ==> now == WithDestination(old(now), direction, DestinationCopy(now, direction))
      ensures o.Done? ==> DestinationCopy(now, direction) == HalfRenamed(DestinationCopy(old(now), direction))
                          && NoLiveRoots(DestinationCopy(old(now), direction))
      ensures DestinationCopy(now, direction)
              in {DestinationCopy(old(now), direction), HalfRenamed(DestinationCopy(old(now), direction))}
      ensures !NoLiveRoots(DestinationCopy(old(now), direction)) ==>
                DestinationCopy(now, direction) == DestinationCopy(old(now), direction)
      ensures calm ==> (o.Done? <==> NoLiveRoots(DestinationCopy(old(now), direction)))
      ensures calm ==> !o.Died?
    {
      ghost var start := now;
      o := Attempt(calm, stray);
      if !o.Done? {
        return;
      }
      var staged := DestinationCopy(now, direction);
      if !NoLiveRoots(staged) {
        return Raised;
      }
      ghost var halfway := now;
      o := ChangeDestination(direction, HalfRenamed(staged), calm, stray);
      OnlyDestinationThen(start, halfway, now, direction);
    }

    /** The second rename, or the undoing of the first when it is refused. */
    method RenameSecond(direction: Direction, staged: Copy, refused: bool, calm: bool, stray: bool) returns (o: Outcome)
      requires Valid() && alive && Frozen(now) && MayBuild(now.journal, direction)
      modifies this`now, this`trace, this`alive, this`failures
      ensures Valid() && old(trace) <= trace
      ensures (alive <==> !o.Died?) && (o.Done? ==> failures == old(failures))
      ensures OnlyDestination(old(now), now, direction)
      ensures !stray ==> now == WithDestination(old(now), direction, DestinationCopy(now, direction))
      ensures o.Done? ==> DestinationCopy(now, direction) == Renamed(staged) && !refused
      ensures calm ==> if refused then o.Raised? && DestinationCopy(now, direction) == staged else o.Done?
    {
      if refused {
        o := ChangeDestination(direction, staged, calm, stray);
        return if o.Died? then Died else Raised;
      }
      o := ChangeDestination(direction, Renamed(staged), calm, stray);
    }

    /** Promote both siblings and commit the marker in one remote script. */
    method PromoteRemote(guard: Token, ghost read: Inventory, ghost image: Inventory, calm: bool, stray: bool)
      returns (o: Outcome)
      requires Valid() && alive && now.journal == Preparing(guard) && Frozen(now) && now.read == Some(read)
      requires Staged(now.unraid) == Some(image) && ForwardImage(read, image)
      modifies this`now, this`trace, this`alive, this`failures
      ensures Valid() && old(trace) <= trace
      ensures (alive <==> !o.Died?) && (o.Done? ==> failures == old(failures))
      ensures now == old(now).(production := now.production, unraid := now.unraid, journal := now.journal)
      ensures !stray ==> now.production == old(now).production
      ensures o.Done? ==> now.journal == Committed(guard)
      ensures now.journal == Preparing(guard)
              || (now.journal == Committed(guard) && Live(now.unraid) == Some(image))
      ensures calm ==> (o.Done? <==> old(now).unraid.attachments.None? && old(now).unraid.releases.None?)
      ensures calm && !o.Done? ==> now.journal == Preparing(guard)
      ensures calm ==> !o.Died?
    {
      var refused: bool := *;
      o := RenameSiblings(Forward, image, refused && !calm, calm, stray);
      if !o.Done? {
        return;
      }
      o := Attempt(calm, stray);
      if !o.Done? {
        return;
      }
      if now.journal != Preparing(guard) {
        return Raised;
      }
      Become(Tool, now.(journal := Committed(guard)));
      o := Acknowledge(calm);
    }

    /** Record the promoted local copy; only then may Unraid stay down for good. */
    method MarkRollbackCommitted(guard: Token, ghost image: Inventory, calm: bool, stray: bool) returns (o: Outcome)
      requires Valid() && alive && Frozen(now) && Owns(now.journal, Rollback, guard)
      requires now.read == Some(image) && Live(now.rollback) == Some(image)
      modifies this`now, this`trace, this`alive, this`failures
      ensures Valid() && old(trace) <= trace
      ensures (alive <==> !o.Died?) && (o.Done? ==> failures == old(failures))
      ensures now == old(now).(unraid := now.unraid, journal := now.journal)
      ensures Live(now.unraid).Some? && (!stray ==> now.unraid == old(now).unraid)
      ensures now.journal in {old(now).journal, RollbackCommitted(guard, old(now).journal.forward)}
      ensures o.Done? ==> now.journal == RollbackCommitted(guard, old(now).journal.forward)
      ensures calm ==> o.Done?
    {
      o := Attempt(calm, stray);
      if !o.Done? {
        return;
      }
      if !Owns(now.journal, Rollback, guard) {
        return Raised;
      }
      Become(Tool, now.(journal := RollbackCommitted(guard, now.journal.forward)));
      o := Acknowledge(calm);
    }

    /** Erase every tree of a destination, one at a time; any of the erasures may be the last. */
    method EraseTrees(direction: Direction, calm: bool) returns (o: Outcome)
      requires Valid() && alive && MayBuild(now.journal, direction)
      modifies this`now, this`trace, this`alive, this`failures
      ensures Valid() && old(trace) <= trace
      ensures (alive <==> !o.Died?) && (o.Done? ==> failures == old(failures))
      ensures OnlyDestination(old(now), now, direction)
      ensures o.Done? ==> DestinationCopy(now, direction)
                          == EMPTY_COPY.(db := DestinationCopy(old(now), direction).db)
      ensures calm ==> o.Done?
    {
      ghost var start := now;
      o := EraseRoots(direction, calm);
      ghost var halfway := now;
      if !o.Done? {
        return;
      }
      o := ChangeDestination(direction, DestinationCopy(now, direction).(attachmentStage := None, releaseStage := None),
                             calm, true);
      OnlyDestinationThen(start, halfway, now, direction);
    }

    method EraseRoots(direction: Direction, calm: bool) returns (o: Outcome)
      requires Valid() && alive && MayBuild(now.journal, direction)
      modifies this`now, this`trace, this`alive, this`failures
      ensures Valid() && old(trace) <= trace
      ensures (alive <==> !o.Died?) && (o.Done? ==> failures == old(failures))
      ensures OnlyDestination(old(now), now, direction)
      ensures o.Done? ==> DestinationCopy(now, direction)
                          == DestinationCopy(old(now), direction).(attachments := None, releases := None)
      ensures calm ==> o.Done?
    {
      ghost var start := now;
      o := ChangeDestination(direction, DestinationCopy(now, direction).(attachments := None), calm, true);
      if !o.Done? {
        return;
      }
      ghost var halfway := now;
      o := ChangeDestination(direction, DestinationCopy(now, direction).(releases := None), calm, true);
      OnlyDestinationThen(start, halfway, now, direction);
    }

    /**
     Erase the full target copy, root by root, and only then mark it cleaned. Both recovery
     scripts reach this only after reading a `preparing` marker.
     */
    method TeardownTarget(calm: bool) returns (o: Outcome)
      requires Valid() && alive && now.journal.Preparing?
      modifies this`now, this`trace, this`alive, this`failures
      ensures Valid() && old(trace) <= trace
      ensures (alive <==> !o.Died?) && (o.Done? ==> failures == old(failures))
      ensures now.journal in {old(now).journal, ForwardCleaned(old(now).journal.token)}
      ensures SameWriters(old(now), now)
      ensures now.rollback == old(now).rollback && now.rollbackProject == old(now).rollbackProject
      ensures o.Done? ==> now.journal == ForwardCleaned(old(now).journal.token) && now.unraid == EMPTY_COPY
      ensures calm ==> o.Done?
    {
      o := ChangeDestination(Forward, now.unraid.(db := None), calm, true);
      if !o.Done? {
        return;
      }
      o := EraseTrees(Forward, calm);
      if !o.Done? {
        return;
      }
      Become(Tool, now.(journal := ForwardCleaned(now.journal.token)));
      o := Acknowledge(calm);
    }

    /** Erase the target of exactly this run; the journal then still asks for the source's restart. */
    method RecoverFailedTarget(guard: Token, calm: bool)
      returns (o: Outcome, phase: Phase, cleanup: Cleanup, safe: bool)
      requires Valid() && alive
      modifies this`now, this`trace, this`alive, this`failures
      ensures Valid() && old(trace) <= trace
      ensures (alive <==> !o.Died?) && (o.Done? ==> failures == old(failures))
      ensures Authority(now.journal) == Authority(old(now).journal)
      ensures now.journal == old(now).journal
              || (old(now).journal == Preparing(guard) && now.journal == ForwardCleaned(guard))
      ensures SameWriters(old(now), now)
      ensures old(now).journal != Preparing(guard) ==> OnlyData(old(now), now)
      ensures o.Done? ==> match phase
                          case NoJournal => cleanup.NotNeeded? && safe && now.journal.Absent?
                          case CommittedPhase => cleanup.Preserved? && !safe && now.journal == Committed(guard)
                          case ForwardCleanedPhase =>
                            cleanup.RestartRequired? && safe && now.journal == ForwardCleaned(guard)
                          case _ => false
      ensures calm && old(now).journal in {Absent, Preparing(guard), Committed(guard), ForwardCleaned(guard)}
              ==> o.Done?
      ensures calm ==> !o.Died?
    {
      phase, cleanup, safe := Indeterminate, NotRun, false;
      o := Attempt(calm, true);
      if !o.Done? {
        return;
      }
      if now.journal.Absent? {
        phase, cleanup, safe := NoJournal, NotNeeded, true;
      } else if now.journal == Committed(guard) {
        phase, cleanup, safe := CommittedPhase, Preserved, false;
      } else if now.journal == ForwardCleaned(guard) {
        phase, cleanup, safe := ForwardCleanedPhase, RestartRequired, true;
      } else if now.journal == Preparing(guard) {
        o := TeardownTarget(calm);
        if !o.Done? {
          return;
        }
        phase, cleanup, safe := ForwardCleanedPhase, RestartRequired, true;
      } else {
        return Raised, phase, cleanup, safe;
      }
      o := Acknowledge(calm);
    }

    /** Take over whatever forward phase is found; a cleaned journal survives until the source runs. */
    method AdoptInterruptedForward(calm: bool) returns (o: Outcome, phase: Phase, cleanup: Cleanup)
      requires Valid() && alive
      modifies this`now, this`trace, this`alive, this`failures
      ensures Valid() && old(trace) <= trace
      ensures (alive <==> !o.Died?) && (o.Done? ==> failures == old(failures))
      ensures SameWriters(old(now), now)
      ensures now.journal == old(now).journal
              || (old(now).journal.Preparing? && now.journal == ForwardCleaned(old(now).journal.token))
      ensures o.Done? ==> match phase
                          case NoJournal => cleanup.NotNeeded? && now.journal.Absent?
                          case CommittedPhase => cleanup.Preserved? && now.journal.Committed?
                          case ForwardCleanedPhase => cleanup.RestartRequired? && now.journal.ForwardCleaned?
                          case _ => false
      ensures calm && RecoverableForward(old(now).journal) ==> o.Done?
    {
      phase, cleanup := Indeterminate, NotRun;
      o := Attempt(calm, true);
      if !o.Done? {
        return;
      }
      match now.journal {
        case Absent =>
          phase, cleanup := NoJournal, NotNeeded;
        case Committed(_) =>
          phase, cleanup := CommittedPhase, Preserved;
        case ForwardCleaned(_) =>
          phase, cleanup := ForwardCleanedPhase, RestartRequired;
        case Preparing(_) =>
          o := TeardownTarget(calm);
          if !o.Done? {
            return;
          }
          phase, cleanup := ForwardCleanedPhase, RestartRequired;
        case RollbackPreparing(_, _) =>
          return Raised, phase, cleanup;
        case RollbackCommitted(_, _) =>
          return Raised, phase, cleanup;
      }
      o := Acknowledge(calm);
    }

    /** Forget a cleaned forward run while all its source's writers run; a guard admits one run only. */
    method CompleteForward(guard: Option<Token>, calm: bool) returns (o: Outcome)
      requires Valid() && alive && now.productionWriters == WRITERS
      modifies this`now, this`trace, this`alive, this`failures
      ensures Valid() && old(trace) <= trace
      ensures (alive <==> !o.Died?) && (o.Done? ==> failures == old(failures))
      ensures OnlyData(old(now), now.(journal := old(now).journal))
      ensures now.journal in {old(now).journal, Absent}
      ensures o.Done? ==> now.journal.Absent? && old(now).journal.ForwardCleaned?
                          && (guard.Some? ==> old(now).journal == ForwardCleaned(guard.value))
      ensures calm && old(now).journal.ForwardCleaned? && guard.None? ==> o.Done?
      ensures calm && guard.Some? && old(now).journal == ForwardCleaned(guard.value) ==> o.Done?
      ensures calm ==> !o.Died?
    {
      o := Attempt(calm, true);
      if !o.Done? {
        return;
      }
      if !now.journal.ForwardCleaned? || (guard.Some? && now.journal.token != guard.value) {
        return Raised;
      }
      Become(Tool, now.(journal := Absent));
      o := Acknowledge(calm);
    }

    /** Tell how far exactly this rollback came, before anything local is erased. */
    method RecoverFailedRollback(guard: Token, calm: bool)
      returns (o: Outcome, phase: Phase, cleanup: Cleanup, safe: bool)
      requires Valid() && alive
      modifies this`now, this`trace, this`alive, this`failures
      ensures Valid() && old(trace) <= trace
      ensures (alive <==> !o.Died?) && (o.Done? ==> failures == old(failures))
      ensures OnlyData(old(now), now)
      ensures o.Done? ==> match phase
                          case RollbackPreparingPhase =>
                            cleanup.CleanupRequired? && safe && Owns(now.journal, Rollback, guard)
                          case RollbackCommittedPhase =>
                            cleanup.Preserved? && !safe
                            && now.journal.RollbackCommitted? && now.journal.guard == guard
                          case CommittedPhase => cleanup.RollbackNotStarted? && !safe && now.journal.Committed?
                          case _ => false
      ensures calm && Owns(old(now).journal, Rollback, guard) ==> o.Done? && phase.RollbackPreparingPhase?
      ensures calm && old(now).journal.RollbackCommitted? && old(now).journal.guard == guard
              ==> o.Done? && phase.RollbackCommittedPhase?
      ensures calm && old(now).journal.Committed? ==> o.Done? && phase.CommittedPhase?
      ensures calm ==> !o.Died?
    {
      phase, cleanup, safe := Indeterminate, NotRun, false;
      o := Attempt(calm, true);
      if !o.Done? {
        return;
      }
      if now.journal.RollbackPreparing? && now.journal.guard == guard {
        phase, cleanup, safe := RollbackPreparingPhase, CleanupRequired, true;
      } else if now.journal.RollbackCommitted? && now.journal.guard == guard {
        phase, cleanup, safe := RollbackCommittedPhase, Preserved, false;
      } else if now.journal.Committed? {
        phase, cleanup, safe := CommittedPhase, RollbackNotStarted, false;
      } else {
        return Raised, phase, cleanup, safe;
      }
    }

    /** Which of the three rollback phases the journal is in; any other journal is an error. */
    method ReadRollbackPhase(calm: bool) returns (o: Outcome, phase: Phase)
      requires Valid() && alive
      modifies this`now, this`trace, this`alive, this`failures
      ensures Valid() && old(trace) <= trace
      ensures (alive <==> !o.Died?) && (o.Done? ==> failures == old(failures))
      ensures OnlyData(old(now), now)
      ensures o.Done? ==> match phase
                          case CommittedPhase => now.journal.Committed?
                          case RollbackPreparingPhase => now.journal.RollbackPreparing?
                          case RollbackCommittedPhase => now.journal.RollbackCommitted?
                          case _ => false
      ensures calm && RecoverableRollback(old(now).journal) ==> o.Done?
    {
      phase := Indeterminate;
      o := Attempt(calm, true);
      if !o.Done? {
        return;
      }
      match now.journal {
        case Committed(_) => phase := CommittedPhase;
        case RollbackPreparing(_, _) => phase := RollbackPreparingPhase;
        case RollbackCommitted(_, _) => phase := RollbackCommittedPhase;
        case _ => o := Raised;
      }
    }

    /** The rollback copy's containers come to exist, maybe only some of them. */
    method OpenRollbackProject(calm: bool) returns (o: Outcome)
      requires Valid() && alive
      modifies this`now, this`trace, this`alive, this`failures
      ensures Valid() && old(trace) <= trace
      ensures (alive <==> !o.Died?) && (o.Done? ==> failures == old(failures))
      ensures OnlyData(old(now), now.(rollbackProject := old(now).rollbackProject))
      ensures o.Done? ==> now.rollbackProject
      ensures calm ==> o.Done?
    {
      o := Attempt(calm, true);
      if !o.Done? {
        return;
      }
      Become(Tool, now.(rollbackProject := true));
      o := Acknowledge(calm);
    }

    /** Stop the rollback copy's containers and remove every copy of its data. */
    method CleanRollbackDestination(calm: bool) returns (o: Outcome)
      requires Valid() && alive && Authority(now.journal) != LocalRollback
      modifies this`now, this`trace, this`alive, this`failures
      ensures Valid() && old(trace) <= trace
      ensures (alive <==> !o.Died?) && (o.Done? ==> failures == old(failures))
      ensures now.journal == old(now).journal
      ensures SameWriters(old(now), now)
      ensures Authority(now.journal) != Unraid ==> now.unraid == old(now).unraid
      ensures o.Done? ==> now.rollback == EMPTY_COPY && !now.rollbackProject
      ensures calm ==> o.Done?
    {
      o := Attempt(calm, true);
      if !o.Done? {
        return;
      }
      Become(Tool, now.(rollback := now.rollback.(db := None), rollbackProject := false));
      o := EraseTrees(Rollback, calm);
    }

    /** Give up a rollback: its journal becomes the commit it began from. A guard admits one rollback only. */
    method CompleteRollback(guard: Option<Token>, calm: bool) returns (o: Outcome)
      requires Valid() && alive && now.unraidWriters == WRITERS
      requires now.journal.RollbackPreparing? ==> now.rollback == EMPTY_COPY && !now.rollbackProject
      modifies this`now, this`trace, this`alive, this`failures
      ensures Valid() && old(trace) <= trace
      ensures (alive <==> !o.Died?) && (o.Done? ==> failures == old(failures))
      ensures OnlyData(old(now), now.(journal := old(now).journal))
      ensures now.journal == old(now).journal
              || (old(now).journal.RollbackPreparing? && now.journal == Committed(old(now).journal.forward))
      ensures o.Done? ==> old(now).journal.RollbackPreparing?
                          && now.journal == Committed(old(now).journal.forward)
      ensures calm && old(now).journal.RollbackPreparing? && guard.None? ==> o.Done?
      ensures calm && guard.Some? && Owns(old(now).journal, Rollback, guard.value) ==> o.Done?
      ensures calm ==> !o.Died?
    {
      o := Attempt(calm, true);
      if !o.Done? {
        return;
      }
      if !now.journal.RollbackPreparing? || (guard.Some? && now.journal.guard != guard.value) {
        return Raised;
      }
      Become(Tool, now.(journal := Committed(now.journal.forward)));
      o := Acknowledge(calm);
    }
  }
}
