/**
 One lease run under the GPU lock. Every await may finish, raise, be cancelled, or be torn
 down by a fatal error; the `with` statement around the lease then releases or retains the lock.
 */
module AiWorkRunner {
  import opened GpuCoordination

  /** How a coroutine ends. `Unsafe` is the refusal to vouch for the device. */
  datatype Exit = Returned | Error | Cancelled | Unsafe | Fatal

  datatype Backend = Nvidia | AmdVulkan

  /**
   What may be counted on: nothing, that the handlers' awaits end well, or that all awaits do, the work
   ends in time, the device is idle after it, and the lease stays current.
   */
  datatype Luck = AnyLuck | Steady | Fortunate

  /** What the database was asked to do for the lease, and whether the fenced update applied. */
  datatype Settlement = Unsettled | Completed(applied: bool) | Retried

  /** What is awaited. A wait for the work ends with it, or with a heartbeat that stopped before it. */
  datatype Step =
    | Begin | EnqueueWeekly | EnqueueAdmin | Defer | Prepare | Claim
    | Wait(heartbeatFirst: bool) | HeartbeatFails | WorkEnds | Unload | ProveIdle | HeartbeatEnds | Complete
    | StopWork | HandBack | StopAll

  /**
   How far a cycle has come: the latest await and how it ended, whether the work ended by itself, whether
   the handler stopped it, and whether a release was tried, the item completed or handed back.
   */
  datatype Course = Course(step: Step, exit: Exit, worked: bool, handling: bool,
                            cleaned: bool, completed: bool, handedBack: bool)

  const Start := Course(Begin, Returned, false, false, false, false, false)

  function After(course: Course, step: Step, exit: Exit): Course {
    Course(step, exit, course.worked || (step == WorkEnds && exit == Returned),
           course.handling || step == StopWork, course.cleaned || step == Unload,
           course.completed || (step == Complete && exit == Returned),
           course.handedBack || (step == HandBack && exit == Returned))
  }

  /** The latest await was this one, and it ended well. */
  predicate Just(course: Course, step: Step) {
    course.step == step && course.exit.Returned?
  }

  predicate Released(course: Course, backend: Backend) {
    Just(course, if backend == AmdVulkan then ProveIdle else Unload)
  }

  predicate Leased(course: Course) {
    course.step.Wait? || course.step in {HeartbeatFails, WorkEnds, Unload, ProveIdle, HeartbeatEnds, Complete}
  }

  /**
   What may be awaited next. Outside the handler every step needs its predecessor to have ended well.
   The handler stops the work first, and hands the item back last, after a release was tried.
   */
  predicate MayFollow(course: Course, step: Step, backend: Backend) {
    match step
    case Begin => false
    case EnqueueWeekly => course == Start
    case EnqueueAdmin => Just(course, EnqueueWeekly)
    case Defer => Just(course, EnqueueAdmin) || Just(course, Prepare)
    case Prepare => Just(course, EnqueueAdmin)
    case Claim => Just(course, Prepare)
    case Wait(_) => Just(course, Claim)
    case HeartbeatFails => Just(course, Wait(true))
    case WorkEnds => Just(course, Wait(false))
    case Unload => !course.cleaned && Just(course, if course.handling then StopWork else WorkEnds)
    case ProveIdle => backend == AmdVulkan && Just(course, Unload)
    case HeartbeatEnds => !course.handling && Released(course, backend)
    case Complete => !course.handling && (Released(course, backend) || Just(course, HeartbeatEnds))
    case StopWork => !course.handling && Leased(course)
    case HandBack => course.handling && course.cleaned && (Just(course, StopWork) || course.step in {Unload, ProveIdle})
    case StopAll => Leased(course) || course.handling
  }

  /** One await; when `steady`, it ends well. */
  method Await(ghost before: Course, step: Step, backend: Backend, steady: bool) returns (exit: Exit, ghost course: Course)
    requires MayFollow(before, step, backend)
    ensures exit != Unsafe && course == After(before, step, exit)
    ensures steady ==> exit.Returned?
  {
    exit := *;
    if steady || exit.Unsafe? { exit := Returned; }
    course := After(before, step, exit);
  }

  /** The lock's guarantee about the work done under it, in terms of the log alone. */
  ghost predicate Covered(lock: GpuFileLock)
    reads lock, lock.handle, lock.retained
  {
    lock.Valid() && lock.Guarded()
  }

  /** The idle proof holds only for work that has ended. */
  ghost predicate WorkEnded(log: seq<Event>) {
    exists e :: 0 <= e < |log| && log[e] == Ended && Started !in log[e..]
  }

  lemma WorkEndedExtends(log: seq<Event>, event: Event)
    requires event != Started && (WorkEnded(log) || event == Ended)
    ensures WorkEnded(log + [event])
    ensures event == IdleProven ==> DeviceProved(log + [event])
  {
    var longer := log + [event];
    if WorkEnded(log) {
      var e :| 0 <= e < |log| && log[e] == Ended && Started !in log[e..];
      assert longer[e..] == log[e..] + [event] && longer[e] == Ended && longer[|log|] == event;
    } else {
      assert longer[|log|] == Ended && longer[|log|..] == [event];
    }
  }

  /** The device was proved idle after the work had ended. */
  ghost predicate DeviceProved(log: seq<Event>) {
    exists e, p :: 0 <= e < p < |log| && log[e] == Ended && log[p] == IdleProven && Started !in log[e..]
  }

  /** Ask the device. Only an answer that it is idle is a proof. */
  method ProveDeviceIdle(ghost before: Course, lock: GpuFileLock?, luck: Luck)
    returns (exit: Exit, idle: bool, ghost course: Course)
    requires lock != null ==> Covered(lock) && WorkEnded(lock.log)
    requires MayFollow(before, ProveIdle, AmdVulkan)
    modifies if lock == null then {} else {lock}
    ensures course == After(before, ProveIdle, exit) && exit != Unsafe && (exit.Returned? ==> idle)
    ensures luck == Fortunate ==> exit.Returned?
    ensures luck == Steady ==> exit in {Returned, Error}
    ensures lock != null ==>
              && Covered(lock) && WorkEnded(lock.log) && (Started in lock.log <==> Started in old(lock.log))
              && lock.released == old(lock.released) && lock.quarantined == old(lock.quarantined)
              && lock.releaseVerificationPending == old(lock.releaseVerificationPending)
              && (exit.Returned? ==> DeviceProved(lock.log)) && (!exit.Returned? ==> lock.log == old(lock.log))
  {
    exit, course := Await(before, ProveIdle, AmdVulkan, luck != AnyLuck);
    idle := *;
    if luck == Fortunate { idle := true; }
    if exit.Returned? && !idle {
      exit, course := Error, After(before, ProveIdle, Error);
    }
    if exit.Returned? && lock != null {
      WorkEndedExtends(lock.log, IdleProven);
      lock.Record(IdleProven);
    }
  }

  /** Disarm the retention that a fresh idle proof justifies. */
  method VerifyIdle(lock: GpuFileLock) returns (ok: bool)
    requires Covered(lock) && WorkEnded(lock.log) && DeviceProved(lock.log)
    modifies lock
    ensures Covered(lock) && WorkEnded(lock.log)
    ensures Started in lock.log <==> Started in old(lock.log)
    ensures lock.released == old(lock.released) && lock.quarantined == old(lock.quarantined)
    ensures ok <==> !lock.released && !lock.quarantined
    ensures ok ==> Cleared(lock.log) && !lock.releaseVerificationPending
  {
    WorkEndedExtends(lock.log, Verified);
    ok := lock.VerifyRelease();
  }

  /**
   Wait for the models to unload, prove the device idle, and only then verify the release.
   On AMD any failure or cancellation quarantines the lock before anything else can run.
   */
  method ReleaseGpu(ghost before: Course, backend: Backend, lock: GpuFileLock?, luck: Luck)
    returns (exit: Exit, ghost course: Course)
    requires lock != null ==> Covered(lock)
    requires lock != null && backend == AmdVulkan ==> WorkEnded(lock.log)
    requires MayFollow(before, Unload, backend)
    modifies if lock == null || backend == Nvidia then {} else {lock, lock.retained}
    ensures lock != null ==> Covered(lock) && lock.released == old(lock.released)
    ensures lock != null ==> (Started in lock.log <==> Started in old(lock.log))
    ensures lock != null && backend == AmdVulkan ==> WorkEnded(lock.log)
    ensures course.exit != Unsafe && (backend == Nvidia ==> exit == course.exit)
    ensures backend == AmdVulkan ==> exit in {Returned, Unsafe, Fatal} && (course.exit.Fatal? <==> exit.Fatal?)
    ensures luck != AnyLuck ==> exit in {Returned, Unsafe}
    ensures lock != null && backend == AmdVulkan && exit.Returned? ==>
              Cleared(lock.log) && !lock.releaseVerificationPending && !lock.quarantined
    ensures lock != null && backend == AmdVulkan && exit.Unsafe? ==> lock.quarantined || lock.released
    ensures luck == Fortunate && (lock != null ==> !lock.released && !old(lock.quarantined)) ==>
              exit.Returned? && (lock != null ==> !lock.quarantined)
    ensures course == before.(cleaned := true, step := course.step, exit := course.exit)
    ensures course.step in {Unload, ProveIdle} && (exit.Returned? ==> Released(course, backend))
  {
    exit, course := Await(before, Unload, backend, luck != AnyLuck);
    if exit.Returned? && backend == AmdVulkan {
      exit, course := ProveAndVerify(course, lock, luck);
    }
    if backend == AmdVulkan && exit in {Error, Cancelled} {
      KeepForGood(lock);
      exit := Unsafe;
    }
  }

  /** Only a device proved idle lets the lock be verified. */
  method ProveAndVerify(ghost before: Course, lock: GpuFileLock?, luck: Luck) returns (exit: Exit, ghost course: Course)
    requires lock != null ==> Covered(lock) && WorkEnded(lock.log)
    requires MayFollow(before, ProveIdle, AmdVulkan)
    modifies if lock == null then {} else {lock}
    ensures course == After(before, ProveIdle, course.exit) && course.exit != Unsafe
    ensures exit == course.exit || (course.exit.Returned? && exit.Error?)
    ensures luck == Steady ==> exit in {Returned, Error}
    ensures luck == Fortunate ==> course.exit.Returned?
    ensures lock != null ==>
              && Covered(lock) && WorkEnded(lock.log) && (Started in lock.log <==> Started in old(lock.log))
              && lock.released == old(lock.released) && lock.quarantined == old(lock.quarantined)
              && (exit.Returned? ==> Cleared(lock.log) && !lock.releaseVerificationPending && !lock.quarantined)
    ensures course.exit.Returned? && (lock != null ==> !lock.released && !lock.quarantined) ==> exit.Returned?
  {
    var idle;
    exit, idle, course := ProveDeviceIdle(before, lock, luck);
    if exit.Returned? && lock != null {
      var ok := VerifyIdle(lock);
      if !ok {
        exit := Error;
      }
    }
  }

  /** The lock is retained until the process ends, unless it is gone already. */
  method KeepForGood(lock: GpuFileLock?)
    requires lock != null ==> Covered(lock) && WorkEnded(lock.log)
    modifies if lock == null then {} else {lock, lock.retained}
    ensures lock != null ==>
              && Covered(lock) && WorkEnded(lock.log) && (Started in lock.log <==> Started in old(lock.log))
              && lock.released == old(lock.released) && (lock.quarantined || lock.released)
  {
    if lock != null {
      WorkEndedExtends(lock.log, Quarantined);
      var _ := lock.Quarantine();
    }
  }

  /** Best-effort release after failed work; only the AMD backend may refuse. */
  method CleanupFailedWork(ghost before: Course, backend: Backend, lock: GpuFileLock?, luck: Luck)
    returns (exit: Exit, ghost course: Course)
    requires lock != null ==> Covered(lock)
    requires lock != null && backend == AmdVulkan ==> WorkEnded(lock.log)
    requires MayFollow(before, Unload, backend)
    modifies if lock == null || backend == Nvidia then {} else {lock, lock.retained}
    ensures lock != null ==> Covered(lock) && lock.released == old(lock.released)
    ensures lock != null ==> (Started in lock.log <==> Started in old(lock.log))
    ensures lock != null && backend == AmdVulkan && exit.Returned? ==> Cleared(lock.log)
    ensures lock != null && backend == AmdVulkan && exit.Unsafe? ==> lock.quarantined || lock.released
    ensures luck != AnyLuck ==> exit in {Returned, Unsafe}
    ensures course == before.(cleaned := true, step := course.step, exit := course.exit)
    ensures course.step in {Unload, ProveIdle} && course.exit != Unsafe && (course.exit.Fatal? <==> exit.Fatal?)
    ensures if backend == AmdVulkan
            then exit in {Returned, Unsafe, Fatal} && (exit.Returned? ==> Released(course, backend))
            else exit == if course.exit.Error? then Returned else course.exit
  {
    if backend == AmdVulkan {
      exit, course := ReleaseGpu(before, backend, lock, luck);
    } else {
      exit, course := ReleaseGpu(before, backend, null, luck);
      if exit.Error? {
        exit := Returned;
      }
    }
  }

  /** Wait until the work or the heartbeat ends; running out of time is an error. */
  method WaitForFirst(ghost before: Course, backend: Backend, luck: Luck)
    returns (exit: Exit, heartbeatFirst: bool, timely: bool, ghost course: Course)
    requires Just(before, Claim)
    ensures course == After(before, Wait(heartbeatFirst), exit) && exit != Unsafe && (exit.Returned? ==> timely)
    ensures luck == Fortunate ==> exit.Returned? && !heartbeatFirst
  {
    heartbeatFirst := *;
    if luck == Fortunate { heartbeatFirst := false; }
    exit, course := Await(before, Wait(heartbeatFirst), backend, luck == Fortunate);
    timely := *;
    if luck == Fortunate { timely := true; }
    if exit.Returned? && !timely {
      exit, course := Error, After(before, Wait(heartbeatFirst), Error);
    }
  }

  /** Await the work, or its cancelled rest. Unless the await itself is torn down, the work has then ended. */
  method AwaitWork(ghost before: Course, step: Step, backend: Backend, lock: GpuFileLock?, steady: bool)
    returns (exit: Exit, ghost course: Course)
    requires step in {WorkEnds, StopWork} && MayFollow(before, step, backend)
    requires lock != null ==> Covered(lock)
    modifies if lock == null || backend == Nvidia then {} else {lock}
    ensures course == After(before, step, exit) && exit != Unsafe && (steady ==> exit.Returned?)
    ensures lock != null ==>
              && Covered(lock) && lock.released == old(lock.released) && lock.quarantined == old(lock.quarantined)
              && (Started in lock.log <==> Started in old(lock.log))
              && (backend == AmdVulkan && exit.Returned? ==> WorkEnded(lock.log))
              && (old(Cleared(lock.log)) ==> Cleared(lock.log))
  {
    exit, course := Await(before, step, backend, steady);
    if lock != null && backend == AmdVulkan && exit.Returned? {
      WorkEndedExtends(lock.log, Ended);
      lock.Record(Ended);
    }
  }

  /** The guarded part of the lease: run, release, complete. */
  method TryBody(ghost before: Course, backend: Backend, lock: GpuFileLock?, luck: Luck)
    returns (exit: Exit, cleanupAttempted: bool, settlement: Settlement, ghost course: Course)
    requires lock != null ==> Covered(lock) && !lock.released
    requires Just(before, Claim) && before == Start.(step := Claim)
    modifies if lock == null || backend == Nvidia then {} else {lock, lock.retained}
    ensures lock != null ==> Covered(lock) && !lock.released && (Started in lock.log <==> Started in old(lock.log))
    ensures lock != null && backend == AmdVulkan && cleanupAttempted && !exit.Fatal?
            ==> Cleared(lock.log) || lock.quarantined
    ensures settlement.Completed? ==> cleanupAttempted && (settlement.applied <==> exit.Returned?)
    ensures exit.Returned? ==> settlement == Completed(true)
    ensures lock != null && backend == AmdVulkan && exit.Returned? ==>
              !lock.releaseVerificationPending && !lock.quarantined
    ensures lock != null && backend == AmdVulkan && settlement.Completed? ==> Cleared(lock.log)
    ensures !settlement.Retried?
    ensures luck == Fortunate && (lock != null ==> !old(lock.quarantined)) ==> exit.Returned?
    ensures Leased(course) && !course.handling && !course.handedBack && course.cleaned == cleanupAttempted
    ensures settlement.Completed? <==> course.completed
    ensures course.completed ==> course.worked && course.cleaned
    ensures !exit.Returned? && !course.exit.Returned? ==> exit == course.exit || exit == Unsafe
  {
    cleanupAttempted, settlement := false, Unsettled;
    var heartbeatFirst, timely;
    exit, heartbeatFirst, timely, course := WaitForFirst(before, backend, luck);
    if exit != Returned {
      return;
    }
    if heartbeatFirst {
      exit, course := Await(course, HeartbeatFails, backend, false);
      if exit.Returned? {
        exit := Error;
      }
      return;
    }
    exit, course := AwaitWork(course, WorkEnds, backend, lock, luck == Fortunate);
    if exit != Returned {
      return;
    }
    cleanupAttempted := true;
    exit, course := ReleaseGpu(course, backend, lock, if luck == Fortunate then Fortunate else AnyLuck);
    if exit != Returned {
      return;
    }
    var heartbeatStopped: bool := *;
    if heartbeatStopped && luck != Fortunate {
      exit, course := Await(course, HeartbeatEnds, backend, false);
      if exit != Returned {
        return;
      }
    }
    exit, course := Await(course, Complete, backend, luck == Fortunate);
    if exit != Returned {
      return;
    }
    var applied: bool := *;
    if luck == Fortunate { applied := true; }
    settlement := Completed(applied);
    if !applied {
      exit := Error;
    }
  }

  /**
   The handler: stop the work, clean up unless that was already attempted, and hand the item
   back. If the work cannot be seen to end, nothing is verified and nothing is handed back.
   */
  method HandleFailure(ghost before: Course, backend: Backend, lock: GpuFileLock?, failure: Exit, cleanupAttempted: bool,
                       luck: Luck)
    returns (exit: Exit, retried: bool, ghost course: Course)
    requires failure in {Error, Cancelled, Unsafe}
    requires lock != null ==> Covered(lock) && !lock.released
    requires lock != null && backend == AmdVulkan && cleanupAttempted ==> Cleared(lock.log) || lock.quarantined
    requires Leased(before) && !before.handling && !before.handedBack && before.cleaned == cleanupAttempted
    modifies if lock == null || backend == Nvidia then {} else {lock, lock.retained}
    ensures lock != null ==> Covered(lock) && !lock.released && (Started in lock.log <==> Started in old(lock.log))
    ensures lock != null && backend == AmdVulkan && retried ==> Cleared(lock.log) || lock.quarantined
    ensures exit != Returned
    ensures retried ==> exit == failure || (exit == Unsafe && backend == AmdVulkan && !cleanupAttempted)
    ensures retried && backend == AmdVulkan && !cleanupAttempted && lock != null && exit != Unsafe ==> Cleared(lock.log)
    ensures luck != AnyLuck ==> retried
    ensures course.handling && course.completed == before.completed && course.worked == before.worked
    ensures (retried <==> course.handedBack) && (retried ==> course.cleaned) && (before.cleaned ==> course.cleaned)
    ensures !retried ==> exit == course.exit
  {
    retried := false;
    exit, course := AwaitWork(before, StopWork, backend, lock, luck != AnyLuck);
    if exit != Returned {
      return;
    }
    var cleanup := Returned;
    if !cleanupAttempted {
      cleanup, course := CleanupFailedWork(course, backend, lock, luck);
      if cleanup !in {Returned, Unsafe} {
        return cleanup, retried, course;
      }
    }
    exit, course := Await(course, HandBack, backend, luck != AnyLuck);
    if exit != Returned {
      return;
    }
    retried := true;
    exit := if cleanup.Unsafe? then Unsafe else failure;
  }

  /**
   The lease body. Whatever raises or is cancelled at any await, AMD work stays covered: its
   lock is pending, quarantined, or cleared, and never released from in here. `Returned` means
   that the device was released and then the fenced completion applied. The item is handed back only
   once the device is cleared or the lock is quarantined. If the awaits of the handlers end well, it is
   handed back whenever it was not completed: only a fatal error leaves it to its lease's timeout.
   */
  method RunLease(ghost before: Course, backend: Backend, lock: GpuFileLock?, luck: Luck)
    returns (exit: Exit, settlement: Settlement, ghost course: Course)
    requires lock != null ==> Covered(lock) && !lock.released && !lock.quarantined && lock.log == []
    requires before == Start.(step := Claim)
    modifies if lock == null || backend == Nvidia then {} else {lock, lock.retained}
    ensures lock != null ==> Covered(lock) && !lock.released
    ensures lock != null ==> (Started in lock.log <==> backend == AmdVulkan)
    ensures lock != null && backend == AmdVulkan && exit.Returned? ==>
              !lock.releaseVerificationPending && !lock.quarantined
    ensures exit.Returned? ==> settlement == Completed(true)
    ensures backend == AmdVulkan && lock == null ==> exit.Error? && settlement.Unsettled? && course == before
    ensures backend == AmdVulkan && lock != null && settlement == Completed(true) ==> Cleared(lock.log)
    ensures backend == AmdVulkan && lock != null && settlement.Retried? ==> Cleared(lock.log) || lock.quarantined
    ensures luck == Fortunate && (backend == AmdVulkan ==> lock != null) ==> exit.Returned?
    ensures luck != AnyLuck && (backend == AmdVulkan ==> lock != null) && !exit.Fatal? ==>
              if exit.Returned? then settlement == Completed(true) else settlement.Retried?
    ensures (backend == AmdVulkan ==> lock != null) ==>
              && course.step == StopAll && (!course.exit.Returned? ==> exit == course.exit)
              && (settlement.Retried? <==> course.handedBack) && (settlement.Completed? ==> course.completed)
              && (exit.Returned? ==> course.completed && !course.handling)
              && (settlement.Completed? ==> course.worked && course.cleaned)
              && (settlement.Retried? ==> course.handling && course.cleaned)
  {
    settlement, course := Unsettled, before;
    if backend == AmdVulkan {
      if lock == null {
        return Error, settlement, course;
      }
      var armed := lock.RequireVerifiedRelease();
      if !armed {
        return Error, settlement, course;
      }
      lock.Record(Started);
    }
    var cleanupAttempted;
    exit, cleanupAttempted, settlement, course := TryBody(before, backend, lock, luck);
    if exit in {Error, Cancelled, Unsafe} {
      var retried;
      exit, retried, course := HandleFailure(course, backend, lock, exit, cleanupAttempted, luck);
      if retried {
        settlement := Retried;
      }
    }
    var stopped;
    stopped, course := Await(course, StopAll, backend, luck != AnyLuck);
    if stopped != Returned {
      exit := stopped;
    }
  }

  datatype CycleOutcome = GpuBusy | GpuProcessBusy | Idle | Passed | Failed(exit: Exit)

  /**
   One cycle: due work is queued first, and then at most one item is claimed, only under the lock; a
   busy device defers the head instead. When the cycle ends the lock it took is released or retained
   for good, and work that was not cleared keeps it locked. Fortunate, a cycle whose device is `idle`
   and whose queue has an item `due` passes.
   */
  method RunAiWorkCycle(backend: Backend, handle: FileHandle?, retained: RetainedHandles, luck: Luck, idle: bool, due: bool)
    returns (outcome: CycleOutcome, lock: GpuFileLock?, settlement: Settlement, claimed: bool, ghost course: Course)
    requires handle != null ==> handle.locked && handle.open
    modifies retained, if handle == null then {} else {handle}
    ensures lock != null ==> handle != null && lock.handle == handle && Covered(lock) && (lock.released || lock.quarantined)
    ensures lock != null && Started in lock.log && !Cleared(lock.log)
            ==> lock.quarantined && handle.locked && handle in retained.handles
    ensures lock == null ==> retained.handles == old(retained.handles) && (handle != null ==> handle.locked)
    ensures outcome.Passed? ==> settlement == Completed(true)
    ensures lock != null && claimed && backend == AmdVulkan ==> Started in lock.log
    ensures lock != null && (!claimed || outcome.Passed?) ==> lock.released
    ensures lock != null && backend == AmdVulkan && settlement == Completed(true) ==> Cleared(lock.log)
    ensures lock != null && outcome == Failed(Unsafe) ==> lock.quarantined
    ensures claimed ==> lock != null
    ensures Reported(outcome, claimed, settlement, course)
    ensures luck == Fortunate ==>
              outcome == if handle == null then GpuBusy else if !idle then GpuProcessBusy else if !due then Idle else Passed
    ensures luck != AnyLuck && claimed && outcome != Failed(Fatal) ==>
              if outcome.Passed? then settlement == Completed(true) else settlement.Retried?
  {
    settlement, lock, claimed := Unsettled, null, false;
    var step;
    step, course := Await(Start, EnqueueWeekly, backend, luck == Fortunate);
    if step != Returned {
      return Failed(step), null, settlement, claimed, course;
    }
    step, course := Await(course, EnqueueAdmin, backend, luck == Fortunate);
    if step != Returned {
      return Failed(step), null, settlement, claimed, course;
    }
    if handle == null {
      step, course := Await(course, Defer, backend, luck == Fortunate);
      return if step.Returned? then GpuBusy else Failed(step), null, settlement, claimed, course;
    }
    lock := new GpuFileLock(handle, retained);
    outcome, settlement, claimed, course := RunLocked(course, backend, lock, luck, idle, due);
    lock.Release();
  }

  /**
   A cycle reports what it did: a busy device after its head was deferred, an empty queue after a claim
   that found nothing, a pass after the item was completed, and a failure otherwise. Only a claimed item
   is worked on, and in the end that work is stopped.
   */
  predicate Reported(outcome: CycleOutcome, claimed: bool, settlement: Settlement, course: Course) {
    && (claimed <==> course.step == StopAll)
    && (settlement.Retried? <==> course.handedBack) && (settlement.Completed? ==> course.completed)
    && (settlement.Completed? ==> course.worked && course.cleaned)
    && (settlement.Retried? ==> course.handling && course.cleaned)
    && match outcome
       case GpuBusy => Just(course, Defer)
       case GpuProcessBusy => Just(course, Defer)
       case Idle => Just(course, Claim)
       case Passed => Just(course, StopAll) && course.completed && !course.handling
       case Failed(exit) => claimed || course.exit == exit != Returned
  }

  /** The part of a cycle that holds the lock. */
  method RunLocked(ghost before: Course, backend: Backend, lock: GpuFileLock, luck: Luck, idle: bool, due: bool)
    returns (outcome: CycleOutcome, settlement: Settlement, claimed: bool, ghost course: Course)
    requires Covered(lock) && !lock.released && !lock.quarantined && !lock.releaseVerificationPending && lock.log == []
    requires before == Start.(step := EnqueueAdmin)
    modifies lock, lock.retained
    ensures Covered(lock) && !lock.released
    ensures outcome.Passed? ==> settlement == Completed(true)
    ensures claimed && backend == AmdVulkan ==> Started in lock.log
    ensures !claimed || outcome.Passed? ==> !lock.quarantined && !lock.releaseVerificationPending
    ensures backend == AmdVulkan && settlement == Completed(true) ==> Cleared(lock.log)
    ensures outcome == Failed(Unsafe) ==> lock.quarantined
    ensures Reported(outcome, claimed, settlement, course) && !outcome.GpuBusy?
    ensures luck == Fortunate ==> outcome == if !idle then GpuProcessBusy else if !due then Idle else Passed
    ensures luck != AnyLuck && claimed && outcome != Failed(Fatal) ==>
              if outcome.Passed? then settlement == Completed(true) else settlement.Retried?
  {
    settlement, claimed := Unsettled, false;
    var step;
    step, course := Await(before, Prepare, backend, luck == Fortunate);
    if step != Returned {
      return Failed(step), settlement, claimed, course;
    }
    var prepared: bool := *;
    if luck == Fortunate { prepared := idle; }
    if !prepared {
      step, course := Await(course, Defer, backend, luck == Fortunate);
      return if step.Returned? then GpuProcessBusy else Failed(step), settlement, claimed, course;
    }
    step, course := Await(course, Claim, backend, luck == Fortunate);
    if step != Returned {
      return Failed(step), settlement, claimed, course;
    }
    claimed := *;
    if luck == Fortunate { claimed := due; }
    if !claimed {
      return Idle, settlement, claimed, course;
    }
    var exit;
    exit, settlement, course := RunLease(course, backend, lock, luck);
    if exit.Unsafe? {
      var _ := lock.Quarantine();
    }
    outcome := if exit.Returned? then Passed else Failed(exit);
  }
}
