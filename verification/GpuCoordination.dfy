/**
 Cross-process ownership of the one GPU. A lock that was armed for verified release is
 retained, not released, until fresh device cleanup has been proved.
 */
module GpuCoordination {

  /** What happened to one lock and to the work done under it, in order. */
  datatype Event = Started | Ended | IdleProven | Verified | Quarantined | Unlocked

  /** Since the last start, work ended, then the device was proved idle, then release was verified. */
  ghost predicate Cleared(log: seq<Event>) {
    exists e, p, v ::
      && 0 <= e < p < v < |log|
      && log[e] == Ended && log[p] == IdleProven && log[v] == Verified
      && Started !in log[e..]
  }

  /** Every unlock is the first, and comes only after the work done under the lock was cleared. */
  ghost predicate Safe(log: seq<Event>) {
    forall i :: 0 <= i < |log| && log[i] == Unlocked ==>
      && Unlocked !in log[..i]
      && (Started in log[..i] ==> Cleared(log[..i]))
  }

  lemma ClearedExtends(log: seq<Event>, event: Event)
    requires Cleared(log) && event != Started
    ensures Cleared(log + [event])
  {
    var e, p, v :|
      && 0 <= e < p < v < |log|
      && log[e] == Ended && log[p] == IdleProven && log[v] == Verified
      && Started !in log[e..];
    var longer := log + [event];
    assert longer[e..] == log[e..] + [event];
    assert longer[e] == Ended && longer[p] == IdleProven && longer[v] == Verified;
  }

  lemma SafeExtends(log: seq<Event>, event: Event)
    requires Safe(log)
    requires event == Unlocked ==> Unlocked !in log && (Started in log ==> Cleared(log))
    ensures Safe(log + [event])
  {
    var longer := log + [event];
    forall i | 0 <= i < |longer| && longer[i] == Unlocked
      ensures Unlocked !in longer[..i] && (Started in longer[..i] ==> Cleared(longer[..i]))
    {
      assert longer[..i] == log[..i];
      if i == |log| {
        assert longer[..i] == log;
      }
    }
  }

  /** The descriptor an advisory lock is held on. */
  class FileHandle {
    var locked: bool
    var open: bool

    constructor ()
      ensures locked && open
    {
      locked, open := true, true;
    }
  }

  /** Handles kept alive until the process exits. */
  class RetainedHandles {
    var handles: seq<FileHandle>

    constructor ()
      ensures handles == []
    {
      handles := [];
    }
  }

  class GpuFileLock {
    const handle: FileHandle
    const retained: RetainedHandles
    var released: bool
    var quarantined: bool
    var releaseVerificationPending: bool
    ghost var log: seq<Event>

    ghost predicate Valid()
      reads this, handle, retained
    {
      && Safe(log)
      && !(released && quarantined) && !(released && releaseVerificationPending)
      && (handle.locked <==> !released) && (handle.open <==> !released)
      && (released <==> Unlocked in log)
      && (quarantined ==> handle in retained.handles)
    }

    /** Work done under the lock is either covered by a pending verification or cleared. */
    ghost predicate Guarded()
      reads this
    {
      Started in log ==> releaseVerificationPending || quarantined || Cleared(log)
    }

    constructor (handle: FileHandle, retained: RetainedHandles)
      requires handle.locked && handle.open
      ensures this.handle == handle && this.retained == retained
      ensures Valid() && Guarded() && log == []
      ensures !released && !quarantined && !releaseVerificationPending
    {
      this.handle := handle;
      this.retained := retained;
      released, quarantined, releaseVerificationPending := false, false, false;
      log := [];
    }

    /** Note what the work under the lock did. */
    ghost method Record(event: Event)
      requires Valid() && event != Unlocked
      modifies this`log
      ensures Valid() && log == old(log) + [event]
      ensures old(Cleared(log)) && event != Started ==> Cleared(log)
    {
      SafeExtends(log, event);
      if Cleared(log) && event != Started {
        ClearedExtends(log, event);
      }
      log := log + [event];
    }

    /**
     Release ownership, or retain it when verification is still pending. A lock already
     released or quarantined is left exactly as it is.
     */
    method Release()
      requires Valid() && Guarded()
      modifies this, handle, retained
      ensures Valid() && Guarded()
      ensures released || quarantined
      ensures old(released) || old(quarantined)
              ==> released == old(released) && quarantined == old(quarantined) && log == old(log)
      ensures !old(released) && !old(quarantined) ==>
                if old(releaseVerificationPending)
                then quarantined && handle.locked && log == old(log) + [Quarantined]
                else released && log == old(log) + [Unlocked]
      ensures Started in log && !Cleared(log) ==> quarantined && handle.locked
      ensures old(Cleared(log)) ==> Cleared(log)
    {
      if released || quarantined {
        return;
      }
      if releaseVerificationPending {
        var _ := Quarantine();
        return;
      }
      SafeExtends(log, Unlocked);
      if Cleared(log) {
        ClearedExtends(log, Unlocked);
      }
      handle.locked := false;
      handle.open := false;
      released := true;
      log := log + [Unlocked];
    }

    /** Arm retention before GPU work; refused on a lock that is no longer available. */
    method RequireVerifiedRelease() returns (ok: bool)
      requires Valid()
      modifies this`releaseVerificationPending
      ensures Valid()
      ensures ok <==> !released && !quarantined
      ensures releaseVerificationPending == (ok || old(releaseVerificationPending))
    {
      if released || quarantined {
        return false;
      }
      releaseVerificationPending := true;
      return true;
    }

    /** Disarm retention. The caller has proved that work ended and the device is idle. */
    method VerifyRelease() returns (ok: bool)
      requires Valid() && Guarded()
      requires exists e, p :: 0 <= e < p < |log| && log[e] == Ended && log[p] == IdleProven && Started !in log[e..]
      modifies this`releaseVerificationPending, this`log
      ensures Valid() && Guarded()
      ensures ok <==> !released && !quarantined
      ensures ok ==> !releaseVerificationPending && log == old(log) + [Verified] && Cleared(log)
      ensures !ok ==> releaseVerificationPending == old(releaseVerificationPending) && log == old(log)
      ensures Started in log <==> Started in old(log)
    {
      if released || quarantined {
        return false;
      }
      ghost var e, p :| 0 <= e < p < |log| && log[e] == Ended && log[p] == IdleProven && Started !in log[e..];
      releaseVerificationPending := false;
      Record(Verified);
      assert log[e..] == old(log)[e..] + [Verified];
      assert log[e] == Ended && log[p] == IdleProven && log[|log| - 1] == Verified;
      return true;
    }

    /** Put the locked handle where nothing unlocks it while the process lives. */
    method Quarantine() returns (ok: bool)
      requires Valid()
      modifies this`quarantined, this`log, retained
      ensures Valid()
      ensures ok <==> !released
      ensures ok ==> quarantined && handle.locked && handle in retained.handles
      ensures old(quarantined) || !ok ==> quarantined == old(quarantined) && log == old(log)
      ensures ok && !old(quarantined) ==> log == old(log) + [Quarantined]
                                          && retained.handles == old(retained.handles) + [handle]
      ensures old(Cleared(log)) ==> Cleared(log)
    {
      if released {
        return false;
      }
      if !quarantined {
        retained.handles := retained.handles + [handle];
        quarantined := true;
        Record(Quarantined);
      }
      return true;
    }
  }
}
