/**
 The lease-fenced queue table of the shared GPU. Each transaction is a method of the table;
 its contract is stated with the declarative functions that `QueueRuns` interleaves.
 */
module AiWorkQueue {
  import opened Wrappers

  type Id = nat
  type Token = nat
  type Instant = int

  /** In the alphabetical order of the stored names, which the queue sorts by. */
  datatype Kind = AdminGeneration | AdminLearning | AdminRegeneration | WeeklyGeneration | WeeklyLearning

  function Rank(kind: Kind): nat {
    match kind
    case AdminGeneration => 0
    case AdminLearning => 1
    case AdminRegeneration => 2
    case WeeklyGeneration => 3
    case WeeklyLearning => 4
  }

  predicate Weekly(kind: Kind) {
    kind.WeeklyGeneration? || kind.WeeklyLearning?
  }

  /** A finished row keeps its place with no next attempt. */
  datatype Row = Row(
    kind: Kind, scheduledAt: Instant, nextAttemptAt: Option<Instant>,
    attemptCount: nat, leaseToken: Option<Token>, heartbeatAt: Option<Instant>)

  type Rows = map<Id, Row>

  datatype Lease = Lease(id: Id, kind: Kind, scheduledAt: Instant, token: Token)

  predicate Unfinished(rows: Rows, id: Id) {
    id in rows && rows[id].nextAttemptAt.Some?
  }

  /** The queue order: schedule, then kind, then identity. */
  predicate Before(a: Row, aId: Id, b: Row, bId: Id) {
    || a.scheduledAt < b.scheduledAt
    || (a.scheduledAt == b.scheduledAt && Rank(a.kind) < Rank(b.kind))
    || (a.scheduledAt == b.scheduledAt && Rank(a.kind) == Rank(b.kind) && aId < bId)
  }

  /** The first unfinished row that no other session has locked. */
  ghost predicate IsHead(rows: Rows, id: Id, locked: set<Id>) {
    && Unfinished(rows, id) && id !in locked
    && forall other :: Unfinished(rows, other) && other !in locked && other != id
                       ==> Before(rows[id], id, rows[other], other)
  }

  /** The kinds as the table stores and orders them. */
  function StoredName(kind: Kind): string {
    match kind
    case AdminGeneration => "admin_" + "generation"
    case AdminLearning => "admin_" + "learning"
    case AdminRegeneration => "admin_" + "regeneration"
    case WeeklyGeneration => "weekly_" + "generation"
    case WeeklyLearning => "weekly_" + "learning"
  }

  predicate Alphabetical(a: string, b: string) {
    b != "" && (a == "" || a[0] < b[0] || (a[0] == b[0] && Alphabetical(a[1..], b[1..])))
  }

  lemma {:induction false} AlphabeticalBehind(start: string, a: string, b: string)
    ensures Alphabetical(start + a, start + b) <==> Alphabetical(a, b)
  {
    if start == "" {
      assert start + a == a && start + b == b;
    } else {
      assert (start + a)[1..] == start[1..] + a && (start + b)[1..] == start[1..] + b;
      AlphabeticalBehind(start[1..], a, b);
    }
  }

  lemma RankIsAlphabetical(a: Kind, b: Kind)
    ensures Rank(a) < Rank(b) <==> Alphabetical(StoredName(a), StoredName(b))
    ensures Rank(a) == Rank(b) <==> a == b
  {
    var names := ["generation", "learning", "regeneration"];
    forall i, j | 0 <= i < 3 && 0 <= j < 3
      ensures Alphabetical(names[i], names[j]) <==> i < j
      ensures Alphabetical("admin_" + names[i], "admin_" + names[j]) <==> i < j
      ensures Alphabetical("weekly_" + names[i], "weekly_" + names[j]) <==> i < j
      ensures Alphabetical("admin_" + names[i], "weekly_" + names[j])
      ensures !Alphabetical("weekly_" + names[i], "admin_" + names[j])
    {
      EachIsItself(names[i]);
      assert ("admin_" + names[i])[0] == 'a' && ("weekly_" + names[i])[0] == 'w';
      assert ("admin_" + names[j])[0] == 'a' && ("weekly_" + names[j])[0] == 'w';
      AlphabeticalBehind("admin_", names[i], names[j]);
      AlphabeticalBehind("weekly_", names[i], names[j]);
    }
    assert names[0] == "generation" && names[1] == "learning" && names[2] == "regeneration";
  }

  lemma {:induction false} EachIsItself(name: string)
    ensures !Alphabetical(name, name)
  {
    if name != "" { EachIsItself(name[1..]); }
  }

  lemma WeeklyByName(kind: Kind)
    ensures Weekly(kind) <==> "weekly_" <= StoredName(kind)
  {
    assert StoredName(kind)[0] == if Weekly(kind) then 'w' else 'a';
  }

  /** The head is the oldest: by schedule, then by the stored kind, then by identity. */
  lemma HeadIsOldest(rows: Rows, id: Id, locked: set<Id>, other: Id)
    requires IsHead(rows, id, locked) && Unfinished(rows, other) && other !in locked && other != id
    ensures var (head, next) := (rows[id], rows[other]);
            || head.scheduledAt < next.scheduledAt
            || (head.scheduledAt == next.scheduledAt && Alphabetical(StoredName(head.kind), StoredName(next.kind)))
            || (head.scheduledAt == next.scheduledAt && head.kind == next.kind && id < other)
  {
    RankIsAlphabetical(rows[id].kind, rows[other].kind);
  }

  /** No row, finished or not, shows activity after the instant. */
  ghost predicate QuietSince(rows: Rows, instant: Instant) {
    forall id :: id in rows && rows[id].heartbeatAt.Some? ==> rows[id].heartbeatAt.value <= instant
  }

  predicate LiveLease(row: Row, after: Instant) {
    row.leaseToken.Some? && row.heartbeatAt.Some? && row.heartbeatAt.value > after
  }

  ghost predicate Claimable(rows: Rows, id: Id, now: Instant, staleAfter: nat, minimumGap: nat, locked: set<Id>) {
    && QuietSince(rows, now - minimumGap)
    && IsHead(rows, id, locked)
    && rows[id].nextAttemptAt.value <= now
    && !LiveLease(rows[id], now - staleAfter)
  }

  ghost predicate Deferrable(rows: Rows, id: Id, now: Instant, locked: set<Id>) {
    && IsHead(rows, id, locked)
    && rows[id].nextAttemptAt.value <= now
    && rows[id].leaseToken.None?
  }

  function ClaimRow(rows: Rows, id: Id, token: Token, now: Instant): Rows
    requires id in rows
  {
    rows[id := rows[id].(leaseToken := Some(token), heartbeatAt := Some(now),
                         attemptCount := rows[id].attemptCount + 1)]
  }

  /** The token still matches: the only authority to change a leased row or apply a result. */
  predicate Current(rows: Rows, id: Id, token: Token) {
    id in rows && rows[id].leaseToken == Some(token)
  }

  function HeartbeatRow(rows: Rows, id: Id, token: Token, now: Instant): Rows {
    if Current(rows, id, token) then rows[id := rows[id].(heartbeatAt := Some(now))] else rows
  }

  function CompleteRow(rows: Rows, id: Id, token: Token, now: Instant): Rows {
    if Current(rows, id, token)
    then rows[id := rows[id].(nextAttemptAt := None, leaseToken := None, heartbeatAt := Some(now))]
    else rows
  }

  function RetryRow(rows: Rows, id: Id, token: Token, now: Instant, retryAfter: nat): Rows {
    if Current(rows, id, token)
    then rows[id := rows[id].(nextAttemptAt := Some(now + retryAfter), leaseToken := None, heartbeatAt := Some(now))]
    else rows
  }

  predicate SlotTaken(rows: Rows, kind: Kind, scheduledAt: Instant) {
    exists id | id in rows :: rows[id].kind == kind && rows[id].scheduledAt == scheduledAt
  }

  /** Insert, or do nothing when the identity or the weekly slot already has a row. */
  function EnqueueRow(rows: Rows, id: Id, kind: Kind, scheduledAt: Instant, next: Option<Instant>): Rows {
    if id in rows || (Weekly(kind) && SlotTaken(rows, kind, scheduledAt)) then rows
    else rows[id := Row(kind, scheduledAt, next, 0, None, None)]
  }

  datatype JobStatus = Pending | Running | Passed | Failed | Cancelled

  type Jobs = map<Id, JobStatus>

  /** Nothing is left to do for an admin job. */
  predicate Settled(jobs: Jobs, id: Id) {
    id !in jobs || jobs[id] in {Passed, Cancelled}
  }

  /** The linked job may start: the lease is current and there is something left to do. */
  predicate MayBegin(rows: Rows, jobs: Jobs, id: Id, token: Token) {
    Current(rows, id, token) && !Settled(jobs, id)
  }

  /** The linked job may take a status: the lease is current and the job still exists. */
  predicate MayFinish(rows: Rows, jobs: Jobs, id: Id, token: Token) {
    Current(rows, id, token) && id in jobs
  }

  class QueueTable {
    var rows: Rows
    var nextToken: Token
    var jobs: Jobs

    constructor ()
      ensures rows == map[] && nextToken == 0 && jobs == map[]
    {
      rows, nextToken, jobs := map[], 0, map[];
    }

    /** Under a current token an unsettled job becomes running; anything else leaves it alone. */
    method ClaimQuizJob(lease: Lease) returns (claimed: bool)
      modifies this`jobs
      ensures claimed <==> MayBegin(rows, old(jobs), lease.id, lease.token)
      ensures lease.id in rows && rows[lease.id].leaseToken == Some(lease.token) && lease.id in old(jobs)
              && (old(jobs)[lease.id] == Pending || old(jobs)[lease.id] == Running || old(jobs)[lease.id] == Failed)
              ==> claimed
      ensures claimed ==> lease.id in old(jobs) && old(jobs)[lease.id] != Passed && old(jobs)[lease.id] != Cancelled
      ensures jobs == if claimed then old(jobs)[lease.id := Running] else old(jobs)
    {
      if lease.id !in rows || rows[lease.id].leaseToken != Some(lease.token) {
        return false;
      }
      if lease.id !in jobs || jobs[lease.id] in {Passed, Cancelled} {
        return false;
      }
      jobs := jobs[lease.id := Running];
      return true;
    }

    /** Set a job's status, unless the lease was replaced or the job is gone. */
    method FinishJob(lease: Lease, status: JobStatus) returns (applied: bool)
      modifies this`jobs
      ensures applied <==> MayFinish(rows, old(jobs), lease.id, lease.token)
      ensures jobs == if applied then old(jobs)[lease.id := status] else old(jobs)
    {
      if lease.id !in rows || rows[lease.id].leaseToken != Some(lease.token) {
        return false;
      }
      if lease.id !in jobs {
        return false;
      }
      jobs := jobs[lease.id := status];
      return true;
    }

    /** The most recent heartbeat of any row. */
    method LatestActivity() returns (latest: Option<Instant>)
      ensures latest.None? ==> forall instant :: QuietSince(rows, instant)
      ensures latest.Some? ==> forall instant :: QuietSince(rows, instant) <==> latest.value <= instant
    {
      latest := None;
      var ids := rows.Keys;
      ghost var seen: set<Id> := {};
      while ids != {}
        invariant seen + ids == rows.Keys
        invariant forall id :: id in seen && rows[id].heartbeatAt.Some?
                               ==> latest.Some? && rows[id].heartbeatAt.value <= latest.value
        invariant latest.Some? ==> exists id :: id in seen && rows[id].heartbeatAt == latest
        decreases ids
      {
        var id :| id in ids;
        ids := ids - {id};
        seen := seen + {id};
        var heartbeat := rows[id].heartbeatAt;
        if heartbeat.Some? && (latest.None? || heartbeat.value > latest.value) {
          latest := heartbeat;
        }
      }
    }

    /** The first unfinished row in queue order among those not locked elsewhere. */
    method Oldest(locked: set<Id>) returns (head: Option<Id>)
      ensures head.Some? ==> IsHead(rows, head.value, locked)
      ensures head.None? ==> forall id :: Unfinished(rows, id) ==> id in locked
    {
      head := None;
      var ids := rows.Keys;
      ghost var seen: set<Id> := {};
      while ids != {}
        invariant seen + ids == rows.Keys
        invariant head.None? ==> forall id :: id in seen && Unfinished(rows, id) ==> id in locked
        invariant head.Some? ==> head.value in seen && Unfinished(rows, head.value) && head.value !in locked
        invariant head.Some? ==>
                    forall id :: id in seen && Unfinished(rows, id) && id !in locked && id != head.value
                                 ==> Before(rows[head.value], head.value, rows[id], id)
        decreases ids
      {
        var id :| id in ids;
        ids := ids - {id};
        seen := seen + {id};
        if rows[id].nextAttemptAt.Some? && id !in locked
           && (head.None? || Before(rows[id], id, rows[head.value], head.value)) {
          head := Some(id);
        }
      }
    }

    /** Claim the oldest due item not locked elsewhere. Refused exactly when no row is claimable. */
    method ClaimDueWork(now: Instant, staleAfter: nat, minimumGap: nat, locked: set<Id>) returns (lease: Option<Lease>)
      modifies this`rows, this`nextToken
      ensures lease.Some? <==> exists id :: Claimable(old(rows), id, now, staleAfter, minimumGap, locked)
      ensures lease.None? ==> rows == old(rows) && nextToken == old(nextToken)
      ensures lease.Some? ==>
                var id := lease.value.id;
                && Claimable(old(rows), id, now, staleAfter, minimumGap, locked)
                && lease.value == Lease(id, old(rows)[id].kind, old(rows)[id].scheduledAt, old(nextToken))
                && rows == ClaimRow(old(rows), id, lease.value.token, now)
                && nextToken == old(nextToken) + 1
    {
      var latest := LatestActivity();
      if latest.Some? && latest.value > now - minimumGap {
        assert !QuietSince(rows, now - minimumGap);
        return None;
      }
      var head := Oldest(locked);
      if head.None? {
        return None;
      }
      var record := rows[head.value];
      if record.nextAttemptAt.value > now || LiveLease(record, now - staleAfter) {
        forall id | Claimable(rows, id, now, staleAfter, minimumGap, locked)
          ensures id == head.value
        {
        }
        return None;
      }
      var token := nextToken;
      assert QuietSince(rows, now - minimumGap);
      assert Claimable(rows, head.value, now, staleAfter, minimumGap, locked);
      rows := rows[head.value := record.(leaseToken := Some(token), heartbeatAt := Some(now),
                                         attemptCount := record.attemptCount + 1)];
      nextToken := nextToken + 1;
      return Some(Lease(head.value, record.kind, record.scheduledAt, token));
    }

    /** Move the oldest due item not locked elsewhere, if it is unleased. */
    method DeferDueWork(now: Instant, retryAfter: nat, locked: set<Id>) returns (moved: bool)
      modifies this`rows
      ensures moved <==> exists id :: Deferrable(old(rows), id, now, locked)
      ensures !moved ==> rows == old(rows)
      ensures moved ==> exists id :: Deferrable(old(rows), id, now, locked)
                                     && rows == old(rows)[id := old(rows)[id].(nextAttemptAt := Some(now + retryAfter))]
    {
      var head := Oldest(locked);
      if head.None? {
        return false;
      }
      var record := rows[head.value];
      if record.nextAttemptAt.value > now || record.leaseToken.Some? {
        forall id | Deferrable(rows, id, now, locked)
          ensures id == head.value
        {
        }
        return false;
      }
      assert Deferrable(rows, head.value, now, locked);
      rows := rows[head.value := record.(nextAttemptAt := Some(now + retryAfter))];
      return true;
    }

    /** Apply an update only while the opaque token still matches. */
    method FencedUpdate(lease: Lease, update: Row -> Row) returns (applied: bool)
      modifies this`rows
      ensures applied <==> Current(old(rows), lease.id, lease.token)
      ensures rows == if applied then old(rows)[lease.id := update(old(rows)[lease.id])] else old(rows)
    {
      if lease.id !in rows || rows[lease.id].leaseToken != Some(lease.token) {
        return false;
      }
      rows := rows[lease.id := update(rows[lease.id])];
      return true;
    }

    method HeartbeatWork(lease: Lease, now: Instant) returns (applied: bool)
      modifies this`rows
      ensures applied <==> Current(old(rows), lease.id, lease.token)
      ensures rows == HeartbeatRow(old(rows), lease.id, lease.token, now)
    {
      applied := FencedUpdate(lease, (row: Row) => row.(heartbeatAt := Some(now)));
    }

    /** The row stays, with no next attempt, so its identity and slot are never used again. */
    method CompleteWork(lease: Lease, now: Instant) returns (applied: bool)
      modifies this`rows
      ensures applied <==> Current(old(rows), lease.id, lease.token)
      ensures rows == CompleteRow(old(rows), lease.id, lease.token, now)
      ensures applied ==> !Unfinished(rows, lease.id) && lease.id in rows
    {
      applied := FencedUpdate(
        lease, (row: Row) => row.(nextAttemptAt := None, leaseToken := None, heartbeatAt := Some(now)));
    }

    /** Give an item back: its token is void and its next attempt one retry period away. */
    method RetryWork(lease: Lease, now: Instant, retryAfter: nat) returns (applied: bool)
      modifies this`rows
      ensures applied <==> Current(old(rows), lease.id, lease.token)
      ensures rows == RetryRow(old(rows), lease.id, lease.token, now, retryAfter)
      ensures applied ==> lease.id in rows && rows[lease.id].nextAttemptAt == Some(now + retryAfter)
    {
      applied := FencedUpdate(
        lease, (row: Row) => row.(nextAttemptAt := Some(now + retryAfter), leaseToken := None, heartbeatAt := Some(now)));
    }

    /** Insert one row unless its identity or its weekly slot already has one. */
    method Enqueue(id: Id, kind: Kind, scheduledAt: Instant, next: Option<Instant>)
      modifies this`rows
      ensures rows == EnqueueRow(old(rows), id, kind, scheduledAt, next)
      ensures forall other :: other in old(rows) ==> other in rows && rows[other] == old(rows)[other]
      ensures id !in old(rows)
              && (kind in {WeeklyGeneration, WeeklyLearning} ==>
                    (forall other | other in old(rows) && old(rows)[other].kind == kind ::
                       old(rows)[other].scheduledAt != scheduledAt))
              ==> && id in rows && rows[id].kind == kind && rows[id].scheduledAt == scheduledAt
                  && rows[id].nextAttemptAt == next
    {
      if id in rows {
        return;
      }
      if Weekly(kind) && exists other | other in rows :: rows[other].kind == kind && rows[other].scheduledAt == scheduledAt {
        return;
      }
      rows := rows[id := Row(kind, scheduledAt, next, 0, None, None)];
    }
  }

  /** When every activity is older than both windows and the head is due, it is claimable. */
  lemma DueHeadIsClaimable(rows: Rows, id: Id, now: Instant, staleAfter: nat, minimumGap: nat, locked: set<Id>)
    requires IsHead(rows, id, locked) && rows[id].nextAttemptAt.value <= now
    requires QuietSince(rows, now - staleAfter) && QuietSince(rows, now - minimumGap)
    ensures Claimable(rows, id, now, staleAfter, minimumGap, locked)
  {
  }

  /** A wall-clock moment in the schedule zone: a day number and the seconds into that day. */
  datatype LocalTime = LocalTime(day: int, second: int)

  predicate NotAfter(a: LocalTime, b: LocalTime) {
    a.day < b.day || (a.day == b.day && a.second <= b.second)
  }

  /** Day 0 is a Monday, weekday 0. */
  function Weekday(day: int): int {
    day % 7
  }

  function Slot(day: int, hour: int): LocalTime {
    LocalTime(day, hour * 3600)
  }

  function LatestDueDate(now: LocalTime, weekday: int, hour: int): int {
    var candidate := now.day - (Weekday(now.day) - weekday) % 7;
    if !NotAfter(Slot(candidate, hour), now) then candidate - 7 else candidate
  }

  /** The date returned is the only one on its weekday at most a week behind the hour of the slot. */
  lemma LatestDueDateIsUnique(now: LocalTime, weekday: int, hour: int, day: int)
    requires 0 <= weekday < 7 && 0 <= hour < 24 && 0 <= now.second < 86400
    ensures day == LatestDueDate(now, weekday, hour)
            <==> && day % 7 == weekday
                 && 0 <= (now.day - day) * 24 * 60 * 60 + now.second - hour * 60 * 60 < 7 * 24 * 60 * 60
  {
    var shift := (Weekday(now.day) - weekday) % 7;
    assert 0 <= shift < 7;
    assert Weekday(now.day - shift) == weekday;
    assert Weekday(now.day - shift - 7) == weekday;
    if Weekday(day) == weekday {
      assert (day - (now.day - shift)) % 7 == 0;
    }
  }

  /** Time moving forward never brings an older slot back. */
  lemma DueDatesAdvance(earlier: LocalTime, later: LocalTime, weekday: int, hour: int)
    requires 0 <= weekday < 7 && 0 <= hour < 24
    requires 0 <= earlier.second < 86400 && 0 <= later.second < 86400
    requires NotAfter(earlier, later)
    ensures LatestDueDate(earlier, weekday, hour) <= LatestDueDate(later, weekday, hour)
  {
    var first, second := LatestDueDate(earlier, weekday, hour), LatestDueDate(later, weekday, hour);
    LatestDueDateIsUnique(earlier, weekday, hour, first);
    LatestDueDateIsUnique(later, weekday, hour, second);
    assert (first - second) % 7 == 0;
  }
}
