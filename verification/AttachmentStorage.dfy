/**
 Storage accounting for note attachments: one counter of reserved bytes against the sum of a
 changing table. Every committed transaction of the media worker, the upload routes and
 maintenance is a method; `ScanPendingOnce` runs one worker cycle among the others' transactions.
 */
module AttachmentStorage {
  import opened Wrappers

  type Id = nat
  type Couple = nat
  type Instant = int

  const MaxFileBytes: nat := 104_857_600
  const CoupleQuotaBytes: nat := 2_147_483_648
  const GlobalQuotaBytes: nat := 53_687_091_200
  const MaxConcurrentUploads: nat := 4
  const MaxJobAttempts: nat := 8
  const JobLeaseSeconds: nat := 600

  datatype Status = Uploading | PendingScan | Scanning | Available | Rejected | Deleted

  datatype Item = Item(couple: Couple, size: int, status: Status, deleted: bool, updatedAt: Instant)

  type Items = map<Id, Item>

  datatype JobStatus = Pending | Leased | Completed | Refused

  datatype Job = Job(status: JobStatus, attempts: nat, nextAttemptAt: Instant,
                     leaseExpiresAt: Option<Instant>, createdAt: Instant)

  /** Whether the commit at the end of a transaction holds, and whether the session hears of it. */
  datatype Fate = Commits | RollsBack | CommitsUnheard

  datatype Outcome<+T> = Done(value: T) | Raised

  predicate LiveStatus(status: Status) {
    status in {Uploading, PendingScan, Scanning, Available}
  }

  /** The bytes an attachment holds against the ceilings. */
  function Counted(item: Item): nat {
    if !item.deleted && LiveStatus(item.status) && item.size > 0 then item.size else 0
  }

  function LiveWeights(items: Items): map<Id, nat> {
    map id | id in items :: Counted(items[id])
  }

  function CoupleWeights(items: Items, couple: Couple): map<Id, nat> {
    map id | id in items :: if items[id].couple == couple then Counted(items[id]) else 0
  }

  ghost function Total(weights: map<Id, nat>): nat
    decreases |weights|
  {
    if weights == map[] then 0
    else
      var id :| id in weights;
      weights[id] + Total(weights - {id})
  }

  ghost function LiveTotal(items: Items): nat { Total(LiveWeights(items)) }

  ghost function CoupleTotal(items: Items, couple: Couple): nat { Total(CoupleWeights(items, couple)) }

  lemma {:induction false} TotalTakesOut(weights: map<Id, nat>, id: Id)
    requires id in weights
    ensures Total(weights) == weights[id] + Total(weights - {id})
    decreases |weights|
  {
    var first :| id in weights && first in weights && Total(weights) == weights[first] + Total(weights - {first});
    if first != id {
      TotalTakesOut(weights - {first}, id);
      TotalTakesOut(weights - {id}, first);
      assert weights - {first} - {id} == weights - {id} - {first};
    }
  }

  lemma {:induction false} TotalShrinks(weights: map<Id, nat>, gone: set<Id>)
    ensures Total(weights - gone) <= Total(weights)
    decreases |weights|
  {
    if id :| id in weights && id in gone {
      TotalTakesOut(weights, id);
      TotalShrinks(weights - {id}, gone);
      assert weights - {id} - gone == weights - gone;
    } else {
      assert weights - gone == weights;
    }
  }

  /** The weight an identity has now: none when its row does not exist. */
  function CountedAt(items: Items, id: Id): nat {
    if id in items then Counted(items[id]) else 0
  }

  function CoupleCountedAt(items: Items, id: Id, couple: Couple): nat {
    if id in items && items[id].couple == couple then Counted(items[id]) else 0
  }

  /** Writing one row moves both sums by exactly the change of that row's weight. */
  lemma TotalsAfterWrite(items: Items, id: Id, item: Item)
    ensures LiveTotal(items[id := item]) == LiveTotal(items) - CountedAt(items, id) + Counted(item)
    ensures forall couple ::
              CoupleTotal(items[id := item], couple)
              == CoupleTotal(items, couple) - CoupleCountedAt(items, id, couple)
                 + (if item.couple == couple then Counted(item) else 0)
  {
    WeightsAfterWrite(LiveWeights(items), LiveWeights(items[id := item]), id);
    forall couple
      ensures CoupleTotal(items[id := item], couple)
              == CoupleTotal(items, couple) - CoupleCountedAt(items, id, couple)
                 + (if item.couple == couple then Counted(item) else 0)
    {
      WeightsAfterWrite(CoupleWeights(items, couple), CoupleWeights(items[id := item], couple), id);
    }
  }

  lemma WeightsAfterWrite(before: map<Id, nat>, after: map<Id, nat>, id: Id)
    requires id in after && after - {id} == before - {id}
    ensures Total(after) == Total(before) - (if id in before then before[id] else 0) + after[id]
  {
    TotalTakesOut(after, id);
    if id in before {
      TotalTakesOut(before, id);
    } else {
      assert before - {id} == before;
    }
  }

  lemma TotalsAfterRemoval(items: Items, gone: set<Id>)
    ensures LiveTotal(items - gone) <= LiveTotal(items)
    ensures forall couple :: CoupleTotal(items - gone, couple) <= CoupleTotal(items, couple)
  {
    assert LiveWeights(items - gone) == LiveWeights(items) - gone;
    TotalShrinks(LiveWeights(items), gone);
    forall couple ensures CoupleTotal(items - gone, couple) <= CoupleTotal(items, couple) {
      assert CoupleWeights(items - gone, couple) == CoupleWeights(items, couple) - gone;
      TotalShrinks(CoupleWeights(items, couple), gone);
    }
  }

  lemma CountedFits(items: Items, id: Id)
    requires id in items
    ensures Counted(items[id]) <= LiveTotal(items)
    ensures forall couple :: CoupleCountedAt(items, id, couple) <= CoupleTotal(items, couple)
  {
    TotalTakesOut(LiveWeights(items), id);
    forall couple ensures CoupleCountedAt(items, id, couple) <= CoupleTotal(items, couple) {
      TotalTakesOut(CoupleWeights(items, couple), id);
    }
  }

  /** The delete route subtracts what it read before taking the couple's lock. */
  function Forgotten(items: Items, id: Id, now: Instant): Items
    requires id in items
  {
    items[id := items[id].(status := Deleted, deleted := true, updatedAt := now)]
  }

  /** The route keeps the account exactly when its early reading still shows the current weight. */
  lemma DeletionKeepsTheAccount(items: Items, reserved: int, id: Id, seen: Item, now: Instant)
    requires id in items
    requires reserved == LiveTotal(items)
    ensures reserved - Counted(seen) == LiveTotal(Forgotten(items, id, now))
            <==> Counted(seen) == Counted(items[id])
  {
    TotalsAfterWrite(items, id, items[id].(status := Deleted, deleted := true, updatedAt := now));
  }

  /** Two overlapping deletions both saw the attachment: the second leaves the counter short. */
  lemma OverlappingDeletionsDrift(items: Items, id: Id, now: Instant)
    requires id in items && Counted(items[id]) > 0
    ensures var seen := items[id];
            var once := Forgotten(items, id, now);
            LiveTotal(items) - Counted(seen) == LiveTotal(once)
            && LiveTotal(once) - Counted(seen) < LiveTotal(Forgotten(once, id, now))
  {
    DeletionKeepsTheAccount(items, LiveTotal(items), id, items[id], now);
    var once := Forgotten(items, id, now);
    TotalsAfterWrite(once, id, once[id]);
    assert once[id := once[id]] == once == Forgotten(once, id, now);
  }

  predicate Ready(job: Job, now: Instant) {
    || (job.status.Pending? && job.nextAttemptAt <= now)
    || (job.status.Leased? && job.leaseExpiresAt.Some? && job.leaseExpiresAt.value <= now)
  }

  /** A claimable job: pending and due, or leased and lapsed, with attempts left and a scannable file. */
  predicate Claimable(items: Items, jobs: map<Id, Job>, id: Id, now: Instant) {
    && id in jobs && id in items
    && Ready(jobs[id], now)
    && jobs[id].attempts < MaxJobAttempts
    && !items[id].deleted
    && items[id].status in {PendingScan, Scanning}
  }

  predicate NotAfter(a: Job, b: Job) {
    a.nextAttemptAt < b.nextAttemptAt || (a.nextAttemptAt == b.nextAttemptAt && a.createdAt <= b.createdAt)
  }

  ghost predicate NothingClaimable(items: Items, jobs: map<Id, Job>, now: Instant) {
    forall id :: !Claimable(items, jobs, id, now)
  }

  /** Claimable, and due no later than any other claimable job. */
  ghost predicate FirstClaimable(items: Items, jobs: map<Id, Job>, id: Id, now: Instant) {
    && Claimable(items, jobs, id, now)
    && forall other :: Claimable(items, jobs, other, now) ==> NotAfter(jobs[id], jobs[other])
  }

  function Pow2(n: nat): (r: nat)
    ensures r >= 1
  {
    if n == 0 then 1 else 2 * Pow2(n - 1)
  }

  function RetryDelay(attempts: nat): nat {
    var delay := 5 * Pow2(if attempts == 0 then 0 else attempts - 1);
    if delay < 300 then delay else 300
  }

  lemma {:induction false} Pow2Grows(m: nat, n: nat)
    requires m <= n
    ensures Pow2(m) <= Pow2(n)
  {
    if m < n { Pow2Grows(m, n - 1); }
  }

  /** Delays start at five seconds, never shrink, and settle at five minutes from the seventh attempt. */
  lemma RetryDelayIsBounded(fewer: nat, more: nat)
    requires fewer <= more
    ensures 5 <= RetryDelay(fewer) <= RetryDelay(more) <= 300
    ensures RetryDelay(more) == 300 <==> more >= 7
    ensures fewer >= 1 ==> RetryDelay(fewer + 1) == if RetryDelay(fewer) < 150 then 2 * RetryDelay(fewer) else 300
    ensures RetryDelay(0) == RetryDelay(1) == 5
  {
    Pow2Grows(if fewer == 0 then 0 else fewer - 1, if more == 0 then 0 else more - 1);
    assert Pow2(5) == 32 && Pow2(6) == 64;
    if more >= 7 { Pow2Grows(6, more - 1); } else if more > 0 { Pow2Grows(more - 1, 5); }
  }

  ghost predicate WithinQuotas(items: Items) {
    forall couple :: CoupleTotal(items, couple) <= CoupleQuotaBytes
  }

  /** What a row may look like, given its job and whether the worker holds it. */
  predicate RowFits(item: Item, everQueued: bool, held: bool) {
    && 1 <= item.size <= MaxFileBytes
    && (item.deleted ==> item.status in {Deleted, Rejected, PendingScan})
    && (item.status.Deleted? ==> item.deleted)
    && (item.status.Uploading? ==> !everQueued)
    && (held ==> item.status in {Scanning, Available, Deleted})
  }

  function ClaimsOf(claims: map<Id, nat>, id: Id): nat {
    if id in claims then claims[id] else 0
  }

  /** One identity in all tables: its row, its job, and how often it was claimed. */
  predicate RowOk(items: Items, jobs: map<Id, Job>, claims: map<Id, nat>, working: Option<Id>, id: Id) {
    && (id in items ==> RowFits(items[id], id in jobs || id in claims, working == Some(id)))
    && (id in jobs ==> id in items && jobs[id].attempts == ClaimsOf(claims, id))
    && ClaimsOf(claims, id) <= MaxJobAttempts
    && (id in claims && id in items ==> id in jobs)
  }

  /** `used`: identities ever given out; `claims`: how often each was claimed; `working`: the one held. */
  ghost predicate Rows(items: Items, jobs: map<Id, Job>, used: set<Id>, claims: map<Id, nat>, working: Option<Id>) {
    && items.Keys <= used && jobs.Keys <= items.Keys && claims.Keys <= used
    && (working.Some? ==> working.value in used)
    && forall id :: RowOk(items, jobs, claims, working, id)
  }

  /** One written row keeps every couple's quota when its own couple has room for it. */
  lemma WriteKeepsQuotas(items: Items, id: Id, item: Item)
    requires WithinQuotas(items)
    requires CoupleTotal(items, item.couple) - CoupleCountedAt(items, id, item.couple) + Counted(item)
             <= CoupleQuotaBytes
    ensures WithinQuotas(items[id := item])
    ensures LiveTotal(items[id := item]) == LiveTotal(items) - CountedAt(items, id) + Counted(item)
    ensures CountedAt(items, id) <= LiveTotal(items)
  {
    TotalsAfterWrite(items, id, item);
    if id in items { CountedFits(items, id); }
    var after := items[id := item];
    forall couple ensures CoupleTotal(after, couple) <= CoupleQuotaBytes {
      assert CoupleTotal(items, couple) <= CoupleQuotaBytes;
    }
  }

  /** A write that does not weigh more than the row it replaces needs no room. */
  lemma LighterWriteKeepsQuotas(items: Items, id: Id, item: Item)
    requires WithinQuotas(items)
    requires id in items && items[id].couple == item.couple && Counted(item) <= Counted(items[id])
    ensures WithinQuotas(items[id := item])
    ensures LiveTotal(items[id := item]) == LiveTotal(items) - Counted(items[id]) + Counted(item)
    ensures Counted(items[id]) <= LiveTotal(items)
  {
    assert CoupleTotal(items, item.couple) <= CoupleQuotaBytes;
    WriteKeepsQuotas(items, id, item);
  }

  lemma RoomForAll(items: Items, copied: Items, couple: Couple, incoming: nat)
    requires WithinQuotas(items)
    requires CoupleTotal(items, couple) + incoming <= CoupleQuotaBytes
    requires forall c :: CoupleTotal(copied, c) == CoupleTotal(items, c) + if c == couple then incoming else 0
    ensures WithinQuotas(copied)
  {
    forall c ensures CoupleTotal(copied, c) <= CoupleQuotaBytes {
      assert CoupleTotal(items, c) <= CoupleQuotaBytes;
    }
  }

  /** One row written over or beside the others keeps the shape of all. */
  lemma RowsAfterWrite(items: Items, jobs: map<Id, Job>, used: set<Id>, claims: map<Id, nat>,
                       working: Option<Id>, id: Id, item: Item)
    requires Rows(items, jobs, used, claims, working) && id in items
    requires RowFits(item, id in jobs || id in claims, working == Some(id))
    ensures Rows(items[id := item], jobs, used, claims, working)
  {
    var after := items[id := item];
    forall other ensures RowOk(after, jobs, claims, working, other) {
      assert RowOk(items, jobs, claims, working, other);
    }
  }

  lemma RowsAfterRelease(items: Items, jobs: map<Id, Job>, used: set<Id>, claims: map<Id, nat>, working: Option<Id>)
    requires Rows(items, jobs, used, claims, working)
    ensures Rows(items, jobs, used, claims, None)
  {
    forall other ensures RowOk(items, jobs, claims, None, other) {
      assert RowOk(items, jobs, claims, working, other);
    }
  }

  /** A change of state that keeps the weight keeps the sums. */
  lemma WriteKeepsWeight(items: Items, id: Id, item: Item)
    requires WithinQuotas(items)
    requires id in items && items[id].couple == item.couple && Counted(item) == Counted(items[id])
    ensures WithinQuotas(items[id := item]) && LiveTotal(items[id := item]) == LiveTotal(items)
  {
    LighterWriteKeepsQuotas(items, id, item);
  }

  /** Uploads abandoned for a day and rejections a week old. */
  function Expired(items: Items, now: Instant): set<Id> {
    set id | id in items
             && (|| (items[id].status == Uploading && items[id].updatedAt <= now - 86_400)
                 || (items[id].status == Rejected && items[id].updatedAt <= now - 604_800))
  }

  /** What maintenance may remove on its own: an upload untouched for 24 hours, a rejection for 7 days. */
  predicate Overdue(item: Item, now: Instant) {
    match item.status
    case Uploading => now - item.updatedAt >= 24 * 60 * 60
    case Rejected => now - item.updatedAt >= 7 * 24 * 60 * 60
    case _ => false
  }

  function ScanStarted(items: Items, id: Id, now: Instant): Items
    requires id in items
  {
    items[id := items[id].(status := Scanning, updatedAt := now)]
  }

  function LeaseTaken(jobs: map<Id, Job>, id: Id, now: Instant): map<Id, Job>
    requires id in jobs
  {
    jobs[id := jobs[id].(status := Leased, attempts := jobs[id].attempts + 1,
                         leaseExpiresAt := Some(now + JobLeaseSeconds))]
  }

  function OneMoreClaim(claims: map<Id, nat>, id: Id): map<Id, nat> {
    claims[id := ClaimsOf(claims, id) + 1]
  }

  /** Claiming a claimable job fits the rows, whether or not the worker learns that it holds it. */
  lemma RowsAfterClaim(items: Items, jobs: map<Id, Job>, used: set<Id>, claims: map<Id, nat>, id: Id, now: Instant)
    requires Rows(items, jobs, used, claims, None)
    requires Claimable(items, jobs, id, now)
    ensures Rows(ScanStarted(items, id, now), LeaseTaken(jobs, id, now), used, OneMoreClaim(claims, id), None)
    ensures Rows(ScanStarted(items, id, now), LeaseTaken(jobs, id, now), used, OneMoreClaim(claims, id), Some(id))
  {
    var (rows, leases, counts) := (ScanStarted(items, id, now), LeaseTaken(jobs, id, now), OneMoreClaim(claims, id));
    assert RowOk(items, jobs, claims, None, id);
    forall other
      ensures RowOk(rows, leases, counts, None, other) && RowOk(rows, leases, counts, Some(id), other)
    {
      assert RowOk(items, jobs, claims, None, other);
    }
  }

  lemma ClaimFits(items: Items, jobs: map<Id, Job>, used: set<Id>, claims: map<Id, nat>, id: Id, now: Instant)
    requires Rows(items, jobs, used, claims, None) && WithinQuotas(items) && Claimable(items, jobs, id, now)
    ensures Rows(ScanStarted(items, id, now), LeaseTaken(jobs, id, now), used, OneMoreClaim(claims, id), None)
    ensures Rows(ScanStarted(items, id, now), LeaseTaken(jobs, id, now), used, OneMoreClaim(claims, id), Some(id))
    ensures WithinQuotas(ScanStarted(items, id, now)) && LiveTotal(ScanStarted(items, id, now)) == LiveTotal(items)
  {
    RowsAfterClaim(items, jobs, used, claims, id, now);
    WriteKeepsWeight(items, id, items[id].(status := Scanning, updatedAt := now));
  }

  function Published(items: Items, id: Id, finalSize: int, now: Instant): Items
    requires id in items
  {
    items[id := items[id].(status := Available, size := finalSize, updatedAt := now)]
  }

  function Requeued(items: Items, id: Id, now: Instant): Items
    requires id in items
  {
    items[id := items[id].(status := PendingScan, updatedAt := now)]
  }

  function PutBack(jobs: map<Id, Job>, id: Id, now: Instant): map<Id, Job>
    requires id in jobs
  {
    jobs[id := jobs[id].(status := Pending, leaseExpiresAt := None, nextAttemptAt := now + RetryDelay(jobs[id].attempts))]
  }

  function Rejection(items: Items, id: Id, now: Instant): Items
    requires id in items
  {
    items[id := items[id].(status := Rejected, updatedAt := now)]
  }

  function Ended(jobs: map<Id, Job>, id: Id, status: JobStatus): map<Id, Job> {
    if id in jobs then jobs[id := jobs[id].(status := status, leaseExpiresAt := None)] else jobs
  }

  function Finished(items: Items, id: Id, hashMatches: bool, now: Instant): Items
    requires id in items
  {
    items[id := items[id].(status := if hashMatches then PendingScan else Rejected, updatedAt := now)]
  }

  function Queued(jobs: map<Id, Job>, id: Id, hashMatches: bool, now: Instant): map<Id, Job> {
    if hashMatches then jobs[id := Job(Pending, 0, now, None, now)] else jobs
  }

  /** What finishing takes off the counter: a bad hash frees the size the request read. */
  function Freed(seen: Item, hashMatches: bool): int { if hashMatches then 0 else seen.size }

  /** The early reading still tells the truth about the weight that finishing changes. */
  predicate FinishBalanced(row: Item, seen: Item, hashMatches: bool) {
    if hashMatches then row.deleted || LiveStatus(row.status) else seen.size == Counted(row)
  }

  /** The counter stays exact if and only if the request's early reading is balanced against the row. */
  lemma FinishingKeepsTheAccount(items: Items, reserved: int, id: Id, seen: Item, hashMatches: bool, now: Instant)
    requires id in items && items[id].size > 0 && reserved == LiveTotal(items)
    ensures reserved - Freed(seen, hashMatches) == LiveTotal(Finished(items, id, hashMatches, now))
            <==> FinishBalanced(items[id], seen, hashMatches)
    ensures LiveTotal(Finished(items, id, hashMatches, now))
            == LiveTotal(items) - Counted(items[id]) + Counted(Finished(items, id, hashMatches, now)[id])
  {
    TotalsAfterWrite(items, id, Finished(items, id, hashMatches, now)[id]);
  }

  /**
   Two overlapping last chunks of one bad upload, if both are written, both free its reservation.
   `OverlappingFinishes` below says when the second one is: for uploads of a single chunk.
   */
  lemma OverlappingFinishesDrift(items: Items, id: Id, now: Instant)
    requires id in items && items[id].status == Uploading && Counted(items[id]) > 0
    ensures var seen := items[id];
            var once := Finished(items, id, false, now);
            LiveTotal(items) - Freed(seen, false) == LiveTotal(once)
            && LiveTotal(once) - Freed(seen, false) < LiveTotal(Finished(once, id, false, now))
  {
    FinishingKeepsTheAccount(items, LiveTotal(items), id, items[id], false, now);
    var once := Finished(items, id, false, now);
    FinishingKeepsTheAccount(once, LiveTotal(once), id, items[id], false, now);
  }

  lemma FinishedRows(items: Items, jobs: map<Id, Job>, used: set<Id>, claims: map<Id, nat>, working: Option<Id>,
                     id: Id, hashMatches: bool, now: Instant)
    requires Rows(items, jobs, used, claims, working) && id in items && working != Some(id)
    requires hashMatches ==> id !in jobs
    ensures Rows(Finished(items, id, hashMatches, now), Queued(jobs, id, hashMatches, now), used, claims, working)
  {
    var item := items[id].(status := if hashMatches then PendingScan else Rejected, updatedAt := now);
    assert RowOk(items, jobs, claims, working, id);
    RowsAfterWrite(items, jobs, used, claims, working, id, item);
    if hashMatches { RowsAfterQueueing(items[id := item], jobs, used, claims, working, id, now); }
  }

  /** Finishing on a balanced reading fits the tables; on another it spoils the counter. */
  lemma FinishingFits(items: Items, jobs: map<Id, Job>, reserved: int, used: set<Id>, claims: map<Id, nat>,
                      working: Option<Id>, id: Id, seen: Item, hashMatches: bool, now: Instant)
    requires Rows(items, jobs, used, claims, working) && WithinQuotas(items) && reserved == LiveTotal(items)
    requires id in items && (hashMatches ==> id !in jobs)
    ensures reserved - Freed(seen, hashMatches) == LiveTotal(Finished(items, id, hashMatches, now))
            <==> FinishBalanced(items[id], seen, hashMatches)
    ensures FinishBalanced(items[id], seen, hashMatches) && working != Some(id) ==>
              && Rows(Finished(items, id, hashMatches, now), Queued(jobs, id, hashMatches, now), used, claims, working)
              && WithinQuotas(Finished(items, id, hashMatches, now))
  {
    assert RowOk(items, jobs, claims, working, id);
    FinishingKeepsTheAccount(items, reserved, id, seen, hashMatches, now);
    if FinishBalanced(items[id], seen, hashMatches) && working != Some(id) {
      FinishedRows(items, jobs, used, claims, working, id, hashMatches, now);
      LighterWriteKeepsQuotas(items, id, Finished(items, id, hashMatches, now)[id]);
    }
  }

  lemma RowsAfterQueueing(items: Items, jobs: map<Id, Job>, used: set<Id>, claims: map<Id, nat>,
                          working: Option<Id>, id: Id, now: Instant)
    requires Rows(items, jobs, used, claims, working)
    requires id in items && id !in claims && items[id].status == PendingScan
    ensures Rows(items, jobs[id := Job(Pending, 0, now, None, now)], used, claims, working)
  {
    var queued := jobs[id := Job(Pending, 0, now, None, now)];
    forall other ensures RowOk(items, queued, claims, working, other) {
      assert RowOk(items, jobs, claims, working, other);
    }
  }

  /** A scanned file of the worker weighs its size, in the couple's sum and in the total. */
  lemma HeldWeighs(items: Items, jobs: map<Id, Job>, used: set<Id>, claims: map<Id, nat>, id: Id)
    requires Rows(items, jobs, used, claims, Some(id)) && id in items && items[id].status == Scanning
    ensures CoupleCountedAt(items, id, items[id].couple) == Counted(items[id]) == items[id].size >= 1
    ensures items[id].size <= LiveTotal(items)
  {
    assert RowOk(items, jobs, claims, Some(id), id);
    CountedFits(items, id);
  }

  /** The worker's own row and job may end in any fitting way. */
  lemma EndingFits(items: Items, jobs: map<Id, Job>, used: set<Id>, claims: map<Id, nat>, working: Option<Id>,
                   id: Id, item: Item, status: JobStatus)
    requires Rows(items, jobs, used, claims, Some(id)) && id in items && working in {None, Some(id)}
    requires RowFits(item, id in jobs || id in claims, working == Some(id))
    ensures Rows(items[id := item], Ended(jobs, id, status), used, claims, working)
  {
    var (rows, ended) := (items[id := item], Ended(jobs, id, status));
    forall other ensures RowOk(rows, ended, claims, working, other) {
      assert RowOk(items, jobs, claims, Some(id), other);
    }
  }

  /** A claim changes no weight, so there is as much room as before it. */
  lemma ClaimKeepsRoom(items: Items, id: Id, now: Instant)
    requires id in items && items[id].status in {PendingScan, Scanning}
    ensures var rows := ScanStarted(items, id, now);
            CoupleTotal(rows, rows[id].couple) == CoupleTotal(items, items[id].couple)
  {
    TotalsAfterWrite(items, id, items[id].(status := Scanning, updatedAt := now));
  }

  lemma PublishingFits(items: Items, jobs: map<Id, Job>, used: set<Id>, claims: map<Id, nat>,
                       id: Id, finalSize: int, now: Instant)
    requires Rows(items, jobs, used, claims, Some(id)) && WithinQuotas(items)
    requires id in items && items[id].status == Scanning && 1 <= finalSize <= MaxFileBytes
    requires CoupleTotal(items, items[id].couple) - CoupleCountedAt(items, id, items[id].couple) + finalSize
             <= CoupleQuotaBytes
    ensures Rows(Published(items, id, finalSize, now), Ended(jobs, id, Completed), used, claims, Some(id))
    ensures WithinQuotas(Published(items, id, finalSize, now))
    ensures LiveTotal(Published(items, id, finalSize, now)) == LiveTotal(items) - items[id].size + finalSize
    ensures items[id].size <= LiveTotal(items)
  {
    assert RowOk(items, jobs, claims, Some(id), id);
    WriteKeepsQuotas(items, id, items[id].(status := Available, size := finalSize, updatedAt := now));
    EndingFits(items, jobs, used, claims, Some(id), id, Published(items, id, finalSize, now)[id], Completed);
  }

  lemma RequeueingFits(items: Items, jobs: map<Id, Job>, used: set<Id>, claims: map<Id, nat>, id: Id, now: Instant)
    requires Rows(items, jobs, used, claims, Some(id)) && WithinQuotas(items) && id in jobs
    ensures Rows(Requeued(items, id, now), PutBack(jobs, id, now), used, claims, None)
    ensures WithinQuotas(Requeued(items, id, now)) && LiveTotal(Requeued(items, id, now)) == LiveTotal(items)
  {
    assert RowOk(items, jobs, claims, Some(id), id);
    WriteKeepsWeight(items, id, items[id].(status := PendingScan, updatedAt := now));
    var (rows, back) := (Requeued(items, id, now), PutBack(jobs, id, now));
    forall other ensures RowOk(rows, back, claims, None, other) {
      assert RowOk(items, jobs, claims, Some(id), other);
    }
  }

  lemma AttemptsAreBounded(items: Items, jobs: map<Id, Job>, used: set<Id>, claims: map<Id, nat>,
                           working: Option<Id>, id: Id)
    requires Rows(items, jobs, used, claims, working) && id in jobs
    ensures jobs[id].attempts <= MaxJobAttempts
  {
    assert RowOk(items, jobs, claims, working, id);
  }

  lemma RejectionFits(items: Items, jobs: map<Id, Job>, used: set<Id>, claims: map<Id, nat>, id: Id, now: Instant)
    requires Rows(items, jobs, used, claims, Some(id)) && WithinQuotas(items) && id in items
    ensures LiveStatus(items[id].status) ==> Counted(items[id]) == items[id].size
    ensures Rows(Rejection(items, id, now), Ended(jobs, id, Refused), used, claims, None)
    ensures WithinQuotas(Rejection(items, id, now))
    ensures LiveTotal(Rejection(items, id, now)) == LiveTotal(items) - Counted(items[id])
    ensures Counted(items[id]) <= LiveTotal(items)
  {
    assert RowOk(items, jobs, claims, Some(id), id);
    LighterWriteKeepsQuotas(items, id, items[id].(status := Rejected, updatedAt := now));
    EndingFits(items, jobs, used, claims, None, id, Rejection(items, id, now)[id], Refused);
  }

  /** What the sources of a fork weigh together, and the table with one clone of each. */
  function Incoming(items: Items, sources: seq<Id>): int
    requires forall i :: 0 <= i < |sources| ==> sources[i] in items
  {
    if sources == [] then 0
    else Incoming(items, sources[..|sources| - 1]) + items[sources[|sources| - 1]].size
  }

  function Cloned(items: Items, sources: seq<Id>, clones: seq<Id>, now: Instant): Items
    requires |clones| == |sources| && forall i :: 0 <= i < |sources| ==> sources[i] in items
  {
    if sources == [] then items
    else
      var n := |sources| - 1;
      Cloned(items, sources[..n], clones[..n], now)[clones[n] := items[sources[n]].(updatedAt := now)]
  }

  predicate CanFork(items: Items, id: Id, couple: Couple) {
    id in items && items[id].couple == couple && items[id].status == Available && !items[id].deleted
  }

  predicate AllFork(items: Items, sources: seq<Id>, couple: Couple) {
    forall i :: 0 <= i < |sources| ==> CanFork(items, sources[i], couple)
  }

  predicate NewIds(used: set<Id>, ids: seq<Id>) {
    && (forall i, j :: 0 <= i < j < |ids| ==> ids[i] != ids[j])
    && (forall i :: 0 <= i < |ids| ==> ids[i] !in used)
  }

  function IdsOf(ids: seq<Id>): set<Id> { set id | id in ids }

  /** Clones add their weight to their couple's sum and to the total, and touch no row there was. */
  lemma {:induction false} ClonesWeigh(items: Items, sources: seq<Id>, clones: seq<Id>, couple: Couple, now: Instant)
    requires |clones| == |sources| && AllFork(items, sources, couple) && NewIds(items.Keys, clones)
    requires forall id :: id in items ==> items[id].size >= 1
    ensures Incoming(items, sources) >= 0
    ensures LiveTotal(Cloned(items, sources, clones, now)) == LiveTotal(items) + Incoming(items, sources)
    ensures forall c :: CoupleTotal(Cloned(items, sources, clones, now), c)
                        == CoupleTotal(items, c) + if c == couple then Incoming(items, sources) else 0
    ensures Cloned(items, sources, clones, now).Keys == items.Keys + IdsOf(clones)
  {
    if sources != [] {
      var n := |sources| - 1;
      ClonesWeigh(items, sources[..n], clones[..n], couple, now);
      var before, item := Cloned(items, sources[..n], clones[..n], now), items[sources[n]].(updatedAt := now);
      assert CanFork(items, sources[n], couple);
      assert clones[n] !in clones[..n] && clones[n] !in before;
      TotalsAfterWrite(before, clones[n], item);
      assert IdsOf(clones) == IdsOf(clones[..n]) + {clones[n]};
    }
  }

  lemma {:induction false} ClonesFit(items: Items, jobs: map<Id, Job>, used: set<Id>, claims: map<Id, nat>,
                                     working: Option<Id>, sources: seq<Id>, clones: seq<Id>, couple: Couple, now: Instant)
    requires Rows(items, jobs, used, claims, working)
    requires |clones| == |sources| && AllFork(items, sources, couple) && NewIds(used, clones)
    ensures Rows(Cloned(items, sources, clones, now), jobs, used + IdsOf(clones), claims, working)
  {
    if sources == [] {
      assert used + IdsOf(clones) == used;
    } else {
      var n := |sources| - 1;
      ClonesFit(items, jobs, used, claims, working, sources[..n], clones[..n], couple, now);
      assert CanFork(items, sources[n], couple);
      assert RowOk(items, jobs, claims, working, sources[n]);
      var before := Cloned(items, sources[..n], clones[..n], now);
      assert clones[n] !in IdsOf(clones[..n]);
      RowsAfterNew(before, jobs, used + IdsOf(clones[..n]), claims, working, clones[n],
                   items[sources[n]].(updatedAt := now));
      assert used + IdsOf(clones) == used + IdsOf(clones[..n]) + {clones[n]};
    }
  }

  /** Cloning leaves alone whatever is not among the clones. */
  lemma {:induction false} ClonesSpare(items: Items, sources: seq<Id>, clones: seq<Id>, now: Instant, id: Id)
    requires |clones| == |sources| && (forall i :: 0 <= i < |sources| ==> sources[i] in items)
    requires forall i :: 0 <= i < |clones| ==> clones[i] != id
    ensures var after := Cloned(items, sources, clones, now);
            (id in after <==> id in items) && (id in items ==> after[id] == items[id])
  {
    if sources != [] {
      var n := |sources| - 1;
      ClonesSpare(items, sources[..n], clones[..n], now, id);
    }
  }

  lemma RowsAfterNew(items: Items, jobs: map<Id, Job>, used: set<Id>, claims: map<Id, nat>, working: Option<Id>,
                     id: Id, item: Item)
    requires Rows(items, jobs, used, claims, working) && id !in used && RowFits(item, false, false)
    ensures Rows(items[id := item], jobs, used + {id}, claims, working)
  {
    var after := items[id := item];
    assert id !in items && id !in jobs && id !in claims && working != Some(id);
    forall other ensures RowOk(after, jobs, claims, working, other) {
      assert RowOk(items, jobs, claims, working, other);
    }
  }

  function UploadsOf(items: Items, couple: Couple): set<Id> {
    set id | id in items && items[id].couple == couple && !items[id].deleted && items[id].status == Uploading
  }

  lemma RowSizes(items: Items, jobs: map<Id, Job>, used: set<Id>, claims: map<Id, nat>, working: Option<Id>)
    requires Rows(items, jobs, used, claims, working)
    ensures forall id :: id in items ==> items[id].size >= 1
  {
    forall id | id in items ensures items[id].size >= 1 {
      assert RowOk(items, jobs, claims, working, id);
    }
  }

  /** Scanning under a lease of the last attempt that no worker holds. */
  ghost predicate Stranded(items: Items, jobs: map<Id, Job>, working: Option<Id>, id: Id) {
    && id in items && id in jobs && working != Some(id)
    && items[id].status == Scanning && !items[id].deleted
    && jobs[id].status == Leased && jobs[id].attempts == MaxJobAttempts
  }

  /**
   What an abandoned lease comes to: some later claim takes it over if and only if attempts are left.
   One without keeps its reservation.
   */
  lemma AbandonedIsTakenOverUnlessStranded(items: Items, jobs: map<Id, Job>, used: set<Id>, claims: map<Id, nat>, id: Id)
    requires Rows(items, jobs, used, claims, None) && id in items && id in jobs
    requires items[id].status == Scanning && jobs[id].status == Leased && jobs[id].leaseExpiresAt.Some?
    ensures (exists now :: Claimable(items, jobs, id, now)) <==> !Stranded(items, jobs, None, id)
    ensures Counted(items[id]) == items[id].size >= 1
  {
    assert RowOk(items, jobs, claims, None, id);
    AttemptsAreBounded(items, jobs, used, claims, None, id);
    if jobs[id].attempts < MaxJobAttempts {
      assert Claimable(items, jobs, id, jobs[id].leaseExpiresAt.value);
    }
  }

  lemma UploadingIsFree(items: Items, jobs: map<Id, Job>, used: set<Id>, claims: map<Id, nat>, working: Option<Id>, id: Id)
    requires Rows(items, jobs, used, claims, working) && id in items && items[id].status == Uploading
    ensures working != Some(id) && !items[id].deleted && id !in jobs && Counted(items[id]) == items[id].size
  {
    assert RowOk(items, jobs, claims, working, id);
  }

  lemma RemovalFits(items: Items, jobs: map<Id, Job>, used: set<Id>, claims: map<Id, nat>, working: Option<Id>,
                    gone: set<Id>)
    requires Rows(items, jobs, used, claims, working) && WithinQuotas(items)
    ensures Rows(items - gone, jobs - gone, used, claims, working) && WithinQuotas(items - gone)
  {
    TotalsAfterRemoval(items, gone);
    var (left, kept) := (items - gone, jobs - gone);
    forall id ensures RowOk(left, kept, claims, working, id) {
      assert RowOk(items, jobs, claims, working, id);
    }
    forall couple ensures CoupleTotal(left, couple) <= CoupleQuotaBytes {
      assert CoupleTotal(items, couple) <= CoupleQuotaBytes;
    }
  }

  lemma ForkFits(items: Items, jobs: map<Id, Job>, used: set<Id>, claims: map<Id, nat>, working: Option<Id>,
                 sources: seq<Id>, clones: seq<Id>, couple: Couple, now: Instant)
    requires Rows(items, jobs, used, claims, working) && WithinQuotas(items)
    requires |clones| == |sources| && AllFork(items, sources, couple) && NewIds(used, clones)
    requires CoupleTotal(items, couple) + Incoming(items, sources) <= CoupleQuotaBytes
    ensures Rows(Cloned(items, sources, clones, now), jobs, used + IdsOf(clones), claims, working)
    ensures WithinQuotas(Cloned(items, sources, clones, now))
    ensures LiveTotal(Cloned(items, sources, clones, now)) == LiveTotal(items) + Incoming(items, sources)
    ensures Incoming(items, sources) >= 0
  {
    RowSizes(items, jobs, used, claims, working);
    ClonesWeigh(items, sources, clones, couple, now);
    ClonesFit(items, jobs, used, claims, working, sources, clones, couple, now);
    RoomForAll(items, Cloned(items, sources, clones, now), couple, Incoming(items, sources));
  }

  // ---------- what each transaction makes of an attachment ----------

  /** A claim leases the job for ten minutes; then it may be claimed again, at most eight times in all. */
  lemma ClaimedIsLeased(items: Items, jobs: map<Id, Job>, id: Id, now: Instant, other: Id, later: Instant)
    requires Claimable(items, jobs, id, now)
    ensures var (rows, leases) := (ScanStarted(items, id, now), LeaseTaken(jobs, id, now));
            && (Claimable(rows, leases, id, later) <==> later >= now + 600 && jobs[id].attempts < 7)
            && (other != id ==> (Claimable(rows, leases, other, later) <==> Claimable(items, jobs, other, later)))
            && leases[id].attempts == jobs[id].attempts + 1 && Counted(rows[id]) == Counted(items[id])
  {
  }

  /** A job put back is due again after its delay, unless its attempts are used up or its file is deleted. */
  lemma RetriedIsDueLater(items: Items, jobs: map<Id, Job>, id: Id, now: Instant, other: Id, later: Instant)
    requires id in items && id in jobs
    ensures var (rows, back) := (Requeued(items, id, now), PutBack(jobs, id, now));
            && (Claimable(rows, back, id, later)
                <==> later >= now + RetryDelay(jobs[id].attempts) && jobs[id].attempts < 8 && !items[id].deleted)
            && (other != id ==> (Claimable(rows, back, other, later) <==> Claimable(items, jobs, other, later)))
            && back[id].attempts == jobs[id].attempts && back[id].createdAt == jobs[id].createdAt
  {
  }

  /** A published file is on offer under its final size, and never scanned again. */
  lemma PublishedIsOnOffer(items: Items, jobs: map<Id, Job>, id: Id, finalSize: int, now: Instant, other: Id, later: Instant)
    requires id in items
    ensures var (rows, ended) := (Published(items, id, finalSize, now), Ended(jobs, id, Completed));
            && rows[id] == Item(items[id].couple, finalSize, Available, items[id].deleted, now)
            && !Claimable(rows, ended, id, later) && !Overdue(rows[id], later)
            && (id in jobs ==> ended[id].status == Completed && ended[id].attempts == jobs[id].attempts)
            && (other != id ==> (Claimable(rows, ended, other, later) <==> Claimable(items, jobs, other, later)))
  {
  }

  /** A rejected file weighs nothing, is never scanned again, and may be removed after a week. */
  lemma RejectedIsOver(items: Items, jobs: map<Id, Job>, id: Id, now: Instant, other: Id, later: Instant)
    requires id in items
    ensures var (rows, ended) := (Rejection(items, id, now), Ended(jobs, id, Refused));
            && rows[id] == Item(items[id].couple, items[id].size, Rejected, items[id].deleted, now)
            && Counted(rows[id]) == 0 && !Claimable(rows, ended, id, later)
            && (Overdue(rows[id], later) <==> later >= now + 604_800)
            && (id in jobs ==> ended[id].status == Refused && ended[id].attempts == jobs[id].attempts)
            && (other != id ==> (Claimable(rows, ended, other, later) <==> Claimable(items, jobs, other, later)))
  {
  }

  /** A good last chunk makes the file claimable from that instant on; a bad one rejects it. */
  lemma FinishedIsQueuedOrOver(items: Items, jobs: map<Id, Job>, id: Id, hashMatches: bool, now: Instant, later: Instant)
    requires id in items && !items[id].deleted && id !in jobs
    ensures var (rows, queued) := (Finished(items, id, hashMatches, now), Queued(jobs, id, hashMatches, now));
            && (Claimable(rows, queued, id, later) <==> hashMatches && later >= now)
            && rows[id].couple == items[id].couple && rows[id].size == items[id].size && !rows[id].deleted
            && (hashMatches ==> Counted(rows[id]) == (if items[id].size > 0 then items[id].size else 0)
                                && queued[id].attempts == 0 && queued[id].createdAt == now)
            && (!hashMatches ==> Counted(rows[id]) == 0 && (Overdue(rows[id], later) <==> later >= now + 604_800))
  {
  }

  /** A deleted file weighs nothing, is never scanned again, and its row stays. */
  lemma DeletedIsHidden(items: Items, jobs: map<Id, Job>, id: Id, now: Instant, later: Instant)
    requires id in items
    ensures var rows := Forgotten(items, id, now);
            && rows[id] == Item(items[id].couple, items[id].size, Deleted, true, now)
            && Counted(rows[id]) == 0 && !Claimable(rows, jobs, id, later) && !Overdue(rows[id], later)
            && rows.Keys == items.Keys
  {
  }

  /** Every clone is its source's file under a new identity, untouched since the fork. */
  lemma {:induction false} ClonesAreCopies(items: Items, sources: seq<Id>, clones: seq<Id>, couple: Couple,
                                           now: Instant, i: nat)
    requires |clones| == |sources| && AllFork(items, sources, couple) && NewIds(items.Keys, clones) && i < |sources|
    ensures clones[i] in Cloned(items, sources, clones, now)
    ensures Cloned(items, sources, clones, now)[clones[i]]
            == Item(couple, items[sources[i]].size, Available, false, now)
  {
    var n := |sources| - 1;
    assert CanFork(items, sources[n], couple);
    if i < n { ClonesAreCopies(items, sources[..n], clones[..n], couple, now, i); }
  }

  class Store {
    var items: Items
    var jobs: map<Id, Job>
    var reserved: int
    /** Every identity ever given to an attachment; they are random and never reused. */
    var used: set<Id>
    /** How often each job has been claimed. */
    ghost var claims: map<Id, nat>
    /** The attachment the one media worker holds. */
    ghost var working: Option<Id>

    constructor ()
      ensures Valid() && items == map[] && jobs == map[] && reserved == 0 && used == {} && working == None
    {
      items, jobs, reserved := map[], map[], 0;
      used, claims, working := {}, map[], None;
    }

    ghost predicate Accounted()
      reads this
    {
      reserved == LiveTotal(items) && 0 <= reserved <= GlobalQuotaBytes
    }

    ghost predicate Valid()
      reads this
    {
      Rows(items, jobs, used, claims, working) && Accounted() && WithinQuotas(items)
    }

    ghost predicate Unchanged(was: Items, wereJobs: map<Id, Job>, had: int)
      reads this
    {
      items == was && jobs == wereJobs && reserved == had
    }

    /** The database's sum over a set of rows. */
    method Sum(weights: map<Id, nat>) returns (total: nat)
      ensures total == Total(weights)
    {
      total := 0;
      var rest := weights;
      while rest != map[]
        invariant total + Total(rest) == Total(weights)
        decreases |rest|
      {
        var id :| id in rest;
        TotalTakesOut(rest, id);
        total := total + rest[id];
        rest := rest - {id};
      }
    }

    /** Move a prior reservation; refusals leave the counter alone. */
    method AdjustStorage(delta: int) returns (r: Result<(), bool>)
      modifies this`reserved
      ensures r.Ok? <==> 0 <= old(reserved) + delta <= GlobalQuotaBytes
      ensures r.Err? ==> reserved == old(reserved) && r.error == (old(reserved) + delta > GlobalQuotaBytes)
      ensures r.Ok? ==> reserved == old(reserved) + delta
    {
      var next := reserved + delta;
      if next > GlobalQuotaBytes { return Err(true); }
      if next < 0 { return Err(false); }
      reserved := next;
      return Ok(());
    }

    /** The request is well-formed and within every limit. */
    ghost predicate Admits(couple: Couple, size: int, diskFits: bool)
      reads this
    {
      && 0 < size <= MaxFileBytes && |UploadsOf(items, couple)| < MaxConcurrentUploads
      && CoupleTotal(items, couple) + size <= CoupleQuotaBytes
      && diskFits && reserved + size <= GlobalQuotaBytes
    }

    /** Reserve an upload: exactly an admitted request whose commit holds leaves a trace. */
    method ReserveUpload(id: Id, couple: Couple, size: int, now: Instant, diskFits: bool, fate: Fate)
      returns (r: Outcome<bool>)
      requires Valid() && id !in used
      modifies this`items, this`reserved, this`used
      ensures Valid()
      ensures var admitted := old(Admits(couple, size, diskFits));
              && (if admitted && fate != RollsBack
                  then items == old(items)[id := Item(couple, size, Uploading, false, now)]
                       && reserved == old(reserved) + size && used == old(used) + {id}
                  else Unchanged(old(items), jobs, old(reserved)) && used == old(used))
              && r == (if !admitted then Done(false) else if fate == Commits then Done(true) else Raised)
      ensures r == Done(false) <==>
                !(&& 0 < size <= 100 * 1024 * 1024 && diskFits
                  && |set other | other in old(items) && old(items)[other].couple == couple
                                  && old(items)[other].status == Uploading && !old(items)[other].deleted| < 4
                  && old(CoupleTotal(items, couple)) + size <= 2 * 1024 * 1024 * 1024
                  && old(reserved) + size <= 50 * 1024 * 1024 * 1024)
    {
      assert UploadsOf(items, couple)
             == set other | other in items && items[other].couple == couple
                            && items[other].status == Uploading && !items[other].deleted;
      if !(0 < size <= MaxFileBytes) { return Done(false); }
      if |UploadsOf(items, couple)| >= MaxConcurrentUploads { return Done(false); }
      var held := Sum(CoupleWeights(items, couple));
      if held + size > CoupleQuotaBytes || !diskFits || reserved + size > GlobalQuotaBytes {
        return Done(false);
      }
      if fate == RollsBack { return Raised; }
      var item := Item(couple, size, Uploading, false, now);
      WriteKeepsQuotas(items, id, item);
      RowsAfterNew(items, jobs, used, claims, working, id, item);
      items, reserved, used := items[id := item], reserved + size, used + {id};
      return if fate == Commits then Done(true) else Raised;
    }

    /**
     The row exists, the reading says it is uploading, the staging file reaches the chunk's offset, and
     the database accepts what is written.
     */
    ghost predicate Finishes(id: Id, seen: Item, offset: nat, staged: nat, hashMatches: bool)
      reads this
    {
      && id in items && seen.status == Uploading && staged >= offset
      && if hashMatches then id !in jobs else reserved >= seen.size
    }

    /**
     The last chunk arrived: a good hash queues the scan, a bad one frees the reservation. `seen` is the
     row as first read; the second, locking read returns the object already loaded. `staged` is the length
     of the staging file; what it holds beyond the offset is cut off. The counter stays exact if and only if
     nothing is written or that reading is balanced against the row.
     */
    method FinishUpload(id: Id, seen: Item, offset: nat, staged: nat, hashMatches: bool, now: Instant, fate: Fate)
      returns (r: Outcome<bool>)
      requires Valid() && 1 <= seen.size <= MaxFileBytes
      modifies this`items, this`jobs, this`reserved
      ensures if old(Finishes(id, seen, offset, staged, hashMatches)) && fate != RollsBack
              then items == Finished(old(items), id, hashMatches, now)
                   && jobs == Queued(old(jobs), id, hashMatches, now)
                   && reserved == old(reserved) - Freed(seen, hashMatches)
              else Unchanged(old(items), old(jobs), old(reserved))
      ensures Accounted() <==>
                !old(Finishes(id, seen, offset, staged, hashMatches)) || fate == RollsBack
                || FinishBalanced(old(items)[id], seen, hashMatches)
      ensures Accounted() && working != Some(id) ==> Valid()
      ensures r == if id !in old(items) || seen.status != Uploading || staged < offset then Done(false)
                   else if old(Finishes(id, seen, offset, staged, hashMatches)) && fate == Commits then Done(true) else Raised
    {
      if id !in items || seen.status != Uploading { return Done(false); }
      if staged < offset { return Done(false); }
      if fate == RollsBack { return Raised; }
      if hashMatches && id in jobs { return Raised; }
      if !hashMatches && reserved < seen.size { return Raised; }
      FinishingFits(items, jobs, reserved, used, claims, working, id, seen, hashMatches, now);
      if !hashMatches {
        var adjusted := AdjustStorage(-seen.size);
        assert adjusted.Ok?;
      }
      items, jobs := Finished(items, id, hashMatches, now), Queued(jobs, id, hashMatches, now);
      return if fate == Commits then Done(true) else Raised;
    }

    /** All sources are clean files of the couple, and their copies fit every limit. */
    ghost predicate AdmitsFork(sources: seq<Id>, couple: Couple, diskFits: bool)
      reads this
    {
      && AllFork(items, sources, couple) && diskFits
      && CoupleTotal(items, couple) + Incoming(items, sources) <= CoupleQuotaBytes
      && reserved + Incoming(items, sources) <= GlobalQuotaBytes
    }

    /** Save a conflict as a new note: the clean attachments are cloned under one reservation. */
    method ForkAttachments(sources: seq<Id>, clones: seq<Id>, couple: Couple, now: Instant,
                           diskFits: bool, fate: Fate)
      returns (r: Outcome<bool>)
      requires Valid() && |clones| == |sources| && NewIds(used, clones)
      modifies this`items, this`reserved, this`used
      ensures Valid()
      ensures var admitted := old(AdmitsFork(sources, couple, diskFits));
              && (if admitted && fate != RollsBack
                  then items == Cloned(old(items), sources, clones, now)
                       && reserved == old(reserved) + Incoming(old(items), sources) && used == old(used) + IdsOf(clones)
                  else Unchanged(old(items), jobs, old(reserved)) && used == old(used))
              && r == (if !admitted then Done(false) else if fate == Commits then Done(true) else Raised)
      ensures r != Done(false) ==>
                && (forall i :: 0 <= i < |sources| ==>
                      && sources[i] in old(items) && old(items)[sources[i]].couple == couple
                      && old(items)[sources[i]].status == Available && !old(items)[sources[i]].deleted)
                && reserved <= 50 * 1024 * 1024 * 1024
      ensures r == Done(false) ==>
                || !diskFits
                || (exists i :: 0 <= i < |sources|
                                && !(&& sources[i] in old(items) && old(items)[sources[i]].couple == couple
                                     && old(items)[sources[i]].status == Available && !old(items)[sources[i]].deleted))
                || (&& (forall i :: 0 <= i < |sources| ==> sources[i] in old(items))
                    && var incoming := Incoming(old(items), sources);
                       || old(CoupleTotal(items, couple)) + incoming > 2 * 1024 * 1024 * 1024
                       || old(reserved) + incoming > 50 * 1024 * 1024 * 1024)
    {
      if exists i :: 0 <= i < |sources| && !CanFork(items, sources[i], couple) {
        return Done(false);
      }
      var held := Sum(CoupleWeights(items, couple));
      var incoming := TotalSize(sources);
      if held + incoming > CoupleQuotaBytes || !diskFits || reserved + incoming > GlobalQuotaBytes {
        return Done(false);
      }
      if fate == RollsBack { return Raised; }
      var copied := Copies(sources, clones, now);
      ForkFits(items, jobs, used, claims, working, sources, clones, couple, now);
      items, reserved, used := copied, reserved + incoming, used + IdsOf(clones);
      return if fate == Commits then Done(true) else Raised;
    }

    method TotalSize(sources: seq<Id>) returns (total: int)
      requires forall i :: 0 <= i < |sources| ==> sources[i] in items
      ensures total == Incoming(items, sources)
    {
      total := 0;
      for i := 0 to |sources|
        invariant total == Incoming(items, sources[..i])
      {
        assert sources[..i + 1][..i] == sources[..i];
        total := total + items[sources[i]].size;
      }
      assert sources[..|sources|] == sources;
    }

    /** One new row for each clone, beside the rows there are. */
    method Copies(sources: seq<Id>, clones: seq<Id>, now: Instant) returns (copied: Items)
      requires |clones| == |sources| && forall i :: 0 <= i < |sources| ==> sources[i] in items
      ensures copied == Cloned(items, sources, clones, now)
    {
      copied := items;
      for i := 0 to |sources|
        invariant copied == Cloned(items, sources[..i], clones[..i], now)
      {
        assert sources[..i + 1][..i] == sources[..i] && clones[..i + 1][..i] == clones[..i];
        copied := copied[clones[i] := items[sources[i]].(updatedAt := now)];
      }
      assert sources[..|sources|] == sources && clones[..|sources|] == clones;
    }

    /** The row exists and the counter covers what the early reading weighed. */
    ghost predicate Deletes(id: Id, seen: Item)
      reads this
    {
      id in items && reserved >= Counted(seen)
    }

    /**
     Hide an attachment. `seen` is the row as the request read it before waiting for the couple's lock;
     the counter stays exact if and only if nothing is written or that reading still weighs what the row
     weighs now.
     */
    method DeleteAttachment(id: Id, seen: Item, now: Instant, fate: Fate) returns (r: Outcome<()>)
      requires Valid() && 1 <= seen.size <= MaxFileBytes && !seen.deleted
      modifies this`items, this`reserved
      ensures Rows(items, jobs, used, claims, working) && WithinQuotas(items)
      ensures if old(Deletes(id, seen)) && fate != RollsBack
              then items == Forgotten(old(items), id, now) && reserved == old(reserved) - Counted(seen)
              else Unchanged(old(items), jobs, old(reserved))
      ensures Accounted() <==>
                !old(Deletes(id, seen)) || fate == RollsBack || Counted(seen) == Counted(old(items)[id])
      ensures r == if old(Deletes(id, seen)) && fate == Commits then Done(()) else Raised
    {
      if LiveStatus(seen.status) && reserved - seen.size < 0 { return Raised; }
      if id !in items || fate == RollsBack { return Raised; }
      ghost var item := items[id].(status := Deleted, deleted := true, updatedAt := now);
      DeletionKeepsTheAccount(items, reserved, id, seen, now);
      LighterWriteKeepsQuotas(items, id, item);
      assert RowOk(items, jobs, claims, working, id);
      RowsAfterWrite(items, jobs, used, claims, working, id, item);
      if LiveStatus(seen.status) {
        var adjusted := AdjustStorage(-seen.size);
        assert adjusted.Ok?;
      }
      items := Forgotten(items, id, now);
      return if fate == Commits then Done(()) else Raised;
    }

    /** Row and job of this identity are still what they were. */
    ghost predicate Spared(was: Items, wereJobs: map<Id, Job>, id: Id)
      requires id in was
      reads this
    {
      && id in items && items[id] == was[id] && (id in jobs <==> id in wereJobs)
      && (id in jobs ==> jobs[id] == wereJobs[id])
    }

    /**
     Expiry, cascades of deleted notes and couples (`doomed`), then reconciliation. It needs no
     correct counter to start from: a commit restores the equality whatever drift came before.
     */
    method RunMaintenance(now: Instant, doomed: set<Id>, fate: Fate) returns (r: Outcome<()>)
      requires Rows(items, jobs, used, claims, working) && WithinQuotas(items)
      modifies this`items, this`jobs, this`reserved
      ensures Rows(items, jobs, used, claims, working) && WithinQuotas(items)
      ensures var gone := Expired(old(items), now) + doomed;
              var fits := LiveTotal(old(items) - gone) <= GlobalQuotaBytes;
              && (if fits && fate != RollsBack
                  then items == old(items) - gone && jobs == old(jobs) - gone && Valid()
                  else Unchanged(old(items), old(jobs), old(reserved)))
              && r == (if fits && fate == Commits then Done(()) else Raised)
              && (old(Accounted()) ==> fits && Valid())
      ensures r == Done(()) ==> forall id :: id in old(items) ==>
                                  (id !in items <==> id in doomed || Overdue(old(items)[id], now))
      ensures forall id :: id in old(items) && id !in doomed && !Overdue(old(items)[id], now) ==>
                             Spared(old(items), old(jobs), id)
    {
      var gone := Expired(items, now) + doomed;
      TotalsAfterRemoval(items, gone);
      var total := Sum(LiveWeights(items - gone));
      if total > GlobalQuotaBytes || fate == RollsBack { return Raised; }
      RemovalFits(items, jobs, used, claims, working, gone);
      items, jobs, reserved := items - gone, jobs - gone, total;
      return if fate == Commits then Done(()) else Raised;
    }

    /** Claim the ready job that is due first; nothing is claimed exactly when nothing is claimable. */
    method ClaimReady(now: Instant, fate: Fate) returns (r: Outcome<Option<Id>>, ghost claimed: Option<Id>)
      requires Valid() && working == None
      modifies this`items, this`jobs, this`claims, this`working
      ensures Valid()
      ensures claimed.Some? <==> !NothingClaimable(old(items), old(jobs), now) && fate != RollsBack
      ensures r == if NothingClaimable(old(items), old(jobs), now) then Done(None)
                   else if fate == Commits then Done(claimed) else Raised
      ensures working == if fate == Commits then claimed else None
      ensures claimed == None ==> Unchanged(old(items), old(jobs), reserved) && claims == old(claims)
      ensures claimed.Some? ==>
                var id := claimed.value;
                && FirstClaimable(old(items), old(jobs), id, now)
                && (forall other :: Claimable(old(items), old(jobs), other, now) ==>
                      || old(jobs)[id].nextAttemptAt < old(jobs)[other].nextAttemptAt
                      || (old(jobs)[id].nextAttemptAt == old(jobs)[other].nextAttemptAt
                          && old(jobs)[id].createdAt <= old(jobs)[other].createdAt))
                && items == ScanStarted(old(items), id, now)
                && jobs == LeaseTaken(old(jobs), id, now)
                && claims == OneMoreClaim(old(claims), id)
    {
      var first := FirstReady(now);
      claimed := None;
      if first.None? { return Done(None), None; }
      if fate == RollsBack { return Raised, None; }
      claimed := first;
      var id := first.value;
      ClaimFits(items, jobs, used, claims, id, now);
      items, jobs := ScanStarted(items, id, now), LeaseTaken(jobs, id, now);
      claims, working := OneMoreClaim(claims, id), if fate == Commits then first else None;
      r := if fate == Commits then Done(first) else Raised;
    }

    method FirstReady(now: Instant) returns (first: Option<Id>)
      requires jobs.Keys <= items.Keys
      ensures first.None? <==> NothingClaimable(items, jobs, now)
      ensures first.Some? ==> FirstClaimable(items, jobs, first.value, now)
    {
      first := None;
      var rest := jobs.Keys;
      while rest != {}
        invariant rest <= jobs.Keys
        invariant first.None? ==> forall id :: id !in rest ==> !Claimable(items, jobs, id, now)
        invariant first.Some? ==> Claimable(items, jobs, first.value, now)
        invariant first.Some? ==> forall id :: id !in rest && Claimable(items, jobs, id, now)
                                               ==> NotAfter(jobs[first.value], jobs[id])
        decreases rest
      {
        var id :| id in rest;
        rest := rest - {id};
        if Claimable(items, jobs, id, now)
           && (first.None? || !NotAfter(jobs[first.value], jobs[id])) {
          first := Some(id);
        }
      }
    }

    /** The file is still being scanned and its final size fits both ceilings. */
    ghost predicate Publishable(id: Id, finalSize: int)
      reads this
    {
      && id in items && items[id].status == Scanning
      && CoupleTotal(items, items[id].couple) - items[id].size + finalSize <= CoupleQuotaBytes
      && reserved - items[id].size + finalSize <= GlobalQuotaBytes
    }

    /**
     Publish the sanitized file under its final size. Refused, with no trace, exactly when the file is
     no longer being scanned or a ceiling would be passed; the accounting error cannot occur. The row
     constraint refuses an empty file, and with it the whole transaction.
     */
    method MarkAvailable(id: Id, finalSize: int, now: Instant, fate: Fate) returns (r: Outcome<bool>)
      requires Valid() && working == Some(id) && 0 <= finalSize <= MaxFileBytes
      modifies this`items, this`jobs, this`reserved
      ensures Valid()
      ensures var publishable := old(Publishable(id, finalSize));
              && (if publishable && finalSize > 0 && fate != RollsBack
                  then items == Published(old(items), id, finalSize, now) && jobs == Ended(old(jobs), id, Completed)
                       && reserved == old(reserved) - old(items)[id].size + finalSize
                  else Unchanged(old(items), old(jobs), old(reserved)))
              && r == (if !publishable then Done(false) else if finalSize > 0 && fate == Commits then Done(true) else Raised)
    {
      if id !in items || items[id].status != Scanning { return Done(false); }
      var item := items[id];
      HeldWeighs(items, jobs, used, claims, id);
      var others := CoupleReservedExcept(item.couple, id);
      if others + finalSize > CoupleQuotaBytes { return Done(false); }
      if reserved + finalSize - item.size > GlobalQuotaBytes { return Done(false); }
      if finalSize == 0 || fate == RollsBack { return Raised; }
      PublishingFits(items, jobs, used, claims, id, finalSize, now);
      var adjusted := AdjustStorage(finalSize - item.size);
      assert adjusted.Ok?;
      items, jobs := Published(items, id, finalSize, now), Ended(jobs, id, Completed);
      return if fate == Commits then Done(true) else Raised;
    }

    method CoupleReservedExcept(couple: Couple, id: Id) returns (total: nat)
      ensures total == CoupleTotal(items, couple) - CoupleCountedAt(items, id, couple)
    {
      var weights := CoupleWeights(items, couple);
      if id in weights { TotalTakesOut(weights, id); } else { assert weights - {id} == weights; }
      total := Sum(weights - {id});
    }

    /** Put the job back with a delay, or report that its attempts are used up. */
    method Retry(id: Id, now: Instant, fate: Fate) returns (reject: Outcome<bool>)
      requires Valid() && working == Some(id)
      modifies this`items, this`jobs, this`working
      ensures Valid() && reserved == old(reserved)
      ensures var known := id in old(jobs) && id in old(items);
              var last := known && old(jobs)[id].attempts == MaxJobAttempts;
              && (if known && !last && fate != RollsBack
                  then items == Requeued(old(items), id, now) && jobs == PutBack(old(jobs), id, now)
                  else items == old(items) && jobs == old(jobs))
              && working == (if last then Some(id) else None)
              && reject == (if last then Done(true) else if !known || fate == Commits then Done(false) else Raised)
    {
      if id !in jobs || id !in items {
        RowsAfterRelease(items, jobs, used, claims, working);
        working := None;
        return Done(false);
      }
      AttemptsAreBounded(items, jobs, used, claims, working, id);
      if jobs[id].attempts >= MaxJobAttempts { return Done(true); }
      RowsAfterRelease(items, jobs, used, claims, working);
      if fate == RollsBack {
        working := None;
        return Raised;
      }
      RequeueingFits(items, jobs, used, claims, id, now);
      items, jobs, working := Requeued(items, id, now), PutBack(jobs, id, now), None;
      return if fate == Commits then Done(false) else Raised;
    }

    /** Refuse the attachment for good. Its bytes are given back unless a deletion already did that. */
    method Reject(id: Id, now: Instant, fate: Fate) returns (r: Outcome<()>)
      requires Valid() && working == Some(id)
      modifies this`items, this`jobs, this`reserved, this`working
      ensures Valid() && working == None
      ensures if id in old(items) && fate != RollsBack
              then items == Rejection(old(items), id, now) && jobs == Ended(old(jobs), id, Refused)
                   && reserved == old(reserved) - Counted(old(items)[id])
              else Unchanged(old(items), old(jobs), old(reserved))
      ensures r == if id !in old(items) || fate == Commits then Done(()) else Raised
    {
      RowsAfterRelease(items, jobs, used, claims, working);
      if id !in items || fate == RollsBack {
        working := None;
        return if id !in items then Done(()) else Raised;
      }
      RejectionFits(items, jobs, used, claims, id, now);
      if LiveStatus(items[id].status) {
        var adjusted := AdjustStorage(-items[id].size);
        assert adjusted.Ok?;
      }
      items, jobs, working := Rejection(items, id, now), Ended(jobs, id, Refused), None;
      return if fate == Commits then Done(()) else Raised;
    }

    /** Given up: a worker died during the eighth attempt, or the row has been deleted or removed since. */
    ghost predicate Resting(id: Id)
      reads this
    {
      id in used && (id !in items || items[id].deleted || Stranded(items, jobs, working, id))
    }

    /** Any number of transactions of the routes and of maintenance, in any order. */
    method Others(ghost lost: Id, spared: Option<Id>)
      requires Valid()
      modifies this`items, this`jobs, this`reserved, this`used
      ensures Valid() && (old(Resting(lost)) ==> Resting(lost))
      ensures spared.Some? ==> Kept(old(items), spared.value)
    {
      var many: int := *;
      while many > 0
        invariant Valid() && (old(Resting(lost)) ==> Resting(lost))
        invariant spared.Some? ==> Kept(old(items), spared.value)
      {
        many := many - 1;
        OneOther(lost, spared);
      }
    }

    /** A published file is still that file, unless it has been deleted. */
    ghost predicate Kept(was: Items, id: Id)
      reads this
    {
      id in was && was[id].status in {Available, Deleted} ==>
        id in items && (items[id] == was[id] || items[id].status == Deleted)
    }

    /**
     One of them. A request that reads a row before it waits for the lock may read anything that no
     other transaction has made untrue: a deletion reads the row's weight, a last chunk that it uploads.
     No note or couple of the attachment `spared` is removed.
     */
    method OneOther(ghost lost: Id, spared: Option<Id>)
      requires Valid()
      modifies this`items, this`jobs, this`reserved, this`used
      ensures Valid() && (old(Resting(lost)) ==> Resting(lost))
      ensures spared.Some? ==> Kept(old(items), spared.value)
    {
      var now: Instant, fate: Fate, id: Id, seen: Item, flag: bool := *, *, *, *, *;
      if
      case true =>
        var couple: Couple, size: int := *, *;
        if id !in used { var _ := ReserveUpload(id, couple, size, now, flag, fate); }
      case true =>
        if id in items && 1 <= seen.size <= MaxFileBytes
           && (seen.status == Uploading ==> items[id].status == Uploading && items[id].size == seen.size)
        {
          if items[id].status == Uploading { UploadingIsFree(items, jobs, used, claims, working, id); }
          var offset: nat, staged: nat := *, *;
          var _ := FinishUpload(id, seen, offset, staged, flag, now, fate);
        }
      case true =>
        var couple: Couple, sources: seq<Id>, clones: seq<Id> := *, *, *;
        if |clones| == |sources| && NewIds(used, clones) {
          if lost in used && AllFork(items, sources, couple) { ClonesSpare(items, sources, clones, now, lost); }
          if spared.Some? && spared.value in used && AllFork(items, sources, couple) {
            ClonesSpare(items, sources, clones, now, spared.value);
          }
          var _ := ForkAttachments(sources, clones, couple, now, flag, fate);
        }
      case true =>
        if id in items && !seen.deleted && 1 <= seen.size <= MaxFileBytes && Counted(seen) == Counted(items[id]) {
          var _ := DeleteAttachment(id, seen, now, fate);
        }
      case true =>
        var doomed: set<Id> := *;
        if spared.None? || spared.value !in doomed { var _ := RunMaintenance(now, doomed, fate); }
    }

    /** In an undisturbed cycle every commit holds. */
    method AnyFate(undisturbed: bool) returns (fate: Fate)
      ensures undisturbed ==> fate == Commits
    {
      fate := *;
      if undisturbed { fate := Commits; }
    }

    method OthersUnless(undisturbed: bool, ghost lost: Id, spared: Option<Id>)
      requires Valid()
      modifies this`items, this`jobs, this`reserved, this`used
      ensures Valid() && (old(Resting(lost)) ==> Resting(lost))
      ensures spared.Some? ==> Kept(old(items), spared.value)
      ensures undisturbed ==> Unchanged(old(items), old(jobs), old(reserved))
    {
      if !undisturbed { Others(lost, spared); }
    }

    /**
     One cycle of the media worker, with other transactions between any two of its own. Whatever the
     scanner, the file system and the commits do, and wherever the worker dies, the account is exact,
     and an attachment given up stays so: unclaimed, and counted until it is deleted or removed. A file
     once published stays as it is until it is deleted, or its note or couple is removed. Undisturbed,
     the cycle brings the file that is due first to the end that its `scan` calls for.
     */
    method ScanPendingOnce(now: Instant, scan: Scan, undisturbed: bool, ghost lost: Id, spared: Option<Id>)
      returns (r: Outcome<bool>, at: Instant, later: Instant, ghost claimed: Option<Id>)
      requires Valid() && working == None
      modifies this
      ensures Valid() && working == None
      ensures r == Done(false) ==> claims == old(claims)
      ensures old(Resting(lost)) ==> Resting(lost) && ClaimsOf(claims, lost) == old(ClaimsOf(claims, lost))
      ensures spared.Some? ==> Kept(old(items), spared.value)
      ensures undisturbed && NothingClaimable(old(items), old(jobs), now) ==>
                r == Done(false) && Unchanged(old(items), old(jobs), old(reserved))
      ensures undisturbed && !NothingClaimable(old(items), old(jobs), now) ==>
                && claimed.Some? && FirstClaimable(old(items), old(jobs), claimed.value, now)
                && r == (if scan.verdict.Died? then Raised else Done(true))
                && (items, jobs) == AfterCycle(old(items), old(jobs), claimed.value, now, scan,
                                               old(FitsIn(claimed.value, scan.finalSize)), at, later)
    {
      at, later := now, now;
      var claim;
      claim, claimed := Claim(now, scan.finalSize, undisturbed, lost, spared);
      if claim.Raised? || claim.value.None? {
        r := if claim.Raised? then Raised else Done(false);
        return;
      }
      var died;
      died, at, later := Work(claim.value.value, scan, undisturbed, lost, spared);
      r := if died then Raised else Done(true);
    }

    /** Take the next job, in the terms of a whole cycle. */
    method Claim(now: Instant, ghost finalSize: nat, undisturbed: bool, ghost lost: Id, spared: Option<Id>)
      returns (r: Outcome<Option<Id>>, ghost claimed: Option<Id>)
      requires Valid() && working == None
      modifies this`items, this`jobs, this`claims, this`working
      ensures Valid()
      ensures working == (if r.Done? then r.value else None) && (r.Done? ==> r.value == claimed)
      ensures claimed == None ==> Unchanged(old(items), old(jobs), reserved) && claims == old(claims)
      ensures old(Resting(lost)) ==>
                claimed != Some(lost) && Resting(lost) && ClaimsOf(claims, lost) == old(ClaimsOf(claims, lost))
      ensures spared.Some? ==> Kept(old(items), spared.value)
      ensures spared.Some? && spared.value in old(items) && old(items)[spared.value].status in {Available, Deleted}
              ==> claimed != spared
      ensures undisturbed ==> r.Done? && (claimed.Some? <==> !NothingClaimable(old(items), old(jobs), now))
      ensures claimed.Some? ==>
                var id := claimed.value;
                && FirstClaimable(old(items), old(jobs), id, now)
                && items == ScanStarted(old(items), id, now) && jobs == LeaseTaken(old(jobs), id, now)
                && FitsIn(id, finalSize) == old(FitsIn(id, finalSize))
    {
      var fate := AnyFate(undisturbed);
      r, claimed := ClaimReady(now, fate);
      if claimed.Some? { ClaimKeepsRoom(old(items), claimed.value, now); }
    }

    /** Process the claimed file, and handle how that ended. */
    method Work(id: Id, scan: Scan, undisturbed: bool, ghost lost: Id, spared: Option<Id>)
      returns (died: bool, at: Instant, later: Instant)
      requires Valid() && working == Some(id)
      modifies this`items, this`jobs, this`reserved, this`used, this`working
      ensures Valid() && working == None
      ensures spared.Some? && spared.value != id ==> Kept(old(items), spared.value)
      ensures id != lost && old(Resting(lost)) ==> Resting(lost)
      ensures undisturbed && id in old(items) && id in old(jobs) && old(items)[id].status == Scanning ==>
                && died == scan.verdict.Died?
                && (items, jobs) == AfterWork(old(items), old(jobs), id, scan, old(FitsIn(id, scan.finalSize)), at, later)
      ensures undisturbed && (id !in old(items) || old(items)[id].status != Scanning) ==>
                !died && items == old(items) && jobs == old(jobs)
    {
      var ending;
      ending, at := Process(id, scan, undisturbed, lost, spared);
      later := Settle(id, ending, undisturbed, lost, spared);
      died := ending.Died?;
    }

    /** Both ceilings have room for the file's final size. */
    ghost predicate FitsIn(id: Id, finalSize: nat)
      requires id in items
      reads this
    {
      && CoupleTotal(items, items[id].couple) - items[id].size + finalSize <= CoupleQuotaBytes
      && reserved - items[id].size + finalSize <= GlobalQuotaBytes
    }

    /** The handlers of a processing: reject, or retry and reject after the last attempt. */
    method Settle(id: Id, ending: Ending, undisturbed: bool, ghost lost: Id, spared: Option<Id>) returns (at: Instant)
      requires Valid() && working == Some(id)
      modifies this`items, this`jobs, this`reserved, this`used, this`working
      ensures Valid() && working == None
      ensures spared.Some? && spared.value != id ==> Kept(old(items), spared.value)
      ensures id != lost && old(Resting(lost)) ==> Resting(lost)
      ensures undisturbed && id in old(items) && id in old(jobs) ==>
                (items, jobs) == AfterEnding(old(items), old(jobs), id, ending, at)
      ensures undisturbed && (ending.Processed? || ending.Died?) ==> items == old(items) && jobs == old(jobs)
    {
      OthersUnless(undisturbed, lost, spared);
      at := *;
      match ending {
        case Unfit =>
          var fate := AnyFate(undisturbed);
          var _ := Reject(id, at, fate);
        case Unfinished => at := RetryOrReject(id, undisturbed, lost, spared);
        case _ => LetGo();
      }
    }

    /** Try again later, or reject after the eighth attempt. */
    method RetryOrReject(id: Id, undisturbed: bool, ghost lost: Id, spared: Option<Id>) returns (at: Instant)
      requires Valid() && working == Some(id)
      modifies this`items, this`jobs, this`reserved, this`used, this`working
      ensures Valid() && working == None
      ensures spared.Some? && spared.value != id ==> Kept(old(items), spared.value)
      ensures id != lost && old(Resting(lost)) ==> Resting(lost)
      ensures undisturbed && id in old(items) && id in old(jobs) ==>
                (items, jobs) == AfterEnding(old(items), old(jobs), id, Unfinished, at)
    {
      if id in jobs { AttemptsAreBounded(items, jobs, used, claims, working, id); }
      at := *;
      var fate := AnyFate(undisturbed);
      var reject := Retry(id, at, fate);
      if reject == Done(true) {
        OthersUnless(undisturbed, lost, spared);
        at := *;
        fate := AnyFate(undisturbed);
        var _ := Reject(id, at, fate);
      }
    }

    /** Scan, sanitize and publish. Removing the staged file may fail after the publication held. */
    method Process(id: Id, scan: Scan, undisturbed: bool, ghost lost: Id, spared: Option<Id>)
      returns (ending: Ending, at: Instant)
      requires Valid() && working == Some(id)
      modifies this`items, this`jobs, this`reserved, this`used
      ensures Valid()
      ensures spared.Some? && spared.value != id ==> Kept(old(items), spared.value)
      ensures id != lost && old(Resting(lost)) ==> Resting(lost)
      ensures undisturbed && (id !in old(items) || old(items)[id].status != Scanning) ==>
                ending == Processed && items == old(items) && jobs == old(jobs)
      ensures undisturbed && id in old(items) && old(items)[id].status == Scanning ==>
                var result := EndingOf(scan, old(FitsIn(id, scan.finalSize)));
                && ending == (if result == Processed && !scan.unlinks then Unfinished else result)
                && items == (if result == Processed then Published(old(items), id, scan.finalSize, at) else old(items))
                && jobs == (if result == Processed then Ended(old(jobs), id, Completed) else old(jobs))
    {
      at := *;
      OthersUnless(undisturbed, lost, spared);
      if id !in items || items[id].status != Scanning { return Processed, at; }
      if scan.verdict != Processed || scan.finalSize > MaxFileBytes {
        return if scan.verdict == Processed then Unfit else scan.verdict, at;
      }
      OthersUnless(undisturbed, lost, spared);
      var fate := AnyFate(undisturbed);
      ending := Publish(id, scan, at, fate);
    }

    /** Publish a clean file, then remove its staged copy. */
    method Publish(id: Id, scan: Scan, at: Instant, fate: Fate) returns (ending: Ending)
      requires Valid() && working == Some(id) && scan.verdict == Processed && scan.finalSize <= MaxFileBytes
      modifies this`items, this`jobs, this`reserved
      ensures Valid()
      ensures var publishable := old(Publishable(id, scan.finalSize));
              var published := publishable && scan.finalSize > 0 && fate != RollsBack;
              && items == (if published then Published(old(items), id, scan.finalSize, at) else old(items))
              && jobs == (if published then Ended(old(jobs), id, Completed) else old(jobs))
              && ending == if !publishable then Unfit
                           else if published && fate == Commits && scan.unlinks then Processed else Unfinished
    {
      var published := MarkAvailable(id, scan.finalSize, at, fate);
      if published.Raised? { return Unfinished; }
      return if !published.value then Unfit else if scan.unlinks then Processed else Unfinished;
    }

    method LetGo()
      requires Valid()
      modifies this`working
      ensures Valid() && working == None
    {
      RowsAfterRelease(items, jobs, used, claims, working);
      working := None;
    }
  }

  /** How one processing ended: normally, with a rejection, with a failure to retry, or by death. */
  datatype Ending = Processed | Unfit | Unfinished | Died

  /** What the scanner says, the size after sanitizing, and whether the staged file can then be removed. */
  datatype Scan = Scan(verdict: Ending, finalSize: nat, unlinks: bool)

  /** How an undisturbed scan ends, up to the removal of the staged file. */
  function EndingOf(scan: Scan, fits: bool): Ending {
    if scan.verdict != Processed then scan.verdict
    else if scan.finalSize > MaxFileBytes || !fits then Unfit
    else if scan.finalSize == 0 then Unfinished
    else Processed
  }

  /** What the handler of an ending writes. */
  function AfterEnding(items: Items, jobs: map<Id, Job>, id: Id, ending: Ending, at: Instant): (Items, map<Id, Job>)
    requires id in items && id in jobs
  {
    match ending
    case Processed => (items, jobs)
    case Died => (items, jobs)
    case Unfit => (Rejection(items, id, at), Ended(jobs, id, Refused))
    case Unfinished =>
      if jobs[id].attempts < MaxJobAttempts then (Requeued(items, id, at), PutBack(jobs, id, at))
      else (Rejection(items, id, at), Ended(jobs, id, Refused))
  }

  /** What undisturbed work on a claimed file writes. A publication comes first, and a failure after it counts, too. */
  function AfterWork(items: Items, jobs: map<Id, Job>, id: Id, scan: Scan, fits: bool, at: Instant, later: Instant)
    : (Items, map<Id, Job>)
    requires id in items && id in jobs
  {
    var result := EndingOf(scan, fits);
    if result != Processed then AfterEnding(items, jobs, id, result, later)
    else
      var (rows, ended) := (Published(items, id, scan.finalSize, at), Ended(jobs, id, Completed));
      AfterEnding(rows, ended, id, if scan.unlinks then Processed else Unfinished, later)
  }

  /** What an undisturbed cycle writes for the job it claims. */
  function AfterCycle(items: Items, jobs: map<Id, Job>, id: Id, now: Instant, scan: Scan, fits: bool,
                      at: Instant, later: Instant): (Items, map<Id, Job>)
    requires id in items && id in jobs
  {
    AfterWork(ScanStarted(items, id, now), LeaseTaken(jobs, id, now), id, scan, fits, at, later)
  }

  /**
   A clean file that fits is published, an unclean one rejected, and a failure tried again up to the
   eighth time. A published file is taken back in the same way when its staged copy cannot be removed.
   */
  lemma CycleDoesItsWork(items: Items, jobs: map<Id, Job>, id: Id, now: Instant, scan: Scan, fits: bool,
                         at: Instant, later: Instant, other: Id)
    requires id in items && id in jobs && jobs[id].attempts < 8
    ensures var (rows, ended) := AfterCycle(items, jobs, id, now, scan, fits, at, later);
            var clean := scan.verdict == Processed && 0 < scan.finalSize <= 100 * 1024 * 1024 && fits;
            && id in rows && id in ended
            && (clean ==> rows[id].size == scan.finalSize)
            && (clean && scan.unlinks ==> rows[id].status == Available && ended[id].status == Completed)
            && (scan.verdict == Unfit || (scan.verdict == Processed && (scan.finalSize > 100 * 1024 * 1024 || !fits)) ==>
                  rows[id].status == Rejected && ended[id].status == Refused)
            && (scan.verdict == Unfinished || (clean && !scan.unlinks) ==>
                  if jobs[id].attempts < 7 then rows[id].status == PendingScan && ended[id].status == Pending
                  else rows[id].status == Rejected && ended[id].status == Refused)
            && (scan.verdict == Died ==> rows[id].status == Scanning && ended[id].status == Leased)
            && ended[id].attempts == jobs[id].attempts + 1
            && (other != id ==> (other in rows <==> other in items) && (other in ended <==> other in jobs))
            && (other != id && other in items ==> rows[other] == items[other])
            && (other != id && other in jobs ==> ended[other] == jobs[other])
  {
  }

  /** The worker and everyone else, for any number of cycles. */
  method RunForever(store: Store, cycles: nat, ghost lost: Id, spared: Option<Id>)
    requires store.Valid() && store.working == None
    modifies store
    ensures store.Valid() && store.working == None
    ensures old(store.Resting(lost)) ==>
              store.Resting(lost) && ClaimsOf(store.claims, lost) == old(ClaimsOf(store.claims, lost))
    ensures spared.Some? ==> store.Kept(old(store.items), spared.value)
  {
    for cycle := 0 to cycles
      invariant store.Valid() && store.working == None
      invariant old(store.Resting(lost)) ==>
                  store.Resting(lost) && ClaimsOf(store.claims, lost) == old(ClaimsOf(store.claims, lost))
      invariant spared.Some? ==> store.Kept(old(store.items), spared.value)
    {
      store.Others(lost, spared);
      var now: Instant, scan: Scan := *, *;
      var _, _, _, _ := store.ScanPendingOnce(now, scan, false, lost, spared);
    }
  }

  /**
   Two requests read one uploading row and both bring a last chunk that spoils the hash. The first to
   finish removes the staging file, so the second is written only at offset zero; then the counter drifts,
   unless it would fall below zero.
   */
  method OverlappingFinishes(store: Store, id: Id, offset: nat, staged: nat, now: Instant)
    requires store.Valid() && store.working != Some(id) && offset <= staged
    requires id in store.items && store.items[id].status == Uploading && Counted(store.items[id]) > 0
    modifies store
    ensures store.Accounted() <==> offset > 0 || old(store.reserved) < 2 * old(store.items[id]).size
  {
    var seen := store.items[id];
    FinishingKeepsTheAccount(store.items, store.reserved, id, seen, false, now);
    assert RowOk(store.items, store.jobs, store.claims, store.working, id);
    var _ := store.FinishUpload(id, seen, offset, staged, false, now, Commits);
    var _ := store.FinishUpload(id, seen, offset, 0, false, now, Commits);
  }

  /** One file whose worker has died this many times, each time right after its claim. */
  ghost predicate Abandoned(store: Store, deaths: nat)
    reads store
  {
    && store.items.Keys == {0} && store.jobs.Keys == {0} && store.used == {0}
    && store.items[0].size == 1 && !store.items[0].deleted
    && store.jobs[0].attempts == deaths && Ready(store.jobs[0], deaths * JobLeaseSeconds)
    && if deaths == 0 then store.items[0].status == PendingScan
       else store.items[0].status == Scanning && store.jobs[0].status == Leased
  }

  /** The failing input: a worker dies after each of eight claims, and the file is stranded for good. */
  method EightDeaths() returns (store: Store)
    ensures fresh(store) && store.Valid() && store.working == None
    ensures Stranded(store.items, store.jobs, store.working, 0) && store.Resting(0)
    ensures Counted(store.items[0]) == 1
  {
    store := new Store();
    var _ := store.ReserveUpload(0, 0, 1, 0, true, Commits);
    var _ := store.FinishUpload(0, store.items[0], 0, 0, true, 0, Commits);
    for deaths := 0 to MaxJobAttempts
      invariant fresh(store) && store.Valid() && store.working == None && Abandoned(store, deaths)
    {
      DieAfterClaim(store, deaths);
    }
  }

  method DieAfterClaim(store: Store, deaths: nat)
    requires store.Valid() && store.working == None && Abandoned(store, deaths) && deaths < MaxJobAttempts
    modifies store
    ensures store.Valid() && store.working == None && Abandoned(store, deaths + 1)
  {
    assert Claimable(store.items, store.jobs, 0, deaths * JobLeaseSeconds);
    var _, claimed := store.ClaimReady(deaths * JobLeaseSeconds, CommitsUnheard);
    assert claimed == Some(0);
  }
}
