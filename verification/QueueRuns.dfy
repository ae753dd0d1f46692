/**
 Every interleaving of the queue's transactions. Any lease ever issued may act at any time,
 even one whose worker lost its lock or was presumed dead, so what is proved about stale
 leases rests on the token alone. Each database transaction is one atomic step.
 */
module QueueRuns {
  import opened Wrappers
  import opened AiWorkQueue

  type Worker = nat

  /**
   How far the program holding a lease has come. `Doubtful` is a program whose commit of
   `passed` took effect but raised, so that it will now try to put the job back.
   */
  datatype Stage = Fresh | Working | Finished | Failing | Doubtful | Given

  datatype Issued = Issued(id: Id, stage: Stage)

  datatype ClaimRecord = ClaimRecord(id: Id, at: Instant)

  datatype ResultRecord = ResultRecord(id: Id, token: Token)

  /** Who holds the host lock; `ready` until the holder has made its one claim. */
  datatype HostLock = Free | Held(worker: Worker, ready: bool)

  datatype State = State(
    rows: Rows, jobs: Jobs, requested: set<Id>,
    issued: map<Token, Issued>, nextToken: Token, clock: Instant,
    lock: HostLock, executing: set<Worker>,
    claims: seq<ClaimRecord>, results: seq<ResultRecord>, passes: seq<Id>)

  const INITIAL := State(map[], map[], {}, map[], 0, 0, Free, {}, [], [], [])

  datatype Windows = Windows(staleAfter: nat, minimumGap: nat, retryAfter: nat)

  datatype Step =
    | Tick(to: Instant)
    | EnqueueWeekly(id: Id, kind: Kind, at: Instant, next: Option<Instant>)
    | RequestJob(id: Id)
    | CancelJob(id: Id)
    | RemoveJob(id: Id)
    | MirrorJob(id: Id, kind: Kind, at: Instant)
    | Acquire(worker: Worker)
    | Claim(worker: Worker, id: Id, now: Instant, locked: set<Id>)
    | EndExecution(worker: Worker)
    | Release(worker: Worker)
    | Die(worker: Worker)
    | Defer(id: Id, now: Instant, locked: set<Id>)
    | Heartbeat(token: Token)
    | RunWeekly(token: Token)
    | BeginJob(token: Token)
    | CommitResult(token: Token)
    | FailJob(token: Token)
    | PassJob(token: Token, acknowledged: bool)
    | ReturnJob(token: Token)
    | Complete(token: Token)
    | Retry(token: Token)

  /** The lease a step acts for, if any. */
  function Actor(step: Step): Option<Token> {
    match step
    case Heartbeat(t) => Some(t)
    case RunWeekly(t) => Some(t)
    case BeginJob(t) => Some(t)
    case CommitResult(t) => Some(t)
    case FailJob(t) => Some(t)
    case PassJob(t, _) => Some(t)
    case ReturnJob(t) => Some(t)
    case Complete(t) => Some(t)
    case Retry(t) => Some(t)
    case _ => None
  }

  predicate Holds(s: State, token: Token) {
    token in s.issued && Current(s.rows, s.issued[token].id, token)
  }

  predicate AtStage(s: State, token: Token, stage: Stage) {
    token in s.issued && s.issued[token].stage == stage
  }

  function SetStage(s: State, token: Token, stage: Stage): map<Token, Issued>
    requires token in s.issued
  {
    s.issued[token := s.issued[token].(stage := stage)]
  }

  ghost predicate Enabled(w: Windows, s: State, step: Step) {
    match step
    case Tick(to) => to >= s.clock
    case EnqueueWeekly(id, kind, _, _) => Weekly(kind) && id !in s.requested
    case RequestJob(id) => id !in s.requested && id !in s.rows
    case CancelJob(id) => id in s.jobs && s.jobs[id] != Passed
    case RemoveJob(id) => true
    case MirrorJob(id, kind, _) => !Weekly(kind) && id in s.jobs && s.jobs[id] in {Pending, Running}
    case Acquire(worker) => s.lock.Free?
    case Claim(worker, id, now, locked) =>
      && s.lock == Held(worker, true) && now <= s.clock
      && Claimable(s.rows, id, now, w.staleAfter, w.minimumGap, locked)
    case EndExecution(worker) => worker in s.executing
    case Release(worker) => s.lock.Held? && s.lock.worker == worker && worker !in s.executing
    case Die(worker) => true
    case Defer(id, now, locked) => Deferrable(s.rows, id, now, locked)
    case Heartbeat(token) => token in s.issued
    case RunWeekly(token) => AtStage(s, token, Fresh) && WeeklyLease(s, token)
    case BeginJob(token) => AtStage(s, token, Fresh) && !WeeklyLease(s, token)
    case CommitResult(token) => AtStage(s, token, Fresh) || AtStage(s, token, Working)
    case FailJob(token) => AtStage(s, token, Working)
    case PassJob(token, _) => AtStage(s, token, Working)
    case ReturnJob(token) => AtStage(s, token, Failing) || AtStage(s, token, Doubtful)
    case Complete(token) => AtStage(s, token, Finished)
    case Retry(token) => token in s.issued
  }

  predicate WeeklyLease(s: State, token: Token) {
    token in s.issued && s.issued[token].id in s.rows && Weekly(s.rows[s.issued[token].id].kind)
  }

  /** The state after an enabled step. Fenced steps change nothing unless the lease is current. */
  ghost function Apply(w: Windows, s: State, step: Step): State
    requires Enabled(w, s, step)
  {
    match step
    case Tick(to) => s.(clock := to)
    case EnqueueWeekly(id, kind, at, next) => s.(rows := EnqueueRow(s.rows, id, kind, at, next))
    case RequestJob(id) => s.(jobs := s.jobs[id := Pending], requested := s.requested + {id})
    case CancelJob(id) => s.(jobs := s.jobs[id := Cancelled])
    case RemoveJob(id) => s.(jobs := s.jobs - {id})
    case MirrorJob(id, kind, at) => s.(rows := EnqueueRow(s.rows, id, kind, at, Some(at)))
    case Acquire(worker) => s.(lock := Held(worker, true))
    case Claim(worker, id, now, _) =>
      s.(rows := ClaimRow(s.rows, id, s.nextToken, now),
         issued := s.issued[s.nextToken := Issued(id, Fresh)],
         nextToken := s.nextToken + 1,
         lock := Held(worker, false), executing := s.executing + {worker},
         claims := s.claims + [ClaimRecord(id, now)])
    case EndExecution(worker) => s.(executing := s.executing - {worker})
    case Release(worker) => s.(lock := Free)
    case Die(worker) =>
      s.(executing := s.executing - {worker},
         lock := if s.lock.Held? && s.lock.worker == worker then Free else s.lock)
    case Defer(id, now, _) =>
      s.(rows := s.rows[id := s.rows[id].(nextAttemptAt := Some(now + w.retryAfter))])
    case Heartbeat(token) => s.(rows := HeartbeatRow(s.rows, s.issued[token].id, token, s.clock))
    case RunWeekly(token) => s.(issued := SetStage(s, token, Finished))
    case BeginJob(token) =>
      var id := s.issued[token].id;
      if !MayBegin(s.rows, s.jobs, id, token) then s.(issued := SetStage(s, token, Finished))
      else s.(jobs := s.jobs[id := Running], issued := SetStage(s, token, Working))
    case CommitResult(token) =>
      if !Holds(s, token) then s
      else s.(results := s.results + [ResultRecord(s.issued[token].id, token)])
    case FailJob(token) => s.(issued := SetStage(s, token, Failing))
    case PassJob(token, acknowledged) =>
      var id := s.issued[token].id;
      if !MayFinish(s.rows, s.jobs, id, token) then s.(issued := SetStage(s, token, Failing))
      else s.(jobs := s.jobs[id := Passed], passes := s.passes + [id],
              issued := SetStage(s, token, if acknowledged then Finished else Doubtful))
    case ReturnJob(token) =>
      var id := s.issued[token].id;
      if !MayFinish(s.rows, s.jobs, id, token) then s.(issued := SetStage(s, token, Given))
      else s.(jobs := s.jobs[id := Pending], issued := SetStage(s, token, Given))
    case Complete(token) => s.(rows := CompleteRow(s.rows, s.issued[token].id, token, s.clock))
    case Retry(token) => s.(rows := RetryRow(s.rows, s.issued[token].id, token, s.clock, w.retryAfter))
  }

  /** Leases point at real rows, tokens are never reused, and each row holds its newest token. */
  ghost predicate TokenInv(s: State) {
    && (forall t :: t in s.issued ==> t < s.nextToken && s.issued[t].id in s.rows)
    && (forall id :: id in s.rows && s.rows[id].leaseToken.Some? ==>
          var t := s.rows[id].leaseToken.value;
          && t in s.issued && s.issued[t].id == id && s.rows[id].nextAttemptAt.Some?
          && forall u :: u in s.issued && s.issued[u].id == id ==> u <= t)
    && (forall id :: id in s.rows ==> (Weekly(s.rows[id].kind) <==> id !in s.requested))
    && (forall id :: id in s.jobs ==> id in s.requested)
  }

  ghost predicate CadenceInv(w: Windows, s: State) {
    && (forall id :: id in s.rows && s.rows[id].heartbeatAt.Some? ==> s.rows[id].heartbeatAt.value <= s.clock)
    && (forall i :: 0 <= i < |s.claims| ==>
          var claim := s.claims[i];
          && claim.id in s.rows && s.rows[claim.id].heartbeatAt.Some?
          && claim.at <= s.rows[claim.id].heartbeatAt.value)
    && (forall i, j :: 0 <= i < j < |s.claims| ==> s.claims[i].at + w.minimumGap <= s.claims[j].at)
  }

  ghost predicate LockInv(s: State) {
    forall worker :: worker in s.executing ==> s.lock.Held? && s.lock.worker == worker && !s.lock.ready
  }

  ghost predicate ResultInv(s: State) {
    && (forall i :: 0 <= i < |s.results| ==>
          s.results[i].token in s.issued && s.issued[s.results[i].token].id == s.results[i].id)
    && (forall i, j :: 0 <= i < j < |s.results| && s.results[i].id == s.results[j].id ==>
          s.results[i].token <= s.results[j].token)
  }

  ghost predicate WeeklyInv(s: State) {
    forall a, b :: a in s.rows && b in s.rows && Weekly(s.rows[a].kind)
                   && s.rows[a].kind == s.rows[b].kind && s.rows[a].scheduledAt == s.rows[b].scheduledAt
                   ==> a == b
  }

  /** A current lease knows where its job stands, and a tombstone covers only settled work. */
  ghost predicate JobInv(s: State) {
    && (forall id :: id in s.rows && !Weekly(s.rows[id].kind) && s.rows[id].nextAttemptAt.None? ==>
          Settled(s.jobs, id))
    && (forall t :: Holds(s, t) && !WeeklyLease(s, t) ==>
          var id := s.issued[t].id;
          match s.issued[t].stage
          case Finished => Settled(s.jobs, id)
          case Doubtful => Settled(s.jobs, id)
          case Working => id in s.jobs ==> s.jobs[id] != Passed
          case Failing => id in s.jobs ==> s.jobs[id] != Passed
          case _ => true)
  }

  ghost predicate Inv(w: Windows, s: State) {
    TokenInv(s) && CadenceInv(w, s) && LockInv(s) && ResultInv(s) && WeeklyInv(s) && JobInv(s)
  }

  /** Steps that insert a row, and steps that change a row already there. */
  predicate Inserts(step: Step) {
    step.EnqueueWeekly? || step.MirrorJob?
  }

  predicate Updates(step: Step) {
    step.Claim? || step.Defer? || step.Heartbeat? || step.Complete? || step.Retry?
  }

  lemma TokenKeptByInsert(w: Windows, s: State, step: Step)
    requires TokenInv(s) && Enabled(w, s, step) && Inserts(step)
    ensures TokenInv(Apply(w, s, step))
  {
  }

  lemma TokenKeptByClaim(w: Windows, s: State, step: Step)
    requires TokenInv(s) && Enabled(w, s, step) && step.Claim?
    ensures TokenInv(Apply(w, s, step))
  {
  }

  lemma TokenKeptByUpdate(w: Windows, s: State, step: Step)
    requires TokenInv(s) && Enabled(w, s, step) && Updates(step) && !step.Claim?
    ensures TokenInv(Apply(w, s, step))
  {
  }

  lemma TokenKept(w: Windows, s: State, step: Step)
    requires TokenInv(s) && Enabled(w, s, step)
    ensures TokenInv(Apply(w, s, step))
  {
    if Inserts(step) {
      TokenKeptByInsert(w, s, step);
    } else if step.Claim? {
      TokenKeptByClaim(w, s, step);
    } else if Updates(step) {
      TokenKeptByUpdate(w, s, step);
    } else {
      TokenKeptByRest(w, s, step);
    }
  }

  /** No other step changes rows or hands out tokens, and new job requests never name a row. */
  lemma RestKeepsLeases(w: Windows, s: State, step: Step)
    requires Enabled(w, s, step) && !Inserts(step) && !Updates(step)
    ensures var after := Apply(w, s, step);
            && after.rows == s.rows && after.nextToken == s.nextToken && after.issued.Keys == s.issued.Keys
            && forall t :: t in s.issued ==> after.issued[t].id == s.issued[t].id
  {
  }

  lemma RestKeepsRequests(w: Windows, s: State, step: Step)
    requires Enabled(w, s, step) && !Inserts(step) && !Updates(step)
    requires forall id :: id in s.jobs ==> id in s.requested
    ensures var after := Apply(w, s, step);
            && s.requested <= after.requested && (forall id :: id in s.rows && id in after.requested ==> id in s.requested)
            && forall id :: id in after.jobs ==> id in after.requested
  {
  }

  lemma TokenKeptByRest(w: Windows, s: State, step: Step)
    requires TokenInv(s) && Enabled(w, s, step) && !Inserts(step) && !Updates(step)
    ensures TokenInv(Apply(w, s, step))
  {
    RestKeepsLeases(w, s, step);
    RestKeepsRequests(w, s, step);
    SameLeases(s, Apply(w, s, step));
  }

  lemma SameLeases(s: State, after: State)
    requires TokenInv(s)
    requires after.rows == s.rows && after.nextToken == s.nextToken && after.issued.Keys == s.issued.Keys
    requires forall t :: t in s.issued ==> after.issued[t].id == s.issued[t].id
    requires s.requested <= after.requested && forall id :: id in s.rows && id in after.requested ==> id in s.requested
    requires forall id :: id in after.jobs ==> id in after.requested
    ensures TokenInv(after)
  {
  }

  lemma CadenceKeptByClaim(w: Windows, s: State, step: Step)
    requires TokenInv(s) && CadenceInv(w, s) && Enabled(w, s, step) && step.Claim?
    ensures CadenceInv(w, Apply(w, s, step))
  {
  }

  lemma CadenceKeptByUpdate(w: Windows, s: State, step: Step)
    requires CadenceInv(w, s) && Enabled(w, s, step) && Updates(step) && !step.Claim?
    ensures CadenceInv(w, Apply(w, s, step))
  {
    assert Apply(w, s, step).claims == s.claims;
  }

  lemma CadenceKept(w: Windows, s: State, step: Step)
    requires TokenInv(s) && CadenceInv(w, s) && Enabled(w, s, step)
    ensures CadenceInv(w, Apply(w, s, step))
  {
    if step.Claim? {
      CadenceKeptByClaim(w, s, step);
    } else if Updates(step) {
      CadenceKeptByUpdate(w, s, step);
    } else {
      assert Apply(w, s, step).claims == s.claims;
    }
  }

  lemma LockKept(w: Windows, s: State, step: Step)
    requires LockInv(s) && Enabled(w, s, step)
    ensures LockInv(Apply(w, s, step))
  {
  }

  lemma ResultKeptByCommit(w: Windows, s: State, step: Step)
    requires TokenInv(s) && ResultInv(s) && Enabled(w, s, step) && step.CommitResult?
    ensures ResultInv(Apply(w, s, step))
  {
  }

  lemma ResultKept(w: Windows, s: State, step: Step)
    requires TokenInv(s) && ResultInv(s) && Enabled(w, s, step)
    ensures ResultInv(Apply(w, s, step))
  {
    if step.CommitResult? {
      ResultKeptByCommit(w, s, step);
    } else {
      assert Apply(w, s, step).results == s.results;
    }
  }

  lemma WeeklyKept(w: Windows, s: State, step: Step)
    requires WeeklyInv(s) && Enabled(w, s, step)
    ensures WeeklyInv(Apply(w, s, step))
  {
    if !Inserts(step) && !Updates(step) {
      assert Apply(w, s, step).rows == s.rows;
    }
  }

  lemma JobKeptByInsert(w: Windows, s: State, step: Step)
    requires TokenInv(s) && JobInv(s) && Enabled(w, s, step) && Inserts(step)
    ensures JobInv(Apply(w, s, step))
  {
  }

  lemma JobKeptByClaim(w: Windows, s: State, step: Step)
    requires TokenInv(s) && JobInv(s) && Enabled(w, s, step) && step.Claim?
    ensures JobInv(Apply(w, s, step))
  {
  }

  lemma JobKeptByComplete(w: Windows, s: State, step: Step)
    requires TokenInv(s) && JobInv(s) && Enabled(w, s, step) && step.Complete?
    ensures JobInv(Apply(w, s, step))
  {
  }

  lemma JobKeptByUpdate(w: Windows, s: State, step: Step)
    requires TokenInv(s) && JobInv(s) && Enabled(w, s, step) && Updates(step) && !step.Claim? && !step.Complete?
    ensures JobInv(Apply(w, s, step))
  {
  }

  lemma JobKeptByJobs(w: Windows, s: State, step: Step)
    requires TokenInv(s) && JobInv(s) && Enabled(w, s, step) && !Inserts(step) && !Updates(step)
    requires !step.BeginJob? && !step.PassJob? && !step.ReturnJob?
    ensures JobInv(Apply(w, s, step))
  {
  }

  lemma JobKeptByBegin(w: Windows, s: State, step: Step)
    requires TokenInv(s) && JobInv(s) && Enabled(w, s, step) && step.BeginJob?
    ensures JobInv(Apply(w, s, step))
  {
  }

  lemma JobKeptByPass(w: Windows, s: State, step: Step)
    requires TokenInv(s) && JobInv(s) && Enabled(w, s, step) && step.PassJob?
    ensures JobInv(Apply(w, s, step))
  {
  }

  lemma JobKeptByReturn(w: Windows, s: State, step: Step)
    requires TokenInv(s) && JobInv(s) && Enabled(w, s, step) && step.ReturnJob?
    ensures JobInv(Apply(w, s, step))
  {
  }

  lemma JobKept(w: Windows, s: State, step: Step)
    requires TokenInv(s) && JobInv(s) && Enabled(w, s, step)
    ensures JobInv(Apply(w, s, step))
  {
    if Inserts(step) {
      JobKeptByInsert(w, s, step);
    } else if step.Claim? {
      JobKeptByClaim(w, s, step);
    } else if step.Complete? {
      JobKeptByComplete(w, s, step);
    } else if Updates(step) {
      JobKeptByUpdate(w, s, step);
    } else if step.BeginJob? {
      JobKeptByBegin(w, s, step);
    } else if step.PassJob? {
      JobKeptByPass(w, s, step);
    } else if step.ReturnJob? {
      JobKeptByReturn(w, s, step);
    } else {
      JobKeptByJobs(w, s, step);
    }
  }

  /** A run from the empty tables: `states[i]` takes `steps[i]` to `states[i+1]`. */
  datatype Trace = Trace(states: seq<State>, steps: seq<Step>)

  ghost predicate StepAt(w: Windows, run: Trace, k: nat)
    requires |run.states| == |run.steps| + 1 && k < |run.steps|
  {
    && Enabled(w, run.states[k], run.steps[k])
    && run.states[k+1] == Apply(w, run.states[k], run.steps[k])
  }

  ghost predicate Run(w: Windows, run: Trace) {
    && |run.states| == |run.steps| + 1
    && run.states[0] == INITIAL
    && forall k :: 0 <= k < |run.steps| ==> StepAt(w, run, k)
  }

  lemma {:induction false} RunKeepsInv(w: Windows, run: Trace, i: nat)
    requires Run(w, run) && i < |run.states|
    ensures Inv(w, run.states[i])
  {
    if i > 0 {
      RunKeepsInv(w, run, i - 1);
      assert StepAt(w, run, i - 1);
      var s, step := run.states[i-1], run.steps[i-1];
      TokenKept(w, s, step);
      CadenceKept(w, s, step);
      LockKept(w, s, step);
      ResultKept(w, s, step);
      WeeklyKept(w, s, step);
      JobKept(w, s, step);
    }
  }

  lemma RunStep(w: Windows, run: Trace, k: nat)
    requires Run(w, run) && k < |run.steps|
    ensures Inv(w, run.states[k]) && Enabled(w, run.states[k], run.steps[k])
    ensures run.states[k+1] == Apply(w, run.states[k], run.steps[k])
  {
    RunKeepsInv(w, run, k);
    assert StepAt(w, run, k);
  }

  lemma StaleStays(w: Windows, s: State, step: Step, token: Token)
    requires TokenInv(s) && Enabled(w, s, step) && token in s.issued && !Holds(s, token)
    ensures token in Apply(w, s, step).issued && !Holds(Apply(w, s, step), token)
    ensures Apply(w, s, step).issued[token].id == s.issued[token].id
  {
    if Inserts(step) || Updates(step) {
      assert token in Apply(w, s, step).issued;
    } else {
      assert Apply(w, s, step).rows == s.rows;
    }
  }

  lemma TombstoneStays(w: Windows, s: State, step: Step, id: Id)
    requires TokenInv(s) && Enabled(w, s, step) && id in s.rows && !Unfinished(s.rows, id)
    ensures id in Apply(w, s, step).rows && Apply(w, s, step).rows[id] == s.rows[id]
  {
    if !Inserts(step) && !Updates(step) {
      assert Apply(w, s, step).rows == s.rows;
    }
  }

  lemma OnlyCompletionFinishes(w: Windows, s: State, step: Step, id: Id)
    requires TokenInv(s) && Enabled(w, s, step) && Unfinished(s.rows, id)
    ensures || Unfinished(Apply(w, s, step).rows, id)
            || (step.Complete? && Holds(s, step.token) && s.issued[step.token] == Issued(id, Finished))
  {
    if !Inserts(step) && !Updates(step) {
      assert Apply(w, s, step).rows == s.rows;
    }
  }

  /** Once a lease is no longer the current one for its row, it never is again. */
  lemma {:induction false} FencedForever(w: Windows, run: Trace, i: nat, j: nat, token: Token)
    requires Run(w, run) && i <= j < |run.states|
    requires token in run.states[i].issued && !Holds(run.states[i], token)
    ensures token in run.states[j].issued && !Holds(run.states[j], token)
    ensures run.states[j].issued[token].id == run.states[i].issued[token].id
    decreases j - i
  {
    if i < j {
      FencedForever(w, run, i, j - 1, token);
      RunStep(w, run, j - 1);
      StaleStays(w, run.states[j-1], run.steps[j-1], token);
    }
  }

  /** A replaced lease may still run, but no step of it changes a row, a job or a result. */
  lemma StaleStepsChangeNothing(w: Windows, run: Trace, i: nat, j: nat, token: Token)
    requires Run(w, run) && i <= j < |run.steps|
    requires token in run.states[i].issued && !Holds(run.states[i], token)
    requires Actor(run.steps[j]) == Some(token)
    ensures run.states[j+1].rows == run.states[j].rows
    ensures run.states[j+1].jobs == run.states[j].jobs
    ensures run.states[j+1].results == run.states[j].results
    ensures run.states[j+1].passes == run.states[j].passes
  {
    FencedForever(w, run, i, j, token);
    RunStep(w, run, j);
  }

  /** A claim takes the item from whoever held it before. */
  lemma ClaimReplaces(w: Windows, s: State, step: Step, previous: Token)
    requires TokenInv(s) && Enabled(w, s, step) && step.Claim?
    requires previous in s.issued && s.issued[previous].id == step.id
    ensures !Holds(Apply(w, s, step), previous) && Holds(Apply(w, s, step), s.nextToken)
  {
  }

  /** No result of an earlier claim of an item is ever committed after one of a later claim. */
  lemma ResultsFollowClaims(w: Windows, run: Trace, k: nat, i: nat, j: nat)
    requires Run(w, run) && k < |run.states|
    requires i < j < |run.states[k].results| && run.states[k].results[i].id == run.states[k].results[j].id
    ensures run.states[k].results[i].token <= run.states[k].results[j].token
  {
    RunKeepsInv(w, run, k);
  }

  /** Claims keep the cadence whatever clocks the workers read, and only one worker executes. */
  lemma CadenceAndExclusion(w: Windows, run: Trace, k: nat)
    requires Run(w, run) && k < |run.states|
    ensures forall i, j :: 0 <= i < j < |run.states[k].claims| ==>
              run.states[k].claims[i].at + w.minimumGap <= run.states[k].claims[j].at
    ensures forall a, b :: a in run.states[k].executing && b in run.states[k].executing ==> a == b
  {
    RunKeepsInv(w, run, k);
  }

  /** Each weekly slot has at most one row. */
  lemma OneRowPerSlot(w: Windows, run: Trace, k: nat, a: Id, b: Id)
    requires Run(w, run) && k < |run.states|
    requires a in run.states[k].rows && b in run.states[k].rows
    requires run.states[k].rows[a].kind == WeeklyGeneration || run.states[k].rows[a].kind == WeeklyLearning
    requires run.states[k].rows[a].kind == run.states[k].rows[b].kind
    requires run.states[k].rows[a].scheduledAt == run.states[k].rows[b].scheduledAt
    ensures a == b
  {
    RunKeepsInv(w, run, k);
  }

  /** A tombstone stays: nothing claims, revives or reschedules a finished row. */
  lemma {:induction false} TombstonesStay(w: Windows, run: Trace, i: nat, j: nat, id: Id)
    requires Run(w, run) && i <= j < |run.states|
    requires id in run.states[i].rows && !Unfinished(run.states[i].rows, id)
    ensures id in run.states[j].rows && run.states[j].rows[id] == run.states[i].rows[id]
    decreases j - i
  {
    if i < j {
      TombstonesStay(w, run, i, j - 1, id);
      RunStep(w, run, j - 1);
      TombstoneStays(w, run.states[j-1], run.steps[j-1], id);
    }
  }

  /** Work is never lost: an item leaves the queue only when its current lease completes it. */
  lemma {:induction false} ItemsAreNotLost(w: Windows, run: Trace, i: nat, j: nat, id: Id)
    requires Run(w, run) && i <= j < |run.states|
    requires Unfinished(run.states[i].rows, id)
    ensures || Unfinished(run.states[j].rows, id)
            || exists k :: i <= k < j && run.steps[k].Complete? && Holds(run.states[k], run.steps[k].token)
                           && run.states[k].issued[run.steps[k].token] == Issued(id, Finished)
    decreases j - i
  {
    if i < j {
      ItemsAreNotLost(w, run, i, j - 1, id);
      if Unfinished(run.states[j-1].rows, id) {
        RunStep(w, run, j - 1);
        OnlyCompletionFinishes(w, run.states[j-1], run.steps[j-1], id);
      }
    }
  }

  /** A finished admin row has nothing left to do: its job passed, was cancelled, or is gone. */
  lemma TombstoneMeansSettled(w: Windows, run: Trace, k: nat, id: Id)
    requires Run(w, run) && k < |run.states|
    requires id in run.states[k].rows && run.states[k].rows[id].kind in {AdminGeneration, AdminLearning, AdminRegeneration}
    requires !Unfinished(run.states[k].rows, id)
    ensures var jobs := run.states[k].jobs; id !in jobs || jobs[id] == Passed || jobs[id] == Cancelled
  {
    RunKeepsInv(w, run, k);
  }

  // ---------- what a current lease's steps do ----------

  /** The partner of `StaleStepsChangeNothing`: while a lease is current, each of its steps does its work, and that alone. */
  lemma CurrentStepsTakeEffect(w: Windows, run: Trace, k: nat, token: Token)
    requires Run(w, run) && k < |run.steps| && Actor(run.steps[k]) == Some(token) && Holds(run.states[k], token)
    ensures var (s, after, step, id) := (run.states[k], run.states[k+1], run.steps[k], run.states[k].issued[token].id);
            && (step.Heartbeat? ==> after.rows == s.rows[id := s.rows[id].(heartbeatAt := Some(s.clock))])
            && (step.Complete? ==> after.rows == s.rows[id := s.rows[id].(nextAttemptAt := None, leaseToken := None,
                                                                          heartbeatAt := Some(s.clock))])
            && (!step.Heartbeat? && !step.Complete? && !step.Retry? ==> after.rows == s.rows)
            && after.results == (if step.CommitResult? then s.results + [ResultRecord(id, token)] else s.results)
            && (step.BeginJob? && id in s.jobs && s.jobs[id] != Passed && s.jobs[id] != Cancelled ==>
                  after.jobs == s.jobs[id := Running] && AtStage(after, token, Working))
            && (step.BeginJob? && (id !in s.jobs || s.jobs[id] == Passed || s.jobs[id] == Cancelled) ==>
                  after.jobs == s.jobs && AtStage(after, token, Finished))
            && (step.PassJob? && id in s.jobs ==>
                  after.jobs == s.jobs[id := Passed] && after.passes == s.passes + [id]
                  && AtStage(after, token, if step.acknowledged then Finished else Doubtful))
            && (step.ReturnJob? && id in s.jobs ==> after.jobs == s.jobs[id := Pending] && AtStage(after, token, Given))
            && (!step.BeginJob? && !step.PassJob? && !step.ReturnJob? ==> after.jobs == s.jobs)
  {
    RunStep(w, run, k);
  }

  function Progress(stage: Stage): nat {
    match stage
    case Fresh => 0
    case Working => 1
    case Finished => 2
    case Failing => 2
    case Doubtful => 2
    case Given => 3
  }

  lemma ActorlessKeepsStages(w: Windows, s: State, step: Step)
    requires Enabled(w, s, step) && Actor(step).None? && !step.Claim?
    ensures Apply(w, s, step).issued == s.issued
  {
  }

  lemma OtherActorKeepsStage(w: Windows, s: State, step: Step, token: Token)
    requires Enabled(w, s, step) && Actor(step).Some? && Actor(step).value != token && token in s.issued
    ensures token in Apply(w, s, step).issued && Apply(w, s, step).issued[token] == s.issued[token]
  {
  }

  lemma OnlyItsOwnStepAdvances(w: Windows, s: State, step: Step, token: Token)
    requires TokenInv(s) && Enabled(w, s, step) && token in s.issued && Actor(step) != Some(token)
    ensures token in Apply(w, s, step).issued && Apply(w, s, step).issued[token] == s.issued[token]
  {
    if step.Claim? {
      assert token != s.nextToken;
    } else if Actor(step).None? {
      ActorlessKeepsStages(w, s, step);
    } else {
      OtherActorKeepsStage(w, s, step, token);
    }
  }

  lemma RowStepsKeepStages(w: Windows, s: State, step: Step)
    requires Enabled(w, s, step) && (step.Heartbeat? || step.Complete? || step.Retry? || step.CommitResult?)
    ensures Apply(w, s, step).issued == s.issued
  {
  }

  lemma StepAdvances(w: Windows, s: State, step: Step, token: Token)
    requires TokenInv(s) && Enabled(w, s, step) && token in s.issued
    ensures token in Apply(w, s, step).issued
    ensures Progress(s.issued[token].stage) <= Progress(Apply(w, s, step).issued[token].stage)
    ensures (step.BeginJob? || step.PassJob? || step.FailJob? || step.ReturnJob? || step.RunWeekly?)
            && step.token == token ==>
              Progress(s.issued[token].stage) < Progress(Apply(w, s, step).issued[token].stage)
  {
    if Actor(step) != Some(token) {
      OnlyItsOwnStepAdvances(w, s, step, token);
    } else if step.Heartbeat? || step.Complete? || step.Retry? || step.CommitResult? {
      RowStepsKeepStages(w, s, step);
    }
  }

  /** A program goes through its stages once: no step of it is taken twice under one lease. */
  lemma {:induction false} StagesAdvance(w: Windows, run: Trace, i: nat, j: nat, token: Token)
    requires Run(w, run) && i <= j < |run.states| && token in run.states[i].issued
    ensures token in run.states[j].issued
    ensures Progress(run.states[i].issued[token].stage) <= Progress(run.states[j].issued[token].stage)
    ensures i < j && (run.steps[i].BeginJob? || run.steps[i].PassJob? || run.steps[i].FailJob? || run.steps[i].ReturnJob?)
            && run.steps[i].token == token ==>
              Progress(run.states[i].issued[token].stage) < Progress(run.states[j].issued[token].stage)
    decreases j - i
  {
    if i < j {
      StagesAdvance(w, run, i, j - 1, token);
      RunStep(w, run, j - 1);
      StepAdvances(w, run.states[j-1], run.steps[j-1], token);
    }
  }

  /** Whoever claims executes, under the lock, until it ends, releases nothing before, and may only die instead. */
  lemma {:induction false} ClaimantExecutes(w: Windows, run: Trace, i: nat, j: nat)
    requires Run(w, run) && i < j < |run.states| && run.steps[i].Claim?
    requires forall k :: i < k < j ==>
               run.steps[k] != EndExecution(run.steps[i].worker) && run.steps[k] != Die(run.steps[i].worker)
    ensures run.steps[i].worker in run.states[j].executing
    ensures run.states[j].lock == Held(run.steps[i].worker, false)
    decreases j - i
  {
    RunStep(w, run, j - 1);
    if i + 1 < j {
      ClaimantExecutes(w, run, i, j - 1);
    }
  }

  /** A whole day's work: job 7 is requested, queued, claimed and passed with one result, and the lock is free again. */
  lemma OneJobDone(w: Windows) returns (run: Trace)
    ensures Run(w, run)
    ensures var last := Last(run);
            && last.jobs == map[7 := Passed] && last.results == [ResultRecord(7, 0)] && last.passes == [7]
            && last.rows.Keys == {7} && !Unfinished(last.rows, 7) && last.rows[7].attemptCount == 1
            && last.lock.Free? && last.executing == {}
  {
    run := WorkingRun(w);
    run := Extend(w, run, CommitResult(0));
    run := Extend(w, run, PassJob(0, true));
    run := Extend(w, run, Complete(0));
    run := Extend(w, run, EndExecution(1));
    run := Extend(w, run, Release(1));
  }

  // ---------- what the instants in a row keep apart ----------

  /** What no step undoes: a row's kind and slot, its latest activity, and an attempt put off beyond an instant. */
  ghost predicate Onward(a: Rows, b: Rows, until: Instant, id: Id)
    requires id in a
  {
    && id in b && b[id].kind == a[id].kind && b[id].scheduledAt == a[id].scheduledAt
    && (a[id].heartbeatAt.Some? ==> b[id].heartbeatAt.Some? && a[id].heartbeatAt.value <= b[id].heartbeatAt.value)
    && (PutOff(a, id, until) ==> PutOff(b, id, until))
  }

  predicate PutOff(rows: Rows, id: Id, until: Instant) {
    id in rows && (rows[id].nextAttemptAt.Some? ==> rows[id].nextAttemptAt.value >= until)
  }

  lemma StepIsOnward(w: Windows, s: State, step: Step, until: Instant, id: Id)
    requires TokenInv(s) && CadenceInv(w, s) && Enabled(w, s, step) && id in s.rows
    requires until <= s.clock + w.retryAfter
    ensures Onward(s.rows, Apply(w, s, step).rows, until, id) && s.clock <= Apply(w, s, step).clock
  {
    if Inserts(step) || !Updates(step) {
      assert id in Apply(w, s, step).rows && Apply(w, s, step).rows[id] == s.rows[id];
    }
  }

  lemma {:induction false} RunIsOnward(w: Windows, run: Trace, i: nat, j: nat, until: Instant, id: Id)
    requires Run(w, run) && i <= j < |run.states| && id in run.states[i].rows
    requires until <= run.states[i].clock + w.retryAfter
    ensures Onward(run.states[i].rows, run.states[j].rows, until, id) && run.states[i].clock <= run.states[j].clock
    decreases j - i
  {
    if i < j {
      RunIsOnward(w, run, i, j - 1, until, id);
      RunStep(w, run, j - 1);
      StepIsOnward(w, run.states[j-1], run.steps[j-1], until, id);
    }
  }

  /** A failed item is due again one retry period later, and no claim takes it before. */
  lemma RetriedItemWaits(w: Windows, run: Trace, i: nat, j: nat)
    requires Run(w, run) && i < j < |run.steps| && run.steps[i].Retry? && Holds(run.states[i], run.steps[i].token)
    ensures StepAt(w, run, i) && StepAt(w, run, j)
    ensures var (id, due) := (run.states[i].issued[run.steps[i].token].id, run.states[i].clock + w.retryAfter);
            && id in run.states[i+1].rows && run.states[i+1].rows[id].nextAttemptAt == Some(due)
            && run.states[i+1].rows[id].leaseToken == None
            && (run.steps[j].Claim? && run.steps[j].id == id ==> run.steps[j].now >= due)
  {
    RunStep(w, run, i);
    RunStep(w, run, j);
    var id := run.states[i].issued[run.steps[i].token].id;
    RunIsOnward(w, run, i + 1, j, run.states[i].clock + w.retryAfter, id);
  }

  /** A head put off because the device was busy waits as long. */
  lemma DeferredItemWaits(w: Windows, run: Trace, i: nat, j: nat)
    requires Run(w, run) && i < j < |run.steps| && run.steps[i].Defer? && run.steps[i].now <= run.states[i].clock
    ensures StepAt(w, run, j)
    ensures run.steps[j].Claim? && run.steps[j].id == run.steps[i].id ==>
              run.steps[j].now >= run.steps[i].now + w.retryAfter
  {
    RunStep(w, run, i);
    RunStep(w, run, j);
    RunIsOnward(w, run, i + 1, j, run.steps[i].now + w.retryAfter, run.steps[i].id);
  }

  function ClaimsFor(claims: seq<ClaimRecord>, id: Id): nat {
    if claims == [] then 0
    else ClaimsFor(claims[..|claims| - 1], id) + if claims[|claims| - 1].id == id then 1 else 0
  }

  lemma ClaimsForOneMore(claims: seq<ClaimRecord>, record: ClaimRecord, id: Id)
    ensures ClaimsFor(claims + [record], id) == ClaimsFor(claims, id) + if record.id == id then 1 else 0
  {
    assert (claims + [record])[..|claims|] == claims;
  }

  lemma {:induction false} NeverClaimed(claims: seq<ClaimRecord>, id: Id)
    requires forall i :: 0 <= i < |claims| ==> claims[i].id != id
    ensures ClaimsFor(claims, id) == 0
  {
    if claims != [] { NeverClaimed(claims[..|claims| - 1], id); }
  }

  lemma StepCountsClaims(w: Windows, s: State, step: Step, id: Id)
    requires CadenceInv(w, s) && Enabled(w, s, step)
    requires id in s.rows ==> s.rows[id].attemptCount == ClaimsFor(s.claims, id)
    ensures var after := Apply(w, s, step);
            id in after.rows ==> after.rows[id].attemptCount == ClaimsFor(after.claims, id)
  {
    if step.Claim? {
      ClaimsForOneMore(s.claims, ClaimRecord(step.id, step.now), id);
    } else {
      assert Apply(w, s, step).claims == s.claims;
      if id !in s.rows { NeverClaimed(s.claims, id); }
    }
  }

  /** An item's attempts are the claims made of it. */
  lemma {:induction false} AttemptsAreClaims(w: Windows, run: Trace, k: nat, id: Id)
    requires Run(w, run) && k < |run.states| && id in run.states[k].rows
    ensures run.states[k].rows[id].attemptCount == ClaimsFor(run.states[k].claims, id)
  {
    if k > 0 {
      RunStep(w, run, k - 1);
      if id in run.states[k-1].rows { AttemptsAreClaims(w, run, k - 1, id); }
      StepCountsClaims(w, run.states[k-1], run.steps[k-1], id);
    }
  }

  /** After any sign of life of any item, nothing is claimed for the minimum gap. */
  lemma ActivityHoldsOffClaims(w: Windows, run: Trace, i: nat, j: nat, token: Token)
    requires Run(w, run) && i < j < |run.steps| && run.steps[j].Claim?
    requires run.steps[i] in {Heartbeat(token), Complete(token), Retry(token)} && Holds(run.states[i], token)
    ensures run.steps[j].now >= run.states[i].clock + w.minimumGap
  {
    RunStep(w, run, i);
    RunStep(w, run, j);
    RunIsOnward(w, run, i + 1, j, run.states[i].clock, run.states[i].issued[token].id);
  }

  /** A lease that showed life is not taken over while its heartbeat is fresh. */
  lemma BeatingLeaseIsKept(w: Windows, run: Trace, i: nat, j: nat, token: Token)
    requires Run(w, run) && i < j < |run.steps| && run.steps[i] == Heartbeat(token)
    requires Holds(run.states[i], token) && Holds(run.states[j], token)
    requires run.steps[j].Claim? && run.steps[j].id == run.states[i].issued[token].id
    ensures run.steps[j].now >= run.states[i].clock + w.staleAfter
  {
    RunStep(w, run, i);
    RunStep(w, run, j);
    RunIsOnward(w, run, i + 1, j, run.states[i].clock, run.steps[j].id);
    TokenNamesOneItem(w, run, i, j, token);
  }

  lemma {:induction false} TokenNamesOneItem(w: Windows, run: Trace, i: nat, j: nat, token: Token)
    requires Run(w, run) && i <= j < |run.states| && token in run.states[i].issued
    ensures token in run.states[j].issued && run.states[j].issued[token].id == run.states[i].issued[token].id
    decreases j - i
  {
    if i < j {
      TokenNamesOneItem(w, run, i, j - 1, token);
      RunStep(w, run, j - 1);
      if !Inserts(run.steps[j-1]) && !Updates(run.steps[j-1]) {
        RestKeepsLeases(w, run.states[j-1], run.steps[j-1]);
      }
    }
  }

  /** Queueing a due slot leaves exactly one row for it, which waits for its own instant unless it was there before. */
  lemma DueSlotIsQueued(w: Windows, run: Trace, k: nat)
    requires Run(w, run) && k < |run.steps| && run.steps[k].EnqueueWeekly? && run.steps[k].id !in run.states[k].rows
    ensures StepAt(w, run, k)
    ensures var (rows, step) := (run.states[k+1].rows, run.steps[k]);
            && (exists id :: id in rows && rows[id].kind == step.kind && rows[id].scheduledAt == step.at)
            && if exists id :: id in run.states[k].rows && run.states[k].rows[id].kind == step.kind
                               && run.states[k].rows[id].scheduledAt == step.at
               then rows == run.states[k].rows
               else rows == run.states[k].rows[step.id := Row(step.kind, step.at, step.next, 0, None, None)]
  {
    RunStep(w, run, k);
    var (rows, step) := (run.states[k+1].rows, run.steps[k]);
    if !SlotTaken(run.states[k].rows, step.kind, step.at) {
      assert step.id in rows && rows[step.id].kind == step.kind && rows[step.id].scheduledAt == step.at;
    }
  }

  ghost predicate LeavesPassed(w: Windows, s: State, step: Step, id: Id)
    requires Enabled(w, s, step)
  {
    && id in s.jobs && s.jobs[id] == Passed
    && id in Apply(w, s, step).jobs && Apply(w, s, step).jobs[id] != Passed
  }

  /**
   Exactly when a passed job is reopened: its own current lease committed `passed`, never
   learned of it, and now puts the job back.
   */
  lemma PassedIsLeftExactlyWhenDoubtful(w: Windows, run: Trace, k: nat, id: Id)
    requires Run(w, run) && k < |run.steps|
    requires id in run.states[k].jobs && run.states[k].jobs[id] == Passed
    ensures StepAt(w, run, k)
    ensures LeavesPassed(w, run.states[k], run.steps[k], id) <==>
              && run.steps[k].ReturnJob? && Holds(run.states[k], run.steps[k].token)
              && run.states[k].issued[run.steps[k].token] == Issued(id, Doubtful)
  {
    RunStep(w, run, k);
  }

  function Last(run: Trace): State
    requires run.states != []
  {
    run.states[|run.states| - 1]
  }

  lemma Extend(w: Windows, run: Trace, step: Step) returns (longer: Trace)
    requires Run(w, run) && Enabled(w, Last(run), step)
    ensures Run(w, longer) && longer.steps == run.steps + [step]
    ensures longer.states == run.states + [Apply(w, Last(run), step)]
  {
    longer := Trace(run.states + [Apply(w, Last(run), step)], run.steps + [step]);
    forall k | 0 <= k < |longer.steps|
      ensures StepAt(w, longer, k)
    {
      if k < |run.steps| {
        assert StepAt(w, run, k);
      }
    }
  }

  /** A run in which job 7 is queued and a worker holds the lock. */
  lemma QueuedRun(w: Windows) returns (run: Trace)
    ensures Run(w, run)
    ensures Last(run) == INITIAL.(rows := map[7 := Row(AdminLearning, 0, Some(0), 0, None, None)],
                                  jobs := map[7 := Pending], requested := {7}, lock := Held(1, true))
  {
    run := Trace([INITIAL], []);
    run := Extend(w, run, RequestJob(7));
    run := Extend(w, run, MirrorJob(7, AdminLearning, 0));
    run := Extend(w, run, Acquire(1));
  }

  /** A run in which job 7 is being worked on under token 0. */
  lemma WorkingRun(w: Windows) returns (run: Trace)
    ensures Run(w, run) && AtStage(Last(run), 0, Working) && Last(run).issued[0].id == 7
    ensures Holds(Last(run), 0) && Last(run).jobs == map[7 := Running] && Last(run).results == [] && Last(run).passes == []
    ensures Last(run).rows.Keys == {7} && Last(run).rows[7].attemptCount == 1
    ensures Last(run).lock == Held(1, false) && Last(run).executing == {1}
  {
    run := QueuedRun(w);
    assert IsHead(Last(run).rows, 7, {});
    run := Extend(w, run, Claim(1, 7, 0, {}));
    run := Extend(w, run, BeginJob(0));
  }

  /** The condition is met in some run: one commit of `passed` that raises after it took effect. */
  lemma AnUnseenCommitReopensTheJob(w: Windows) returns (run: Trace, k: nat)
    ensures Run(w, run) && k < |run.steps| && StepAt(w, run, k)
    ensures LeavesPassed(w, run.states[k], run.steps[k], 7)
  {
    run := WorkingRun(w);
    run := Extend(w, run, PassJob(0, false));
    k := |run.steps|;
    run := Extend(w, run, ReturnJob(0));
    assert StepAt(w, run, k);
  }

  ghost predicate AllAcknowledged(run: Trace) {
    forall i :: 0 <= i < |run.steps| && run.steps[i].PassJob? ==> run.steps[i].acknowledged
  }

  /** With every commit acknowledged a job passes at most once and stays passed until removed. */
  ghost predicate PassedOnce(s: State) {
    && (forall t :: t in s.issued ==> s.issued[t].stage != Doubtful)
    && (forall i :: 0 <= i < |s.passes| ==> s.passes[i] in s.requested)
    && (forall i :: 0 <= i < |s.passes| && s.passes[i] in s.jobs ==> s.jobs[s.passes[i]] == Passed)
    && (forall i, j :: 0 <= i < j < |s.passes| ==> s.passes[i] != s.passes[j])
  }

  lemma PassedOnceKeptByPass(w: Windows, s: State, step: Step)
    requires TokenInv(s) && JobInv(s) && PassedOnce(s) && Enabled(w, s, step)
    requires step.PassJob? && step.acknowledged
    ensures PassedOnce(Apply(w, s, step))
  {
  }

  lemma PassedOnceKept(w: Windows, s: State, step: Step)
    requires TokenInv(s) && JobInv(s) && PassedOnce(s) && Enabled(w, s, step)
    requires step.PassJob? ==> step.acknowledged
    ensures PassedOnce(Apply(w, s, step))
  {
    if step.PassJob? {
      PassedOnceKeptByPass(w, s, step);
    } else {
      assert Apply(w, s, step).passes == s.passes;
    }
  }

  lemma {:induction false} JobsPassAtMostOnce(w: Windows, run: Trace, k: nat)
    requires Run(w, run) && AllAcknowledged(run) && k < |run.states|
    ensures PassedOnce(run.states[k])
  {
    if k > 0 {
      JobsPassAtMostOnce(w, run, k - 1);
      RunStep(w, run, k - 1);
      PassedOnceKept(w, run.states[k-1], run.steps[k-1]);
    }
  }

  // ---------- from every reachable state the queue can be worked off ----------

  ghost function OpenItems(rows: Rows): set<Id> {
    set id | id in rows && Unfinished(rows, id)
  }

  lemma {:induction false} FirstOf(rows: Rows, ids: set<Id>) returns (head: Id)
    requires ids != {} && forall id :: id in ids ==> Unfinished(rows, id)
    ensures head in ids
    ensures Unfinished(rows, head)
    ensures forall other :: other in ids && Unfinished(rows, other) && other != head ==>
              Before(rows[head], head, rows[other], other)
  {
    head :| head in ids;
    var others := ids - {head};
    if others != {} {
      var next := FirstOf(rows, others);
      head := if Before(rows[head], head, rows[next], next) then head else next;
    }
  }

  /** Steps no client takes: time passes, workers die, and one takes the lock, claims and finishes. */
  predicate WorkStep(step: Step) {
    || step.Tick? || step.Die? || step.Acquire? || step.Claim?
    || step.RunWeekly? || step.BeginJob? || (step.PassJob? && step.acknowledged) || step.Complete?
  }

  /** The longer run goes on from the shorter one by such steps alone. */
  ghost predicate WorksOn(w: Windows, run: Trace, longer: Trace) {
    && Run(w, run) && Run(w, longer)
    && run.steps <= longer.steps && run.states <= longer.states
    && forall k :: |run.steps| <= k < |longer.steps| ==> WorkStep(longer.steps[k])
  }

  lemma WorkOn(w: Windows, start: Trace, run: Trace, step: Step) returns (longer: Trace)
    requires WorksOn(w, start, run) && Enabled(w, Last(run), step) && WorkStep(step)
    ensures WorksOn(w, start, longer) && longer.steps == run.steps + [step]
    ensures Last(longer) == Apply(w, Last(run), step)
  {
    longer := Extend(w, run, step);
  }

  /** Holders of the lock die and time passes until every heartbeat is old and the head is due. */
  lemma BecomesClaimable(w: Windows, run: Trace, head: Id) returns (longer: Trace, now: Instant)
    requires Run(w, run) && IsHead(Last(run).rows, head, {})
    ensures WorksOn(w, run, longer)
    ensures Last(longer).lock.Free? && Last(longer).clock == now
    ensures Last(longer).rows == Last(run).rows && Last(longer).jobs == Last(run).jobs
    ensures Last(longer).nextToken == Last(run).nextToken
    ensures Claimable(Last(longer).rows, head, now, w.staleAfter, w.minimumGap, {})
  {
    RunKeepsInv(w, run, |run.states| - 1);
    longer := run;
    var (s, due) := (Last(run), Last(run).rows[head].nextAttemptAt.value);
    if s.lock.Held? { longer := WorkOn(w, run, longer, Die(s.lock.worker)); }
    now := s.clock + w.staleAfter + w.minimumGap;
    if now < due { now := due; }
    longer := WorkOn(w, run, longer, Tick(now));
    DueHeadIsClaimable(s.rows, head, now, w.staleAfter, w.minimumGap, {});
  }

  /** Every run that leaves an unfinished row goes on to one in which the first such row is claimed. */
  lemma HeadCanBeClaimed(w: Windows, run: Trace) returns (longer: Trace, head: Id, now: Instant)
    requires Run(w, run) && OpenItems(Last(run).rows) != {}
    ensures WorksOn(w, run, longer) && IsHead(Last(run).rows, head, {})
    ensures longer.steps != [] && longer.steps[|longer.steps| - 1] == Claim(0, head, now, {})
    ensures Last(longer).rows == ClaimRow(Last(run).rows, head, Last(run).nextToken, now)
    ensures Last(longer).jobs == Last(run).jobs
    ensures AtStage(Last(longer), Last(run).nextToken, Fresh) && Last(longer).issued[Last(run).nextToken].id == head
  {
    head := FirstOf(Last(run).rows, OpenItems(Last(run).rows));
    longer, now := BecomesClaimable(w, run, head);
    longer := WorkOn(w, run, longer, Acquire(0));
    longer := WorkOn(w, run, longer, Claim(0, head, now, {}));
  }

  /** A fresh current lease can bring its item to the end. */
  lemma LeaseCanFinish(w: Windows, start: Trace, run: Trace, token: Token) returns (longer: Trace)
    requires WorksOn(w, start, run) && Holds(Last(run), token) && AtStage(Last(run), token, Fresh)
    ensures WorksOn(w, start, longer) && Holds(Last(longer), token) && AtStage(Last(longer), token, Finished)
    ensures Last(longer).rows == Last(run).rows && Last(longer).issued[token].id == Last(run).issued[token].id
  {
    longer := run;
    if WeeklyLease(Last(run), token) {
      longer := WorkOn(w, start, longer, RunWeekly(token));
    } else {
      longer := WorkOn(w, start, longer, BeginJob(token));
      if AtStage(Last(longer), token, Working) {
        longer := WorkOn(w, start, longer, PassJob(token, true));
      }
    }
  }

  /** Every run goes on to one in which the whole queue is finished, and no admin job in it is left undone. */
  lemma {:induction false} QueueCanBeWorkedOff(w: Windows, run: Trace) returns (longer: Trace)
    requires Run(w, run)
    ensures WorksOn(w, run, longer)
    ensures OpenItems(Last(longer).rows) == {}
    ensures var (rows, jobs) := (Last(longer).rows, Last(longer).jobs);
            forall id :: id in rows && rows[id].kind in {AdminGeneration, AdminLearning, AdminRegeneration} ==>
                           id !in jobs || jobs[id] == Passed || jobs[id] == Cancelled
    decreases OpenItems(Last(run).rows)
  {
    longer := run;
    if OpenItems(Last(run).rows) == {} {
      var rows := Last(run).rows;
      forall id | id in rows && rows[id].kind in {AdminGeneration, AdminLearning, AdminRegeneration}
        ensures id !in Last(run).jobs || Last(run).jobs[id] == Passed || Last(run).jobs[id] == Cancelled
      {
        assert id !in OpenItems(rows);
        TombstoneMeansSettled(w, run, |run.states| - 1, id);
      }
    }
    if OpenItems(Last(run).rows) != {} {
      var claimed, head, now := HeadCanBeClaimed(w, run);
      var finished := LeaseCanFinish(w, run, claimed, Last(run).nextToken);
      var completed := WorkOn(w, run, finished, Complete(Last(run).nextToken));
      assert OpenItems(Last(completed).rows) == OpenItems(Last(run).rows) - {head};
      longer := QueueCanBeWorkedOff(w, completed);
    }
  }
}
