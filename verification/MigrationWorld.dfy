/**
 The hosts a direct migration touches, as one value: the durable journal, the
 three copies of the data, and the writer services running beside each copy.

 A run is a sequence of moments, one after every atomic effect, so a fact about
 all runs covers a failure or a death between any two effects.
 */
module MigrationWorld {
  import opened Wrappers
  import opened MigrationInventory

  type Token = nat

  /** The content of the durable state file on Unraid. */
  datatype Journal =
    | Absent
    | Preparing(token: Token)
    | Committed(token: Token)
    | ForwardCleaned(token: Token)
    | RollbackPreparing(guard: Token, forward: Token)
    | RollbackCommitted(guard: Token, forward: Token)

  datatype Site = LocalProduction | Unraid | LocalRollback

  datatype Service = Gateway | Api | Worker | MediaWorker | ContextFetcher

  const WRITERS: set<Service> := {Gateway, Api, Worker, MediaWorker, ContextFetcher}

  lemma EveryServiceIsAWriter(services: set<Service>)
    ensures services <= WRITERS
  {
    forall service | service in services
      ensures service in WRITERS
    {
      assert service.Gateway? || service.Api? || service.Worker? || service.MediaWorker? || service.ContextFetcher?;
    }
  }

  /** A destination: a database, two live roots, and two staging siblings. */
  datatype Copy = Copy(
    db: Option<Database>,
    attachments: Option<Tree>, releases: Option<Tree>,
    attachmentStage: Option<Tree>, releaseStage: Option<Tree>)

  const EMPTY_COPY := Copy(None, None, None, None, None)

  /**
   `served` records that the whole writer set has run on Unraid since the commit.
   `oldProjectUp` covers the containers of the local production project that are not writers.
   `read` is what the run under way last read of the authority's data.
   */
  datatype World = World(
    journal: Journal,
    production: Inventory, unraid: Copy, rollback: Copy,
    productionWriters: set<Service>, unraidWriters: set<Service>, rollbackWriters: set<Service>,
    oldProjectUp: bool, rollbackProject: bool, served: bool, read: Option<Inventory>, nextToken: Token)

  /** The one site whose data is current and whose writers may run. */
  function Authority(journal: Journal): Site {
    match journal
    case Absent => LocalProduction
    case Preparing(_) => LocalProduction
    case ForwardCleaned(_) => LocalProduction
    case Committed(_) => Unraid
    case RollbackPreparing(_, _) => Unraid
    case RollbackCommitted(_, _) => LocalRollback
  }

  function Writers(world: World, site: Site): set<Service> {
    match site
    case LocalProduction => world.productionWriters
    case Unraid => world.unraidWriters
    case LocalRollback => world.rollbackWriters
  }

  function WithWriters(world: World, site: Site, services: set<Service>): World {
    match site
    case LocalProduction => world.(productionWriters := services)
    case Unraid => world.(unraidWriters := services, served := world.served || services == WRITERS)
    case LocalRollback => world.(rollbackWriters := services)
  }

  /** A copy serves only when its database and both live roots are complete. */
  function Live(copy: Copy): Option<Inventory> {
    if copy.db.Some? && copy.attachments.Some? && copy.releases.Some?
    then Some(Inventory(copy.db.value, copy.attachments.value, copy.releases.value))
    else None
  }

  /** What a destination will serve once its staged trees are promoted. */
  function Staged(copy: Copy): Option<Inventory> {
    if copy.db.Some? && copy.attachmentStage.Some? && copy.releaseStage.Some?
    then Some(Inventory(copy.db.value, copy.attachmentStage.value, copy.releaseStage.value))
    else None
  }

  function Content(world: World, site: Site): Option<Inventory> {
    match site
    case LocalProduction => Some(world.production)
    case Unraid => Live(world.unraid)
    case LocalRollback => Live(world.rollback)
  }

  function WithContent(world: World, site: Site, data: Inventory): World {
    match site
    case LocalProduction => world.(production := data)
    case Unraid => world.(unraid := world.unraid.(db := Some(data.database),
                                                  attachments := Some(data.attachments),
                                                  releases := Some(data.releases)))
    case LocalRollback => world.(rollback := world.rollback.(db := Some(data.database),
                                                             attachments := Some(data.attachments),
                                                             releases := Some(data.releases)))
  }

  predicate Frozen(world: World) {
    world.productionWriters == world.unraidWriters == world.rollbackWriters == {}
  }

  /** A run is under way, and may stop writers. */
  predicate InRun(journal: Journal) {
    journal.Preparing? || journal.RollbackPreparing?
  }

  /** What a run has read is still what its source holds. */
  predicate ReadingStands(world: World) {
    InRun(world.journal) && world.read.Some? ==> world.read == Content(world, Authority(world.journal))
  }

  predicate KnownTokens(journal: Journal, next: Token) {
    match journal
    case Absent => true
    case Preparing(t) => t < next
    case Committed(t) => t < next
    case ForwardCleaned(t) => t < next
    case RollbackPreparing(g, f) => g < next && f < next
    case RollbackCommitted(g, f) => g < next && f < next
  }

  /**
   What holds at every moment of every run. Writers run at the authority or nowhere;
   the authority's data is complete; and whenever the authority's writers are not all
   running, the journal names a phase from which a recovery command proceeds.
   */
  ghost predicate Inv(world: World) {
    && (world.productionWriters != {} ==> Authority(world.journal) == LocalProduction)
    && (world.unraidWriters != {} ==> Authority(world.journal) == Unraid)
    && (world.rollbackWriters != {} ==> Authority(world.journal) == LocalRollback)
    && Content(world, Authority(world.journal)).Some?
    && (world.journal.Absent? ==> world.productionWriters == WRITERS)
    && (world.journal.Committed? ==> (world.served <==> world.unraidWriters == WRITERS))
    && (world.journal.RollbackPreparing? ==> world.served)
    && (Authority(world.journal) == LocalProduction ==> !world.served)
    && (world.journal.ForwardCleaned? ==> world.unraid == EMPTY_COPY)
    && (world.journal.RollbackPreparing? || world.journal.RollbackCommitted? ==> !world.oldProjectUp)
    && KnownTokens(world.journal, world.nextToken)
  }

  datatype Actor = Tool | Client | Operator

  datatype Moment = Moment(actor: Actor, world: World)

  /** The journal edges the remote scripts implement. */
  ghost predicate JournalEdge(a: Journal, b: Journal) {
    || b == a
    || (a.Absent? && b.Preparing?)
    || (a.Preparing? && (b == Committed(a.token) || b == ForwardCleaned(a.token)))
    || (a.ForwardCleaned? && b.Absent?)
    || (a.Committed? && b.RollbackPreparing? && b.forward == a.token)
    || (a.RollbackPreparing? && (b == Committed(a.forward) || b == RollbackCommitted(a.guard, a.forward)))
  }

  /**
   What must be true when a script writes each edge: a run's token was issued and it has read nothing
   yet; a target is called cleaned only when nothing is left of it, and forgotten only beside a complete
   source; a rollback starts from, and returns to, a full Unraid, and leaves no local copy behind.
   */
  ghost predicate EdgeGuard(a: World, b: World) {
    && (a.journal.Absent? && b.journal.Preparing? ==> b.journal.token < a.nextToken)
    && (!InRun(a.journal) && InRun(b.journal) ==> b.read.None?)
    && (a.journal.Preparing? && b.journal.ForwardCleaned? ==> b.unraid == EMPTY_COPY)
    && (a.journal.ForwardCleaned? ==> b.unraid == a.unraid)
    && (a.journal.ForwardCleaned? && b.journal.Absent? ==> b.productionWriters == WRITERS)
    && (a.journal.Committed? && b.journal.RollbackPreparing? ==>
          b.journal.guard < a.nextToken && a.unraidWriters == WRITERS && !a.oldProjectUp)
    && (a.journal.RollbackPreparing? && b.journal.Committed? ==>
          b.unraidWriters == WRITERS && b.rollback == EMPTY_COPY && !b.rollbackProject)
  }

  /** Starting writers is allowed only at the authority; stopping them only under a journal. */
  ghost predicate WritersStep(a: World, b: World, site: Site) {
    && (Writers(b, site) <= Writers(a, site) || (site == Authority(a.journal) && b.journal == a.journal))
    && (Writers(a, site) <= Writers(b, site) || InRun(a.journal))
  }

  function RunDirection(journal: Journal): Direction {
    if journal.Preparing? then Forward else Rollback
  }

  /**
   Authority moves only between frozen sites, only to an accepted image of what was read, and leaves
   what the old authority holds where it is.
   */
  ghost predicate Handover(a: World, b: World) {
    && Frozen(a) && Frozen(b)
    && a.production == b.production
    && Content(b, Authority(a.journal)) == Content(a, Authority(a.journal))
    && var after := Content(b, Authority(b.journal));
       && a.read.Some? && after.Some?
       && Image(RunDirection(a.journal), a.read.value, after.value)
  }

  ghost predicate ToolStep(a: World, b: World) {
    && JournalEdge(a.journal, b.journal) && EdgeGuard(a, b)
    && WritersStep(a, b, LocalProduction) && WritersStep(a, b, Unraid) && WritersStep(a, b, LocalRollback)
    && b.production == a.production && b.oldProjectUp == a.oldProjectUp
    && b.served == (a.served || b.unraidWriters == WRITERS) && b.nextToken >= a.nextToken
    && (b.read.None? || b.read == a.read || b.read == Content(a, Authority(a.journal)))
    && (if Authority(a.journal) == Authority(b.journal)
        then Content(b, Authority(a.journal)) == Content(a, Authority(a.journal))
        else Handover(a, b))
  }

  /**
   A client changes only the authority's data: through a running writer, or through a
   stray database session that a freeze did not stop.
   */
  ghost predicate ClientStep(a: World, b: World) {
    exists data :: b == WithContent(a, Authority(a.journal), data)
  }

  /** The operator opens a committed copy to users, or stops the rest of the superseded project. */
  ghost predicate OperatorStep(a: World, b: World) {
    || ((a.journal.Committed? || a.journal.RollbackCommitted?)
        && b == WithWriters(a, Authority(a.journal), WRITERS))
    || (Authority(a.journal) != LocalProduction && b == a.(oldProjectUp := false))
  }

  ghost predicate Step(actor: Actor, a: World, b: World) {
    match actor
    case Tool => ToolStep(a, b)
    case Client => ClientStep(a, b)
    case Operator => OperatorStep(a, b)
  }

  /** A history that starts in order and only takes steps. */
  ghost predicate Run(trace: seq<Moment>) {
    && trace != []
    && Inv(trace[0].world)
    && (forall i :: 0 < i < |trace| ==> Step(trace[i].actor, trace[i-1].world, trace[i].world))
  }

  lemma WritersStayHome(a: World, b: World)
    requires Inv(a) && ToolStep(a, b)
    ensures b.productionWriters != {} ==> Authority(b.journal) == LocalProduction
    ensures b.unraidWriters != {} ==> Authority(b.journal) == Unraid
    ensures b.rollbackWriters != {} ==> Authority(b.journal) == LocalRollback
  {
    if Authority(a.journal) == Authority(b.journal) {
      assert Writers(a, LocalProduction) == a.productionWriters && Writers(b, LocalProduction) == b.productionWriters;
      assert Writers(a, Unraid) == a.unraidWriters && Writers(b, Unraid) == b.unraidWriters;
      assert Writers(a, LocalRollback) == a.rollbackWriters && Writers(b, LocalRollback) == b.rollbackWriters;
    }
  }

  lemma ToolStepKeepsInv(a: World, b: World)
    requires Inv(a) && ToolStep(a, b)
    ensures Inv(b)
  {
    WritersStayHome(a, b);
    EveryServiceIsAWriter(b.productionWriters);
    EveryServiceIsAWriter(b.unraidWriters);
    assert Writers(a, LocalProduction) == a.productionWriters && Writers(b, LocalProduction) == b.productionWriters;
    assert Writers(a, Unraid) == a.unraidWriters && Writers(b, Unraid) == b.unraidWriters;
    assert Gateway in WRITERS;
  }

  lemma StepKeepsInv(actor: Actor, a: World, b: World)
    requires Inv(a) && Step(actor, a, b)
    ensures Inv(b)
  {
    match actor
    case Tool => ToolStepKeepsInv(a, b);
    case Client =>
    case Operator =>
  }

  lemma {:induction false} RunKeepsInv(trace: seq<Moment>, i: nat)
    requires Run(trace) && i < |trace|
    ensures Inv(trace[i].world)
  {
    if i > 0 {
      RunKeepsInv(trace, i - 1);
      StepKeepsInv(trace[i].actor, trace[i-1].world, trace[i].world);
    }
  }

  function Custody(moment: Moment): Option<Inventory> {
    Content(moment.world, Authority(moment.world.journal))
  }

  /** At no moment of any run do writers run at two sites, or away from the authority. */
  lemma NoSplitBrain(trace: seq<Moment>, i: nat, one: Site, two: Site)
    requires Run(trace) && i < |trace|
    requires Writers(trace[i].world, one) != {} && Writers(trace[i].world, two) != {}
    ensures one == two == Authority(trace[i].world.journal)
  {
    RunKeepsInv(trace, i);
  }

  lemma ToolKeepsCustody(a: World, b: World)
    requires Inv(a) && ToolStep(a, b) && ReadingStands(a)
    ensures ReadingStands(b)
    ensures var before, after := Content(a, Authority(a.journal)), Content(b, Authority(b.journal));
            && before.Some? && after.Some?
            && if Authority(a.journal) == Authority(b.journal) then after == before
               else Image(RunDirection(a.journal), before.value, after.value)
  {
  }

  lemma OperatorKeepsCustody(a: World, b: World)
    requires Inv(a) && OperatorStep(a, b) && ReadingStands(a)
    ensures b.journal == a.journal && ReadingStands(b)
    ensures Content(b, Authority(b.journal)) == Content(a, Authority(a.journal))
  {
  }

  lemma StepKeepsCustody(trace: seq<Moment>, j: nat)
    requires Run(trace) && 0 < j < |trace| && !trace[j].actor.Client? && ReadingStands(trace[j-1].world)
    ensures Custody(trace[j-1]).Some? && Custody(trace[j]).Some? && ReadingStands(trace[j].world)
    ensures var (a, b) := (trace[j-1].world, trace[j].world);
            if Authority(a.journal) == Authority(b.journal) then Custody(trace[j]) == Custody(trace[j-1])
            else JournalEdge(a.journal, b.journal)
                 && Image(RunDirection(a.journal), Custody(trace[j-1]).value, Custody(trace[j]).value)
  {
    RunKeepsInv(trace, j - 1);
    assert Step(trace[j].actor, trace[j-1].world, trace[j].world);
    if trace[j].actor.Tool? {
      ToolKeepsCustody(trace[j-1].world, trace[j].world);
    } else {
      OperatorKeepsCustody(trace[j-1].world, trace[j].world);
    }
  }

  /**
   Conservation. From any moment at which no run is under way, or what it has read still stands: with
   no client write, whatever fails or dies and however often it is retried, the authority's data at the
   end is the data at the start, up to the one reviewed schema transition.
   */
  lemma {:induction false} CustodyKept(trace: seq<Moment>, i: nat, j: nat)
    requires Run(trace) && i <= j < |trace| && ReadingStands(trace[i].world)
    requires forall k :: i < k <= j ==> !trace[k].actor.Client?
    ensures Custody(trace[i]).Some? && Custody(trace[j]).Some? && ReadingStands(trace[j].world)
    ensures Descends(Custody(trace[i]).value, Custody(trace[j]).value)
    decreases j - i
  {
    if i < j {
      CustodyKept(trace, i, j - 1);
      StepKeepsCustody(trace, j);
      DescendsTransitive(Custody(trace[i]).value, Custody(trace[j-1]).value, Custody(trace[j]).value);
    } else {
      RunKeepsInv(trace, i);
    }
  }

  /** At a handover the new authority serves an image of what was read, and the old one keeps what it holds. */
  lemma HandoverServesTheReading(trace: seq<Moment>, j: nat)
    requires Run(trace) && 0 < j < |trace|
    requires Authority(trace[j-1].world.journal) != Authority(trace[j].world.journal)
    ensures var a, b := trace[j-1].world, trace[j].world;
            && Custody(trace[j-1]).Some? && Custody(trace[j]).Some? && a.read.Some?
            && Content(b, Authority(a.journal)) == Custody(trace[j-1])
            && Image(RunDirection(a.journal), a.read.value, Custody(trace[j]).value)
            && (Image(RunDirection(a.journal), Custody(trace[j-1]).value, Custody(trace[j]).value)
                <==> a.read == Custody(trace[j-1]))
  {
    RunKeepsInv(trace, j - 1);
    assert Step(trace[j].actor, trace[j-1].world, trace[j].world);
    var a := trace[j-1].world;
    ImageDeterminesSource(RunDirection(a.journal), a.read.value, Custody(trace[j-1]).value, Custody(trace[j]).value);
  }

  /** If the data is not what was read, a client wrote it after the reading. */
  lemma {:induction false} OvertakenByAWrite(trace: seq<Moment>, i: nat, j: nat)
    requires Run(trace) && i <= j < |trace|
    requires ReadingStands(trace[i].world) && !ReadingStands(trace[j].world)
    ensures exists k :: i < k <= j && trace[k].actor.Client? && ReadingStands(trace[k-1].world)
                        && Custody(trace[k]) != Custody(trace[k-1])
    decreases j - i
  {
    if ReadingStands(trace[j-1].world) {
      if !trace[j].actor.Client? { StepKeepsCustody(trace, j); }
      assert Step(trace[j].actor, trace[j-1].world, trace[j].world);
    } else {
      OvertakenByAWrite(trace, i, j - 1);
    }
  }

  /** Between writers at one site and writers at another lies a moment when none run anywhere. */
  lemma {:induction false} HandoverIsFrozen(trace: seq<Moment>, i: nat, j: nat)
    requires Run(trace) && i <= j < |trace|
    requires Authority(trace[i].world.journal) != Authority(trace[j].world.journal)
    ensures exists k :: i < k <= j && Frozen(trace[k-1].world) && Frozen(trace[k].world)
                        && Authority(trace[k-1].world.journal) != Authority(trace[k].world.journal)
    decreases j - i
  {
    assert Step(trace[j].actor, trace[j-1].world, trace[j].world);
    if Authority(trace[j-1].world.journal) == Authority(trace[j].world.journal) {
      HandoverIsFrozen(trace, i, j - 1);
    } else {
      assert trace[j].actor.Tool?;
      assert Frozen(trace[j-1].world) && Frozen(trace[j].world);
    }
  }

  /** Once a forward migration committed, the superseded project never runs or changes again. */
  lemma {:induction false} SupersededStaysDown(trace: seq<Moment>, i: nat, j: nat)
    requires Run(trace) && i <= j < |trace|
    requires Authority(trace[i].world.journal) != LocalProduction
    ensures Authority(trace[j].world.journal) != LocalProduction
    ensures trace[j].world.productionWriters == {}
    ensures trace[j].world.production == trace[i].world.production
    decreases j - i
  {
    RunKeepsInv(trace, j);
    if i < j {
      SupersededStaysDown(trace, i, j - 1);
      assert Step(trace[j].actor, trace[j-1].world, trace[j].world);
    }
  }

  /** A committed rollback is final: no later run of the tool leaves it. */
  lemma {:induction false} RollbackIsFinal(trace: seq<Moment>, i: nat, j: nat)
    requires Run(trace) && i <= j < |trace|
    requires trace[i].world.journal.RollbackCommitted?
    ensures trace[j].world.journal == trace[i].world.journal
    ensures trace[j].world.unraidWriters == {} && trace[j].world.productionWriters == {}
    decreases j - i
  {
    RunKeepsInv(trace, j);
    if i < j {
      RollbackIsFinal(trace, i, j - 1);
      assert Step(trace[j].actor, trace[j-1].world, trace[j].world);
    }
  }

  /** Phases from which the recovery commands make progress. */
  predicate RecoverableForward(journal: Journal) {
    journal.Absent? || journal.Preparing? || journal.ForwardCleaned? || journal.Committed?
  }

  predicate RecoverableRollback(journal: Journal) {
    journal.Committed? || journal.RollbackPreparing? || journal.RollbackCommitted?
  }

  /** Every crash is recoverable: writers missing at the authority always leave a usable journal. */
  lemma StoppedWritersAreJournaled(trace: seq<Moment>, i: nat)
    requires Run(trace) && i < |trace|
    requires Writers(trace[i].world, Authority(trace[i].world.journal)) != WRITERS
    ensures var world := trace[i].world;
            match Authority(world.journal)
            case LocalProduction => world.journal.Preparing? || world.journal.ForwardCleaned?
            case Unraid => world.journal.RollbackPreparing? || (world.journal.Committed? && !world.served)
            case LocalRollback => world.journal.RollbackCommitted?
  {
    RunKeepsInv(trace, i);
  }

  /**
   Forward, then rollback, over a whole run. While production is the authority its data is the
   original; from the commit on, at Unraid and after a rollback at the local copy, it is the image of
   the original under the one schema transition.
   */
  lemma {:induction false} CustodyIsTheOriginalOrItsImage(trace: seq<Moment>, i: nat, j: nat)
    requires Run(trace) && i <= j < |trace|
    requires Authority(trace[i].world.journal) == LocalProduction && ReadingStands(trace[i].world)
    requires forall k :: i < k <= j ==> !trace[k].actor.Client?
    ensures Custody(trace[i]).Some? && Custody(trace[j]).Some?
    ensures if Authority(trace[j].world.journal) == LocalProduction
            then Custody(trace[j]) == Custody(trace[i])
            else ForwardImage(Custody(trace[i]).value, Custody(trace[j]).value)
    decreases j - i
  {
    RunKeepsInv(trace, i);
    RunKeepsInv(trace, j);
    if i < j {
      CustodyIsTheOriginalOrItsImage(trace, i, j - 1);
      CustodyKept(trace, i, j - 1);
      StepKeepsCustody(trace, j);
    }
  }

  /** A rolled-back run returns every attachment, release, table count and security object. */
  lemma RollbackReturnsTheOriginal(trace: seq<Moment>, i: nat, j: nat)
    requires Run(trace) && i <= j < |trace|
    requires Authority(trace[i].world.journal) == LocalProduction && ReadingStands(trace[i].world)
    requires trace[j].world.journal.RollbackCommitted?
    requires forall k :: i < k <= j ==> !trace[k].actor.Client?
    ensures Custody(trace[i]).Some? && Custody(trace[j]).Some?
    ensures var original, returned := Custody(trace[i]).value, Custody(trace[j]).value;
            && returned.attachments == original.attachments && returned.releases == original.releases
            && original.database.heads == ["0031"] && returned.database.heads == ["0032"]
            && "ai_work_queue" !in original.database.tables
            && returned.database.tables == original.database.tables["ai_work_queue" := 0]
            && returned.database.security.roles == original.database.security.roles
            && forall item :: item in original.database.security.objects
                              <==> item in returned.database.security.objects && item.name != "ai_work_queue"
  {
    CustodyIsTheOriginalOrItsImage(trace, i, j);
    var returned := Custody(trace[j]).value;
    ForwardThenRollback(Custody(trace[i]).value, returned, returned);
  }

  /** What no step undoes: a stopped old project stays down, and a copy that served has served. */
  lemma {:induction false} LatchesHold(trace: seq<Moment>, i: nat, j: nat)
    requires Run(trace) && i <= j < |trace|
    ensures trace[j].world.oldProjectUp ==> trace[i].world.oldProjectUp
    ensures trace[i].world.served ==> trace[j].world.served
    decreases j - i
  {
    if i < j {
      LatchesHold(trace, i, j - 1);
      assert Step(trace[j].actor, trace[j-1].world, trace[j].world);
    }
  }

  lemma Grow(trace: seq<Moment>, actor: Actor, next: World) returns (longer: seq<Moment>)
    requires Run(trace) && Step(actor, trace[|trace| - 1].world, next)
    ensures Run(longer) && longer == trace + [Moment(actor, next)]
  {
    longer := trace + [Moment(actor, next)];
  }

  /** A source that is frozen, read and copied, with the copy in place but not yet committed. */
  lemma ReadyToCommit(source: Inventory, image: Inventory) returns (trace: seq<Moment>)
    ensures Run(trace) && Custody(trace[0]) == Some(source) && trace[0].world.journal.Absent?
    ensures var world := trace[|trace| - 1].world;
            && world.journal == Preparing(0) && Frozen(world) && world.production == source && !world.served
            && world.read == Some(source) && Live(world.unraid) == Some(image)
  {
    var world := World(Absent, source, EMPTY_COPY, EMPTY_COPY, WRITERS, {}, {}, true, false, false, None, 1);
    trace := [Moment(Operator, world)];
    world := world.(journal := Preparing(0));
    trace := Grow(trace, Tool, world);
    world := world.(productionWriters := {});
    trace := Grow(trace, Tool, world);
    world := world.(read := Some(source));
    trace := Grow(trace, Tool, world);
    world := world.(unraid := EMPTY_COPY.(db := Some(image.database), attachments := Some(image.attachments),
                                          releases := Some(image.releases)));
    trace := Grow(trace, Tool, world);
  }

  /** The failing run: a session that outlives the freeze writes after the last reading, and the write stays behind. */
  lemma LateWriteIsLeftBehind(source: Inventory, late: Inventory, image: Inventory) returns (trace: seq<Moment>)
    requires ForwardImage(source, image) && late != source
    ensures Run(trace) && Custody(trace[0]) == Some(source) && trace[0].world.journal.Absent?
    ensures var world := trace[|trace| - 1].world;
            && world.journal.Committed? && Custody(trace[|trace| - 1]) == Some(image)
            && world.production == late && !ForwardImage(late, image)
  {
    trace := ReadyToCommit(source, image);
    var world := trace[|trace| - 1].world;
    trace := Grow(trace, Client, WithContent(world, Authority(world.journal), late));
    trace := Grow(trace, Tool, world.(production := late, journal := Committed(0)));
    ImageDeterminesSource(Forward, source, late, image);
  }
}
