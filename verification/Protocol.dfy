/**
 * The dispatch protocol: scheduler ticks, queue pops, worker steps, client requests, uploads and
 * promotions as atomic steps on one shared state.
 */
module Protocol {
  import opened Stages
  import opened Tables
  import opened Ticks
  import opened Dispatching
  import opened TickInvariants
  import opened Control
  import opened Ledgers
  import opened ResourceStore
  import opened Runner

  /**
   * The first |phases| messages have been popped; phases[i] is where the worker that popped message i
   * stands. `known` collects every version that was ever current.
   */
  datatype World = World(db: Db, phases: seq<Phase>, ledger: Ledger, known: set<Ref>)

  /** The stage of stage run i as its workflow declares it. */
  function StageOf(env: Env, db: Db, i: nat): StageDef
    requires i < |db.stageRuns|
  {
    var row := db.stageRuns[i];
    if row.run < |db.runs| && db.runs[row.run].spec.workflow in env.registries
       && row.stage in ByName(env.registries[db.runs[row.run].spec.workflow].stages)
    then ByName(env.registries[db.runs[row.run].spec.workflow].stages)[row.stage]
    else StageDef(row.stage, [], 0)
  }

  /** What the worker that pops message i executes: every dependency at its pinned version. */
  function JobOf(env: Env, db: Db, i: nat): Job
    requires i < |db.stageRuns|
  {
    var row, deps := db.stageRuns[i], StageOf(env, db, i).dependsOn;
    Job(row.stage, PinnedRefs(deps, row.inputs), StageOf(env, db, i).retries, row.promote, !row.promote)
  }

  function PinnedRefs(deps: seq<string>, inputs: map<string, nat>): seq<Ref> {
    seq(|deps|, k requires 0 <= k < |deps| => Ref(deps[k], if deps[k] in inputs then inputs[deps[k]] else 0))
  }

  // ---- steps ---------------------------------------------------------------

  ghost predicate TickStep(env: Env, w: World, w': World, now: int) {
    w'.db == Tick(env, CurrentsOf(w.ledger), now, w.db) && w'.phases == w.phases && w'.ledger == w.ledger
  }

  ghost predicate IsTick(env: Env, w: World, w': World) {
    exists now :: TickStep(env, w, w', now)
  }

  /** A rule that the service accepts: exactly one cadence, an interval being positive. */
  ghost predicate AcceptedRule(env: Env, cadence: Cadence, at: int) {
    exists expression, seconds, now ::
        ComputeNextRunAt(env.cron, env.parses, expression, seconds, now) == Next(cadence, at)
  }

  ghost predicate ClientStep(env: Env, w: World, w': World) {
    && w'.phases == w.phases && w'.ledger == w.ledger
    && ((exists spec, promote, runAt :: w'.db == RequestRun(w.db, spec, promote, runAt))
        || (exists spec, promote, cadence, at :: AcceptedRule(env, cadence, at)
                                                 && w'.db == CreateRule(w.db, spec, promote, cadence, at))
        || (exists k :: 0 <= k < |w.db.rules| && w'.db == DisableRule(w.db, k))
        || (exists s :: 0 <= s < |w.db.schedules| && w'.db == RequestScheduleCancel(w.db, s))
        || (exists r :: 0 <= r < |w.db.runs| && w'.db == RequestCancel(w.db, r)))
  }

  /** A client injects a value of a declared resource. */
  ghost predicate InjectStep(contracts: Contracts, w: World, w': World, name: string, value: Value, isTest: bool) {
    && w'.db == w.db && w'.phases == w.phases
    && name in contracts && w'.ledger == Ledgers.Append(w.ledger, name, value, isTest, contracts[name](value))
  }

  /** A client promotes any existing version, for instance to roll back. */
  ghost predicate RollbackStep(w: World, w': World, name: string, version: nat) {
    && w'.db == w.db && w'.phases == w.phases
    && Exists(w.ledger, name, version) && w'.ledger == Promote(w.ledger, name, version)
  }

  ghost predicate PopStep(w: World, w': World) {
    && |w.phases| < |w.db.enqueued|
    && w'.db == w.db && w'.ledger == w.ledger && w'.phases == w.phases + [Popped]
  }

  /** One step of the worker that popped message i. */
  ghost predicate WorkerStep(env: Env, contracts: Contracts, w: World, w': World, i: nat) {
    i < |w.phases| && i < |w.db.stageRuns| &&
    var p, p' := w.phases[i], if i < |w'.phases| then w'.phases[i] else Reported;
    && w'.phases == w.phases[i := p']
    && WorkerEffect(contracts, JobOf(env, w.db, i), i, w.db, w.ledger, p, w'.db, w'.ledger, p')
  }

  ghost predicate WorkerEffect(contracts: Contracts, job: Job, i: nat, db: Db, l: Ledger, p: Phase, db': Db,
                    l': Ledger, p': Phase)
    requires i < |db.stageRuns|
  {
    match p
    case Popped => l' == l && db' == StartStageRun(db, i) && p' == Resolving
    case Resolving => l' == l && db' == db && p' == AfterResolving(l, job)
    case Succeeded(n, v) => l' == l && db' == CompleteStageRun(db, i, v, n) && p' == Reported
    case GaveUp(n) => l' == l && db' == FailStageRun(db, i, n) && p' == Reported
    case Skipped(n) => l' == l && db' == CompleteStageRun(db, i, 0, n) && p' == Reported
    case Reported => false
    case _ => db' == db && AttemptStep(contracts, job, l, p, l', p')
  }

  function AfterResolving(l: Ledger, job: Job): Phase {
    if !AllExist(l, job.refs) then GaveUp(1) else if job.retries >= 0 then Attempting(1) else Skipped(job.retries + 1)
  }

  ghost predicate Step(env: Env, contracts: Contracts, w: World, w': World) {
    && w'.known == w.known + RefsOf(CurrentsOf(w'.ledger))
    && ((exists now :: TickStep(env, w, w', now))
        || ClientStep(env, w, w')
        || (exists name, value, isTest :: InjectStep(contracts, w, w', name, value, isTest))
        || (exists name, version :: RollbackStep(w, w', name, version))
        || PopStep(w, w')
        || (exists i: nat :: WorkerStep(env, contracts, w, w', i)))
  }

  // ---- the invariant -------------------------------------------------------

  /** The status of a stage run follows from where its worker stands, and from nothing else. */
  ghost predicate StatusFits(row: StageRun, p: Phase) {
    && (row.usedFallback ==> row.status == Failed)
    && match p
       case Popped => row.status == Requested
       case Reported => row.status == Completed || row.status == Failed
       case _ => row.status == Running
  }

  function PhaseOf(w: World, i: nat): Phase {
    if i < |w.phases| then w.phases[i] else Popped
  }

  ghost predicate Lifecycle(w: World) {
    && |w.phases| <= |w.db.stageRuns|
    && forall i :: 0 <= i < |w.db.stageRuns| ==> StatusFits(w.db.stageRuns[i], PhaseOf(w, i))
  }

  /** A version that the job produced: valid, and younger than all its inputs. */
  ghost predicate Made(l: Ledger, job: Job, v: nat) {
    && Exists(l, job.stage, v) && EntryOf(l, job.stage, v).error.None? && EntryOf(l, job.stage, v).isTest == job.isTest
    && forall k :: 0 <= k < |job.refs| ==>
         Exists(l, job.refs[k].name, job.refs[k].version)
         && EntryOf(l, job.refs[k].name, job.refs[k].version).id < EntryOf(l, job.stage, v).id
  }

  /** With its lineage recorded: exactly the pinned inputs, in order. */
  ghost predicate Recorded(l: Ledger, job: Job, v: nat) {
    Made(l, job, v) && EntryOf(l, job.stage, v).deps == job.refs
  }

  /** The version that a worker holds, or has reported. */
  function Held(row: StageRun, p: Phase): Option<nat> {
    match p
    case Stored(_, v) => Some(v)
    case Linked(_, v) => Some(v)
    case Succeeded(_, v) => Some(v)
    case Reported => if row.status == Completed && row.output > 0 then Some(row.output) else None
    case _ => None
  }

  ghost predicate JobFits(l: Ledger, job: Job, row: StageRun, p: Phase) {
    && (p.Attempting? || p.Stored? || p.Linked? || p.Succeeded? ==> job.retries >= 0)
    && (p.Skipped? ==> job.retries < 0)
    && match p
       case Attempting(_) => AllExist(l, job.refs)
       case Stored(_, v) => Made(l, job, v)
       case Linked(_, v) => Recorded(l, job, v)
       case Succeeded(_, v) => Recorded(l, job, v)
       case Reported => row.status == Completed
           ==> if job.retries >= 0 then Recorded(l, job, row.output) else row.output == 0
       case _ => true
  }

  ghost predicate Jobs(env: Env, w: World) {
    forall i :: 0 <= i < |w.db.stageRuns| ==> JobFits(w.ledger, JobOf(env, w.db, i), w.db.stageRuns[i], PhaseOf(w, i))
  }

  /** No two stage runs ever hold the same version. */
  ghost predicate OwnVersions(w: World) {
    forall i, j :: 0 <= i < j < |w.db.stageRuns| && w.db.stageRuns[i].stage == w.db.stageRuns[j].stage
                   && Held(w.db.stageRuns[i], PhaseOf(w, i)).Some? ==>
      Held(w.db.stageRuns[j], PhaseOf(w, j)) != Held(w.db.stageRuns[i], PhaseOf(w, i))
  }

  ghost predicate LedgerInv(l: Ledger, known: set<Ref>) {
    && IdsOrdered(l) && LineageDescends(l)
    && RefsOf(CurrentsOf(l)) <= known
    && forall x <- known :: Exists(l, x.name, x.version) && HasCurrent(l, x.name)
  }

  ghost predicate Inv(env: Env, w: World) {
    && DbInv(env, w.db, w.known) && Lifecycle(w) && LedgerInv(w.ledger, w.known) && Jobs(env, w) && OwnVersions(w)
  }

  ghost predicate Init(w: World) {
    w.db == Db([], [], [], [], []) && w.phases == [] && w.ledger == Ledger(map[], 1) && w.known == {}
  }

  lemma {:induction false} InitInv(env: Env, w: World)
    requires Init(w)
    ensures Inv(env, w)
  {
  }
}
