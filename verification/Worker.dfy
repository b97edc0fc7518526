/**
 * The queue consumer: one message is one stage, started and then completed or failed
 * (services/runner/src/worker.py).
 */
module Workers {
  import opened Stages
  import opened Tables
  import opened TableStore
  import opened Ticks
  import opened Ledgers
  import opened ResourceStore
  import opened Runner
  import opened Dispatching
  import opened RunInvariants
  import opened Completion
  import opened Protocol
  import opened Guarantees
  import opened WorkflowServices
  import Control

  /** The callback that follows run_stage; None is a setup error, raised before any attempt. */
  function Report(db: Db, i: nat, outcome: Option<StageOutcome>): Db
    requires i < |db.stageRuns|
  {
    match outcome
    case None => Control.FailStageRun(db, i, 1)
    case Some(StageOutcome(version, attempts, error)) =>
      if error.Some? then Control.FailStageRun(db, i, attempts)
      else Control.CompleteStageRun(db, i, if version.Some? then version.value else 0, attempts)
  }

  /** A stage run after its execution: started, and then reported once with what the retry loop came to. */
  lemma {:induction false} ReportExactly(db: Db, i: nat, outcome: Option<StageOutcome>)
    requires i < |db.stageRuns|
    ensures var row, rows' := db.stageRuns[i], Report(Control.StartStageRun(db, i), i, outcome).stageRuns;
            && rows' == db.stageRuns[i := rows'[i]]
            && (outcome.None? ==> rows'[i] == row.(status := Failed, attempts := 1))
            && (outcome.Some? && outcome.value.error.Some? ==>
                  rows'[i] == row.(status := Failed, attempts := outcome.value.attempts))
            && (outcome.Some? && outcome.value.error.None? ==>
                  rows'[i] == row.(status := Completed, attempts := outcome.value.attempts,
                                   output := match outcome.value.version case Some(v) => v case None => 0))
  {
  }

  /** What everybody else can see of one execution, step by step. */
  datatype Glimpse = Glimpse(db: Db, ledger: Ledger, phase: Phase)

  ghost predicate WorkerRun(contracts: Contracts, job: Job, i: nat, t: seq<Glimpse>) {
    && |t| > 0 && (forall k :: 0 <= k < |t| ==> i < |t[k].db.stageRuns|)
    && forall k :: 0 <= k < |t| - 1 ==>
         WorkerEffect(contracts, job, i, t[k].db, t[k].ledger, t[k].phase, t[k + 1].db, t[k + 1].ledger, t[k + 1].phase)
  }

  /**
   * The message of stage run i, as the scheduler enqueues it: its stage is registered and all its inputs are
   * pinned.
   */
  ghost predicate Genuine(env: Env, db: Db, m: Message) {
    && m.stageRun < |db.stageRuns|
    && var row := db.stageRuns[m.stageRun];
       && row.run < |db.runs| && db.runs[row.run].spec.workflow == m.workflow
       && m.stage == row.stage && m.inputs == row.inputs && m.promote == row.promote
       && m.workflow in env.registries && row.stage in ByName(env.registries[m.workflow].stages)
       && forall d <- StageOf(env, db, m.stageRun).dependsOn :: d in row.inputs
  }

  lemma {:induction false} GenuineJob(env: Env, db: Db, l: Ledger, m: Message)
    requires Genuine(env, db, m)
    ensures var stage := ByName(env.registries[m.workflow].stages)[m.stage];
            && StageOf(env, db, m.stageRun) == stage
            && JobOf(env, db, m.stageRun)
                == Job(stage.name, Resolved(l, stage.dependsOn, m.inputs), stage.retries, m.promote, !m.promote)
  {
  }

  /** The retry loop's own trace, with the tables as they stand meanwhile. */
  function Glimpses(db: Db, trace: seq<Point>): seq<Glimpse> {
    seq(|trace|, k requires 0 <= k < |trace| => Glimpse(db, trace[k].ledger, trace[k].phase))
  }

  lemma {:induction false} TraceIsWorkerRun(contracts: Contracts, job: Job, i: nat, db: Db, trace: seq<Point>)
    requires Trace(contracts, job, trace) && i < |db.stageRuns|
    ensures WorkerRun(contracts, job, i, Glimpses(db, trace))
  {
    hide AttemptStep;
    var t := Glimpses(db, trace);
    forall k | 0 <= k < |t| - 1
      ensures WorkerEffect(contracts, job, i, t[k].db, t[k].ledger, t[k].phase, t[k + 1].db, t[k + 1].ledger,
          t[k + 1].phase)
    {
      assert AttemptStep(contracts, job, trace[k].ledger, trace[k].phase, trace[k + 1].ledger, trace[k + 1].phase);
      AttemptPhases(contracts, job, trace[k], trace[k + 1]);
    }
  }

  lemma {:induction false} AttemptPhases(contracts: Contracts, job: Job, p: Point, q: Point)
    requires AttemptStep(contracts, job, p.ledger, p.phase, q.ledger, q.phase)
    ensures p.phase.Attempting? || p.phase.Stored? || p.phase.Linked?
  {
  }

  lemma {:induction false} WorkerRunCons(contracts: Contracts, job: Job, i: nat, g: Glimpse, t: seq<Glimpse>)
    requires WorkerRun(contracts, job, i, t) && i < |g.db.stageRuns|
    requires WorkerEffect(contracts, job, i, g.db, g.ledger, g.phase, t[0].db, t[0].ledger, t[0].phase)
    ensures WorkerRun(contracts, job, i, [g] + t)
  {
    hide WorkerEffect;
    var u := [g] + t;
    forall k | 0 <= k < |u| - 1
      ensures WorkerEffect(contracts, job, i, u[k].db, u[k].ledger, u[k].phase, u[k + 1].db, u[k + 1].ledger,
          u[k + 1].phase)
    {
      if k > 0 { assert u[k] == t[k - 1] && u[k + 1] == t[k - 1 + 1]; }
    }
  }

  lemma {:induction false} WorkerRunSnoc(contracts: Contracts, job: Job, i: nat, t: seq<Glimpse>, g: Glimpse)
    requires WorkerRun(contracts, job, i, t) && i < |g.db.stageRuns|
    requires var e := t[|t| - 1]; WorkerEffect(contracts, job, i, e.db, e.ledger, e.phase, g.db, g.ledger, g.phase)
    ensures WorkerRun(contracts, job, i, t + [g])
  {
    hide WorkerEffect;
    var u := t + [g];
    forall k | 0 <= k < |u| - 1
      ensures WorkerEffect(contracts, job, i, u[k].db, u[k].ledger, u[k].phase, u[k + 1].db, u[k + 1].ledger,
          u[k + 1].phase)
    {
      if k < |t| - 1 { assert u[k] == t[k] && u[k + 1] == t[k + 1]; }
    }
  }

  /** From the pop to the report: a setup error, or the retry loop's trace between the two callbacks. */
  lemma {:induction false} WholeRun(contracts: Contracts, job: Job, i: nat, db: Db, l: Ledger, l': Ledger,
                                    outcome: Option<StageOutcome>, trace: seq<Point>) returns (t: seq<Glimpse>)
    requires i < |db.stageRuns|
    requires outcome.None? <==> !AllExist(l, job.refs)
    requires outcome.None? ==> l' == l
    requires outcome.Some? && job.retries >= 0 ==>
               TraceOk(contracts, job, l, outcome.value, l', trace)
                   && (outcome.value.error.Some? <==> outcome.value.version.None?)
    requires outcome.Some? && job.retries < 0 ==> outcome == Some(StageOutcome(None, job.retries + 1, None)) && l' == l
    ensures WorkerRun(contracts, job, i, t) && t[0] == Glimpse(db, l, Popped)
    ensures t[|t| - 1] == Glimpse(Report(Control.StartStageRun(db, i), i, outcome), l', Reported)
  {
    hide AttemptStep;
    var started := Control.StartStageRun(db, i);
    var done := Report(started, i, outcome);
    var middle: seq<Glimpse>;
    if outcome.None? {
      middle := [Glimpse(started, l, GaveUp(1))];
    } else if job.retries < 0 {
      middle := [Glimpse(started, l, Skipped(job.retries + 1))];
    } else {
      middle := Glimpses(started, trace);
      TraceIsWorkerRun(contracts, job, i, started, trace);
    }
    WorkerRunSnoc(contracts, job, i, middle, Glimpse(done, l', Reported));
    t := middle + [Glimpse(done, l', Reported)];
    WorkerRunCons(contracts, job, i, Glimpse(started, l, Resolving), t);
    t := [Glimpse(started, l, Resolving)] + t;
    WorkerRunCons(contracts, job, i, Glimpse(db, l, Popped), t);
    t := [Glimpse(db, l, Popped)] + t;
  }

  // ---- within the protocol -------------------------------------------------

  /** Every message of a reachable world is genuine: it is the one of its stage run. */
  lemma {:induction false} MessagesAreGenuine(env: Env, w: World, i: nat)
    requires Inv(env, w) && i < |w.db.enqueued|
    ensures i < |w.db.stageRuns| && w.db.enqueued[i].stageRun == i && Genuine(env, w.db, w.db.enqueued[i])
  {
    hide Honest, Lifecycle, LedgerInv, Jobs, OwnVersions, Admit, Source;
    var db := w.db;
    assert MessageFor(db, i) && RowSourced(env, db.runs, db.stageRuns, w.known, i);
    AdmittedGraph(env, db.runs[db.stageRuns[i].run].spec);
    StageIsDeclared(env, db, w.known, i);
    hide Sourced, StageOf;
    var deps := set d | d in StageOf(env, db, i).dependsOn;
    assert forall d <- StageOf(env, db, i).dependsOn :: d in deps;
  }

  ghost predicate SameOrigin(g: Glimpse, g': Glimpse, i: nat) {
    && g'.db.runs == g.db.runs && i < |g.db.stageRuns| == |g'.db.stageRuns|
    && var row, row' := g.db.stageRuns[i], g'.db.stageRuns[i];
       row'.run == row.run && row'.stage == row.stage && row'.inputs == row.inputs && row'.promote == row.promote
  }

  lemma {:induction false} EffectKeepsOrigin(contracts: Contracts, job: Job, i: nat, g: Glimpse, g': Glimpse)
    requires i < |g.db.stageRuns|
        && WorkerEffect(contracts, job, i, g.db, g.ledger, g.phase, g'.db, g'.ledger, g'.phase)
    ensures SameOrigin(g, g', i)
  {
    hide AttemptStep;
  }

  /** No step of a worker changes what it executes. */
  lemma {:induction false} JobSteady(env: Env, contracts: Contracts, job: Job, i: nat, g: Glimpse, g': Glimpse)
    requires i < |g.db.stageRuns|
        && WorkerEffect(contracts, job, i, g.db, g.ledger, g.phase, g'.db, g'.ledger, g'.phase)
    ensures i < |g'.db.stageRuns| && JobOf(env, g'.db, i) == JobOf(env, g.db, i)
  {
    EffectKeepsOrigin(contracts, job, i, g, g');
    hide WorkerEffect, PinnedRefs, ByName;
  }

  lemma {:induction false} JobStays(env: Env, contracts: Contracts, job: Job, i: nat, t: seq<Glimpse>, k: nat)
    requires WorkerRun(contracts, job, i, t) && k < |t|
    ensures JobOf(env, t[k].db, i) == JobOf(env, t[0].db, i)
    decreases k
  {
    hide WorkerEffect, JobOf;
    if k > 0 {
      JobStays(env, contracts, job, i, t, k - 1);
      assert t[k - 1 + 1] == t[k];
      JobSteady(env, contracts, job, i, t[k - 1], t[k]);
    }
  }

  /** All versions that were current up to glimpse k. */
  ghost function KnownAt(known: set<Ref>, t: seq<Glimpse>, k: nat): set<Ref>
    requires k < |t|
  {
    if k == 0 then known else KnownAt(known, t, k - 1) + RefsOf(CurrentsOf(t[k].ledger))
  }

  /** The world at glimpse k of the worker that popped message i, all else being equal. */
  ghost function WorldAt(w: World, i: nat, t: seq<Glimpse>, k: nat): World
    requires i < |w.phases| && k < |t|
  {
    World(t[k].db, w.phases[i := t[k].phase], t[k].ledger, KnownAt(w.known, t, k))
  }

  /** Each glimpse leads to the next by a step of the protocol. */
  lemma {:induction false} WorkerRunIsProtocol(env: Env, contracts: Contracts, w: World, i: nat, t: seq<Glimpse>,
                    k: nat)
    requires i < |w.phases| && k + 1 < |t| && i < |t[0].db.stageRuns|
    requires WorkerRun(contracts, JobOf(env, t[0].db, i), i, t)
    ensures Step(env, contracts, WorldAt(w, i, t, k), WorldAt(w, i, t, k + 1))
  {
    JobStays(env, contracts, JobOf(env, t[0].db, i), i, t, k);
    hide WorkerEffect, JobOf, TickStep, ClientStep, InjectStep, RollbackStep, PopStep, RefsOf, CurrentsOf;
    assert w.phases[i := t[k].phase][i := t[k + 1].phase] == w.phases[i := t[k + 1].phase];
    assert WorkerStep(env, contracts, WorldAt(w, i, t, k), WorldAt(w, i, t, k + 1), i);
  }

  class Worker {
    const service: WorkflowService
    const runner: StageRunner
    const env: Env

    constructor (service: WorkflowService, runner: StageRunner, env: Env)
      ensures this.service == service && this.runner == runner && this.env == env
    {
      this.service, this.runner, this.env := service, runner, env;
    }

    /** `registry.get` within the workflow module; None is any error on the way. */
    method LoadStage(workflow: string, name: string) returns (stage: Option<StageDef>)
      ensures stage == if workflow in env.registries && name in ByName(env.registries[workflow].stages)
                       then Some(ByName(env.registries[workflow].stages)[name]) else None
    {
      if workflow !in env.registries { return None; }
      var byName := ByName(env.registries[workflow].stages);
      stage := if name in byName then Some(byName[name]) else None;
    }

    /** What the execution of a message is for, once its stage is loaded. */
    ghost predicate Executed(m: Message, exec: Executor, l: Ledger, outcome: Option<StageOutcome>, l': Ledger)
      reads runner, runner.resources
    {
      match outcome
      case None => l' == l
      case Some(o) =>
        && m.workflow in env.registries && m.stage in ByName(env.registries[m.workflow].stages)
        && var stage := ByName(env.registries[m.workflow].stages)[m.stage];
           var job := Job(stage.name, Resolved(l, stage.dependsOn, m.inputs), stage.retries, m.promote, !m.promote);
           && AllExist(l, job.refs) && OutcomeOk(runner.resources.contracts, job, exec, Values(l, job.refs), l, o, l')
           && AreInputs(l, job.refs, Values(l, job.refs)) && PinsFirst(l, stage.dependsOn, m.inputs, job.refs)
    }

    /** The guarded block: loading the workflow, resolving inputs, the retry loop. None is an exception. */
    method Execute(m: Message, exec: Executor) returns (outcome: Option<StageOutcome>, ghost trace: seq<Point>)
      requires runner.resources.Valid()
      modifies runner.resources`ledger, runner.resources.metadata, runner.resources.blobs
      ensures runner.resources.Valid()
      ensures Executed(m, exec, old(runner.resources.ledger), outcome, runner.resources.ledger)
      ensures m.workflow in env.registries && m.stage in ByName(env.registries[m.workflow].stages) ==>
                var l, stage := old(runner.resources.ledger), ByName(env.registries[m.workflow].stages)[m.stage];
                var job := Job(stage.name, Resolved(l, stage.dependsOn, m.inputs), stage.retries, m.promote,
                    !m.promote);
                && (outcome.None? <==> !AllExist(l, job.refs))
                && (outcome.Some? && stage.retries >= 0 ==>
                      TraceOk(runner.resources.contracts, job, l, outcome.value, runner.resources.ledger, trace))
    {
      hide Rep, TraceOk, OutcomeOk, AreInputs, PinsFirst;
      trace := [];
      var stage := LoadStage(m.workflow, m.stage);
      if stage.None? { return None, []; }
      outcome, trace := runner.RunStage(stage.value, m.inputs, m.promote, !m.promote, exec);
    }

    /**
     * A stage run that the service does not know is dropped without effect. Any other is started and then
     * reported exactly once, as failed or as completed, whatever happens in between; for a genuine message
     * the whole execution is a sequence of protocol steps from `Popped` to `Reported`.
     */
    method ProcessMessage(m: Message, exec: Executor) returns (ghost outcome: Option<StageOutcome>,
                      ghost t: seq<Glimpse>)
      requires runner.resources.Valid()
      modifies service.store`stageRuns, runner.resources`ledger, runner.resources.metadata, runner.resources.blobs
      ensures runner.resources.Valid()
      ensures var db, l, i := old(View(service.store, service.queue)), old(runner.resources.ledger), m.stageRun;
              && (!old(service.store.OwnsStageRun(m.workflow, i)) ==>
                    View(service.store, service.queue) == db && runner.resources.ledger == l)
              && (old(service.store.OwnsStageRun(m.workflow, i)) ==>
                    View(service.store, service.queue) == Report(Control.StartStageRun(db, i), i, outcome))
      ensures Executed(m, exec, old(runner.resources.ledger), outcome, runner.resources.ledger)
      ensures var db, i := old(View(service.store, service.queue)), m.stageRun;
              Genuine(env, db, m) ==>
                && WorkerRun(runner.resources.contracts, JobOf(env, db, i), i, t)
                && t[0] == Glimpse(db, old(runner.resources.ledger), Popped)
                && t[|t| - 1] == Glimpse(View(service.store, service.queue), runner.resources.ledger, Reported)
    {
      hide Rep, TraceOk, OutcomeOk, AreInputs, PinsFirst, WorkerRun, StageOf, JobOf;
      outcome, t := None, [];
      ghost var db, l, i := View(service.store, service.queue), runner.resources.ledger, m.stageRun;
      var ok := service.StartStageRun(m.workflow, m.stageRun);
      if !ok { return; }
      ghost var trace;
      var result: Option<StageOutcome>;
      result, trace := Execute(m, exec);
      outcome := result;
      if result.None? {
        ok := service.FailStageRun(m.workflow, m.stageRun, 1);
      } else if result.value.error.Some? {
        ok := service.FailStageRun(m.workflow, m.stageRun, result.value.attempts);
      } else {
        ok := service.CompleteStageRun(m.workflow, m.stageRun, result.value.version, result.value.attempts);
      }
      if Genuine(env, db, m) {
        GenuineJob(env, db, l, m);
        t := Chronicle(db, l, i, JobOf(env, db, i), exec, outcome, trace);
      }
    }

    /**
     * The same for a message that was popped in a reachable world: its execution is a sequence of steps of
     * the whole system, from that world to the one in which the worker has reported.
     */
    method ProcessPopped(m: Message, exec: Executor, ghost w: World) returns (ghost ws: seq<World>)
      requires runner.resources.Valid() && Inv(env, w)
      requires w.db == View(service.store, service.queue) && w.ledger == runner.resources.ledger
      requires var i := m.stageRun;
          i < |w.phases| && w.phases[i] == Popped && i < |w.db.enqueued| && w.db.enqueued[i] == m
      modifies service.store`stageRuns, runner.resources`ledger, runner.resources.metadata, runner.resources.blobs
      ensures runner.resources.Valid()
      ensures |ws| > 0 && ws[0] == w
      ensures forall k :: 0 <= k < |ws| - 1 ==> Step(env, runner.resources.contracts, ws[k], ws[k + 1])
      ensures ws[|ws| - 1].db == View(service.store, service.queue) && ws[|ws| - 1].ledger == runner.resources.ledger
      ensures ws[|ws| - 1].phases == w.phases[m.stageRun := Reported]
    {
      hide Rep, Executed, WorkerRun, Genuine, Step, Inv, JobOf, Report;
      ghost var i := m.stageRun;
      MessagesAreGenuine(env, w, i);
      ghost var outcome, t;
      outcome, t := ProcessMessage(m, exec);
      GlimpsesBound(runner.resources.contracts, JobOf(env, w.db, i), i, t);
      ws := seq(|t|, k requires 0 <= k < |t| => WorldAt(w, i, t, k));
      forall k | 0 <= k < |ws| - 1 ensures Step(env, runner.resources.contracts, ws[k], ws[k + 1]) {
        WorkerRunIsProtocol(env, runner.resources.contracts, w, i, t, k);
      }
      assert w.phases[i := Popped] == w.phases;
    }

    lemma GlimpsesBound(contracts: Contracts, job: Job, i: nat, t: seq<Glimpse>)
      requires WorkerRun(contracts, job, i, t)
      ensures |t| > 0 && i < |t[0].db.stageRuns|
    {
    }

    lemma Chronicle(db: Db, l: Ledger, i: nat, job: Job, exec: Executor, outcome: Option<StageOutcome>,
                      trace: seq<Point>) returns (t: seq<Glimpse>)
      requires i < |db.stageRuns|
      requires outcome.None? <==> !AllExist(l, job.refs)
      requires outcome.None? ==> runner.resources.ledger == l
      requires outcome.Some? ==>
                 && (job.retries >= 0 ==> TraceOk(runner.resources.contracts, job, l, outcome.value,
                     runner.resources.ledger, trace))
                 && OutcomeOk(runner.resources.contracts, job, exec, Values(l, job.refs), l, outcome.value,
                     runner.resources.ledger)
      ensures WorkerRun(runner.resources.contracts, job, i, t) && t[0] == Glimpse(db, l, Popped)
      ensures t[|t| - 1] == Glimpse(Report(Control.StartStageRun(db, i), i, outcome), runner.resources.ledger, Reported)
    {
      hide TraceOk, WorkerRun;
      t := WholeRun(runner.resources.contracts, job, i, db, l, runner.resources.ledger, outcome, trace);
    }
  }
}
