/** What a failed execution leaves behind in the store, whatever else happens at the same time. */
module Failures {
  import opened Tables
  import opened Ticks
  import opened Evolution
  import opened RunInvariants
  import opened TickInvariants
  import opened Ledgers
  import opened ResourceStore
  import opened Runner
  import opened Protocol
  import opened ProtocolSafety
  import opened Guarantees
  import opened Promotion

  /** Step u is one of the worker that executes stage run i. */
  ghost predicate Works(env: Env, contracts: Contracts, ws: seq<World>, u: nat, i: nat) {
    u + 1 < |ws| && WorkerStep(env, contracts, ws[u], ws[u + 1], i)
  }

  /** How many versions that worker has appended to the store up to world t. */
  ghost function Uploads(env: Env, contracts: Contracts, ws: seq<World>, t: nat, i: nat): int
    requires t < |ws|
  {
    if t == 0 then 0
    else
      Uploads(env, contracts, ws, t - 1, i) + if Works(env, contracts, ws, t - 1, i)
          then ws[t].ledger.nextId - ws[t - 1].ledger.nextId else 0
  }

  /** The attempts that a stage allows. */
  function Attempts(retries: int): nat {
    if retries >= 0 then retries + 1 else 0
  }

  predicate WithinAttempts(p: Phase, retries: int) {
    p.Attempting? || p.Stored? || p.Linked? || p.Succeeded? ==> 1 <= p.attempt <= Attempts(retries)
  }

  /** The most versions that a worker can have appended where it stands. */
  function Spent(p: Phase, retries: int): int {
    match p
    case Attempting(n) => n - 1
    case Stored(n, _) => n
    case Linked(n, _) => n
    case Succeeded(n, _) => n
    case GaveUp(_) => Attempts(retries)
    case Reported => Attempts(retries)
    case _ => 0
  }

  // ---- one step ------------------------------------------------------------

  lemma {:induction false} AttemptSpends(contracts: Contracts, job: Job, l: Ledger, p: Phase, l': Ledger, p': Phase)
    requires AttemptStep(contracts, job, l, p, l', p') && WithinAttempts(p, job.retries)
    ensures WithinAttempts(p', job.retries)
    ensures l'.nextId - l.nextId <= Spent(p', job.retries) - Spent(p, job.retries)
  {
    if p.Attempting? && !(l' == l && p' == Retry(job, p.attempt)) {
      var value :| UploadStep(contracts, job, value, l, p.attempt, l', p');
    }
  }

  lemma {:induction false} EffectSpends(contracts: Contracts, job: Job, i: nat, db: Db, l: Ledger, p: Phase, db': Db,
                    l': Ledger, p': Phase)
    requires i < |db.stageRuns| && WorkerEffect(contracts, job, i, db, l, p, db', l', p')
    requires WithinAttempts(p, job.retries)
    ensures WithinAttempts(p', job.retries)
    ensures l'.nextId - l.nextId <= Spent(p', job.retries) - Spent(p, job.retries)
  {
    hide AttemptStep;
    if p.Attempting? || p.Stored? || p.Linked? { AttemptSpends(contracts, job, l, p, l', p'); }
  }

  /** Only the step to success moves a current version. */
  lemma {:induction false} AttemptMoves(contracts: Contracts, job: Job, l: Ledger, p: Phase, l': Ledger, p': Phase)
    requires AttemptStep(contracts, job, l, p, l', p')
    ensures CurrentsOf(l') == CurrentsOf(l) || p'.Succeeded?
  {
    if l' != l {
      match p {
        case Attempting(n) =>
          var value :| UploadStep(contracts, job, value, l, n, l', p');
          AppendCurrents(l, job.stage, value, job.isTest, contracts[job.stage](value));
        case Stored(n, v) => LinkCurrents(l, job.stage, v, job.refs);
        case _ =>
      }
    }
  }

  lemma {:induction false} EffectMoves(contracts: Contracts, job: Job, i: nat, db: Db, l: Ledger, p: Phase, db': Db,
                    l': Ledger, p': Phase)
    requires i < |db.stageRuns| && WorkerEffect(contracts, job, i, db, l, p, db', l', p')
    ensures CurrentsOf(l') == CurrentsOf(l) || p'.Succeeded?
    ensures p.Succeeded? ==> p' == Reported && |db'.stageRuns| == |db.stageRuns| && db'.stageRuns[i].status == Completed
    ensures p != Reported
  {
    hide AttemptStep, CurrentsOf;
    if p.Attempting? || p.Stored? || p.Linked? { AttemptMoves(contracts, job, l, p, l', p'); }
  }

  /** Whatever is not a step of this worker leaves it where it stands. */
  lemma {:induction false} OthersLeave(env: Env, contracts: Contracts, w: World, w': World, i: nat)
    requires Step(env, contracts, w, w') && !WorkerStep(env, contracts, w, w', i)
    ensures PhaseOf(w', i) == PhaseOf(w, i)
  {
    hide Tick, ClientStep, WorkerEffect, JobOf;
    if ClientStep(env, w, w') { ClientLeaves(env, w, w'); }
  }

  lemma {:induction false} ClientLeaves(env: Env, w: World, w': World)
    requires ClientStep(env, w, w')
    ensures w'.phases == w.phases
  {
  }

  lemma {:induction false} StepKeepsJob(env: Env, contracts: Contracts, w: World, w': World, i: nat)
    requires Inv(env, w) && Step(env, contracts, w, w') && i < |w.db.stageRuns|
    ensures i < |w'.db.stageRuns| && JobOf(env, w'.db, i) == JobOf(env, w.db, i)
  {
    StepMoves(env, contracts, w, w');
    assert MessageFor(w.db, i);
    hide Step, Inv, JobOf;
    forall r | 0 <= r < |w.db.runs| ensures w'.db.runs[r].spec == w.db.runs[r].spec {
      assert LaterRun(w.db.runs[r], w'.db.runs[r]);
    }
    forall k | 0 <= k < |w.db.stageRuns|
      ensures w'.db.stageRuns[k].run == w.db.stageRuns[k].run && w'.db.stageRuns[k].stage == w.db.stageRuns[k].stage
      ensures w'.db.stageRuns[k].inputs == w.db.stageRuns[k].inputs
      ensures w'.db.stageRuns[k].promote == w.db.stageRuns[k].promote
    {
      assert RowMoves(w.db.stageRuns[k], w'.db.stageRuns[k]);
    }
    SameJob(env, w.db, w'.db, i);
  }

  // ---- how much a worker appends -------------------------------------------

  /** Where the worker of stage run i stands, and how many versions it may have appended to get there. */
  ghost predicate OnBudget(env: Env, w: World, i: nat, uploads: int) {
    if i < |w.db.stageRuns| then
      && WithinAttempts(PhaseOf(w, i), JobOf(env, w.db, i).retries)
      && uploads <= Spent(PhaseOf(w, i), JobOf(env, w.db, i).retries)
    else PhaseOf(w, i) == Popped && uploads <= 0
  }

  lemma {:induction false} WorkOnBudget(env: Env, contracts: Contracts, w: World, w': World, i: nat, uploads: int)
    requires Inv(env, w) && Step(env, contracts, w, w') && WorkerStep(env, contracts, w, w', i)
    requires OnBudget(env, w, i, uploads)
    ensures OnBudget(env, w', i, uploads + w'.ledger.nextId - w.ledger.nextId)
  {
    WorkerFacts(env, contracts, w, w', i);
    StepKeepsJob(env, contracts, w, w', i);
    hide Inv, Step, WorkerStep, WorkerEffect, JobOf, JobFits, WithinAttempts, Spent;
    EffectSpends(contracts, JobOf(env, w.db, i), i, w.db, w.ledger, w.phases[i], w'.db, w'.ledger, w'.phases[i]);
  }

  lemma {:induction false} RestOnBudget(env: Env, contracts: Contracts, w: World, w': World, i: nat, uploads: int)
    requires Inv(env, w) && Step(env, contracts, w, w') && !WorkerStep(env, contracts, w, w', i)
    requires OnBudget(env, w, i, uploads)
    ensures OnBudget(env, w', i, uploads)
  {
    OthersLeave(env, contracts, w, w', i);
    hide Inv, Step, WorkerStep, JobOf;
    if i < |w.db.stageRuns| { StepKeepsJob(env, contracts, w, w', i); }
  }

  lemma {:induction false} AlwaysOnBudget(env: Env, contracts: Contracts, ws: seq<World>, t: nat, i: nat)
    requires Behavior(env, contracts, ws) && t < |ws|
    ensures OnBudget(env, ws[t], i, Uploads(env, contracts, ws, t, i))
  {
    hide Step, Inv, WorkerStep, JobOf;
    if t > 0 {
      AlwaysOnBudget(env, contracts, ws, t - 1, i);
      Reachable(env, contracts, ws, t - 1);
      assert Step(env, contracts, ws[t - 1], ws[t - 1 + 1]);
      hide OnBudget;
      if Works(env, contracts, ws, t - 1, i) {
        WorkOnBudget(env, contracts, ws[t - 1], ws[t], i, Uploads(env, contracts, ws, t - 1, i));
      } else {
        RestOnBudget(env, contracts, ws[t - 1], ws[t], i, Uploads(env, contracts, ws, t - 1, i));
      }
    }
  }

  /** No execution ever appends more versions than its stage allows attempts. */
  lemma {:induction false} UploadsBounded(env: Env, contracts: Contracts, ws: seq<World>, t: nat, i: nat)
    requires Behavior(env, contracts, ws) && t < |ws| && i < |ws[t].db.stageRuns|
    ensures Uploads(env, contracts, ws, t, i) <= Attempts(StageOf(env, ws[t].db, i).retries)
  {
    hide Behavior, StageOf, Uploads, PinnedRefs;
    AlwaysOnBudget(env, contracts, ws, t, i);
  }

  // ---- who moves current versions ------------------------------------------

  /** Up to world t no step of the worker of stage run i changed a current version. */
  ghost predicate MovedNothing(env: Env, contracts: Contracts, ws: seq<World>, t: nat, i: nat)
    requires t < |ws|
  {
    forall u :: 0 <= u < t && Works(env, contracts, ws, u, i)
                ==> CurrentsOf(ws[u + 1].ledger) == CurrentsOf(ws[u].ledger)
  }

  /** The worker of stage run i has succeeded. */
  ghost predicate Done(w: World, i: nat) {
    i < |w.db.stageRuns| && (PhaseOf(w, i).Succeeded?
        || (PhaseOf(w, i).Reported? && w.db.stageRuns[i].status == Completed))
  }

  lemma {:induction false} StaysDone(env: Env, contracts: Contracts, w: World, w': World, i: nat)
    requires Inv(env, w) && Step(env, contracts, w, w') && Done(w, i)
    ensures Done(w', i)
  {
    StepMoves(env, contracts, w, w');
    assert RowMoves(w.db.stageRuns[i], w'.db.stageRuns[i]);
    if WorkerStep(env, contracts, w, w', i) {
      WorkerFacts(env, contracts, w, w', i);
      hide Inv, Step, WorkerStep, WorkerEffect, JobOf, JobFits, WorldMoves;
      EffectMoves(contracts, JobOf(env, w.db, i), i, w.db, w.ledger, w.phases[i], w'.db, w'.ledger, w'.phases[i]);
    } else {
      hide Inv, Step, WorkerStep;
      OthersLeave(env, contracts, w, w', i);
    }
  }

  lemma {:induction false} MovingIsDone(env: Env, contracts: Contracts, w: World, w': World, i: nat)
    requires Inv(env, w) && Step(env, contracts, w, w') && WorkerStep(env, contracts, w, w', i)
    ensures CurrentsOf(w'.ledger) == CurrentsOf(w.ledger) || Done(w', i)
  {
    StepMoves(env, contracts, w, w');
    WorkerFacts(env, contracts, w, w', i);
    hide Inv, Step, WorkerStep, WorkerEffect, JobOf, JobFits;
    EffectMoves(contracts, JobOf(env, w.db, i), i, w.db, w.ledger, w.phases[i], w'.db, w'.ledger, w'.phases[i]);
  }

  lemma {:induction false} MovedIsDone(env: Env, contracts: Contracts, ws: seq<World>, t: nat, i: nat)
    requires Behavior(env, contracts, ws) && t < |ws|
    ensures MovedNothing(env, contracts, ws, t, i) || Done(ws[t], i)
  {
    hide Step, Inv, WorkerStep, Done;
    if t > 0 {
      MovedIsDone(env, contracts, ws, t - 1, i);
      Reachable(env, contracts, ws, t - 1);
      assert Step(env, contracts, ws[t - 1], ws[t - 1 + 1]);
      if Done(ws[t - 1], i) {
        StaysDone(env, contracts, ws[t - 1], ws[t], i);
      } else if Works(env, contracts, ws, t - 1, i) {
        MovingIsDone(env, contracts, ws[t - 1], ws[t], i);
      }
    }
  }

  /**
   * A stage run that ends up failed has left every current version alone at each of its steps, and has appended at
   * most one version for each attempt that its stage allows.
   */
  lemma {:induction false} FailureLeaves(env: Env, contracts: Contracts, ws: seq<World>, t: nat, i: nat)
    requires Behavior(env, contracts, ws) && t < |ws| && i < |ws[t].db.stageRuns|
    requires ws[t].db.stageRuns[i].status == Failed
    ensures MovedNothing(env, contracts, ws, t, i)
    ensures Uploads(env, contracts, ws, t, i) <= Attempts(StageOf(env, ws[t].db, i).retries)
  {
    UploadsBounded(env, contracts, ws, t, i);
    MovedIsDone(env, contracts, ws, t, i);
    Reachable(env, contracts, ws, t);
    assert StatusFits(ws[t].db.stageRuns[i], PhaseOf(ws[t], i));
  }

  // ---- the number of attempts reported --------------------------------------

  /** How often that worker has called the stage's executor up to world t. */
  ghost function Calls(env: Env, contracts: Contracts, ws: seq<World>, t: nat, i: nat): nat
    requires t < |ws|
  {
    if t == 0 then 0
    else
      Calls(env, contracts, ws, t - 1, i)
      + if Works(env, contracts, ws, t - 1, i) && PhaseOf(ws[t - 1], i).Attempting? then 1 else 0
  }

  /** The worker is about to resolve the inputs of stage run i, and one of them does not exist. */
  ghost predicate MissesInput(env: Env, w: World, i: nat) {
    i < |w.db.stageRuns| && PhaseOf(w, i).Resolving? && !AllExist(w.ledger, JobOf(env, w.db, i).refs)
  }

  /** At some step up to world t the worker found that an input version does not exist. */
  ghost predicate Unresolved(env: Env, contracts: Contracts, ws: seq<World>, t: nat, i: nat)
    requires t < |ws|
  {
    exists u :: 0 <= u < t && Works(env, contracts, ws, u, i) && MissesInput(env, ws[u], i)
  }

  /** The outcome of the retry loop, or of a setup error. */
  ghost predicate FailedAfter(n: int, retries: int, calls: nat, unresolved: bool) {
    || (retries >= 0 && n == calls == retries + 1)
    || (n == 1 && calls == 0 && unresolved)
  }

  ghost predicate SucceededAfter(n: int, retries: int, calls: nat) {
    if retries >= 0 then 1 <= n == calls <= retries + 1 else n == retries + 1 && calls == 0
  }

  ghost predicate CallsFit(p: Phase, row: StageRun, retries: int, calls: nat, unresolved: bool) {
    match p
    case Popped => calls == 0
    case Resolving => calls == 0
    case Attempting(n) => 1 <= n == calls + 1 <= retries + 1
    case Stored(n, _) => retries >= 0 && SucceededAfter(n, retries, calls)
    case Linked(n, _) => retries >= 0 && SucceededAfter(n, retries, calls)
    case Succeeded(n, _) => retries >= 0 && SucceededAfter(n, retries, calls)
    case GaveUp(n) => FailedAfter(n, retries, calls, unresolved)
    case Skipped(n) => retries < 0 && SucceededAfter(n, retries, calls)
    case Reported =>
      && (row.status == Completed ==> SucceededAfter(row.attempts, retries, calls))
      && (row.status == Failed ==> FailedAfter(row.attempts, retries, calls, unresolved))
  }

  lemma {:induction false} AttemptCalls(contracts: Contracts, job: Job, l: Ledger, p: Phase, l': Ledger, p': Phase,
                    row: StageRun, calls: nat, unresolved: bool)
    requires AttemptStep(contracts, job, l, p, l', p') && CallsFit(p, row, job.retries, calls, unresolved)
    ensures CallsFit(p', row, job.retries, calls + if p.Attempting? then 1 else 0, unresolved)
  {
    if p.Attempting? && !(l' == l && p' == Retry(job, p.attempt)) {
      var value :| UploadStep(contracts, job, value, l, p.attempt, l', p');
    }
  }

  lemma {:induction false} EffectCalls(contracts: Contracts, job: Job, i: nat, db: Db, l: Ledger, p: Phase, db': Db,
                    l': Ledger, p': Phase, calls: nat, unresolved: bool)
    requires i < |db.stageRuns| && WorkerEffect(contracts, job, i, db, l, p, db', l', p')
    requires CallsFit(p, db.stageRuns[i], job.retries, calls, unresolved)
    ensures i < |db'.stageRuns|
    ensures CallsFit(p', db'.stageRuns[i], job.retries, calls + if p.Attempting? then 1 else 0,
                     unresolved || (p.Resolving? && !AllExist(l, job.refs)))
  {
    hide AttemptStep, AllExist;
    if p.Attempting? || p.Stored? || p.Linked? {
      AttemptCalls(contracts, job, l, p, l', p', db.stageRuns[i], calls, unresolved);
    }
  }

  /** Whatever is not a step of this worker at most marks its stage run as papered over. */
  lemma {:induction false} OthersKeepRow(env: Env, contracts: Contracts, w: World, w': World, i: nat)
    requires Step(env, contracts, w, w') && !WorkerStep(env, contracts, w, w', i) && i < |w.db.stageRuns|
    ensures i < |w'.db.stageRuns|
    ensures w'.db.stageRuns[i].status == w.db.stageRuns[i].status
    ensures w'.db.stageRuns[i].attempts == w.db.stageRuns[i].attempts
  {
    hide TickStep, ClientStep, WorkerEffect, JobOf, WorkerStep;
    if now :| TickStep(env, w, w', now) {
      TickKeepsRow(env, w, w', now, i);
    } else if ClientStep(env, w, w') {
      ClientKeepsRows(env, w, w');
    } else if j: nat :| WorkerStep(env, contracts, w, w', j) {
      OtherWorkerKeepsRow(env, contracts, w, w', j, i);
    }
  }

  lemma {:induction false} TickKeepsRow(env: Env, w: World, w': World, now: int, i: nat)
    requires TickStep(env, w, w', now) && i < |w.db.stageRuns|
    ensures i < |w'.db.stageRuns| && MarkedRow(w.db.stageRuns[i], w'.db.stageRuns[i])
  {
    TickTicked(env, CurrentsOf(w.ledger), now, w.db);
    hide Tick;
  }

  lemma {:induction false} ClientKeepsRows(env: Env, w: World, w': World)
    requires ClientStep(env, w, w')
    ensures w'.db.stageRuns == w.db.stageRuns
  {
  }

  lemma {:induction false} OtherWorkerKeepsRow(env: Env, contracts: Contracts, w: World, w': World, j: nat, i: nat)
    requires WorkerStep(env, contracts, w, w', j) && j != i && i < |w.db.stageRuns|
    ensures i < |w'.db.stageRuns| && w'.db.stageRuns[i] == w.db.stageRuns[i]
  {
    hide JobOf, AttemptStep;
  }

  /** Where the worker of stage run i stands, what it has reported, and how often it has called the executor. */
  ghost predicate OnCount(env: Env, w: World, i: nat, calls: nat, unresolved: bool) {
    if i < |w.db.stageRuns| then
      CallsFit(PhaseOf(w, i), w.db.stageRuns[i], JobOf(env, w.db, i).retries, calls, unresolved)
    else PhaseOf(w, i) == Popped && calls == 0
  }

  lemma {:induction false} WorkOnCount(env: Env, contracts: Contracts, w: World, w': World, i: nat, calls: nat,
                    unresolved: bool)
    requires Inv(env, w) && Step(env, contracts, w, w') && WorkerStep(env, contracts, w, w', i)
    requires OnCount(env, w, i, calls, unresolved)
    ensures OnCount(env, w', i, calls + if PhaseOf(w, i).Attempting? then 1 else 0,
                    unresolved || MissesInput(env, w, i))
  {
    WorkerFacts(env, contracts, w, w', i);
    StepKeepsJob(env, contracts, w, w', i);
    hide Inv, Step, WorkerStep, WorkerEffect, JobOf, JobFits, CallsFit, AllExist;
    EffectCalls(contracts, JobOf(env, w.db, i), i, w.db, w.ledger, w.phases[i], w'.db, w'.ledger, w'.phases[i],
                calls, unresolved);
  }

  lemma {:induction false} RestOnCount(env: Env, contracts: Contracts, w: World, w': World, i: nat, calls: nat,
                    unresolved: bool)
    requires Inv(env, w) && Step(env, contracts, w, w') && !WorkerStep(env, contracts, w, w', i)
    requires OnCount(env, w, i, calls, unresolved)
    ensures OnCount(env, w', i, calls, unresolved)
  {
    OthersLeave(env, contracts, w, w', i);
    hide Inv, Step, WorkerStep, JobOf;
    if i < |w.db.stageRuns| {
      StepKeepsJob(env, contracts, w, w', i);
      OthersKeepRow(env, contracts, w, w', i);
    }
  }

  lemma {:induction false} AlwaysOnCount(env: Env, contracts: Contracts, ws: seq<World>, t: nat, i: nat)
    requires Behavior(env, contracts, ws) && t < |ws|
    ensures OnCount(env, ws[t], i, Calls(env, contracts, ws, t, i), Unresolved(env, contracts, ws, t, i))
  {
    hide Step, Inv, WorkerStep, JobOf, MissesInput;
    if t > 0 {
      AlwaysOnCount(env, contracts, ws, t - 1, i);
      Reachable(env, contracts, ws, t - 1);
      assert Step(env, contracts, ws[t - 1], ws[t - 1 + 1]);
      var calls, unresolved := Calls(env, contracts, ws, t - 1, i), Unresolved(env, contracts, ws, t - 1, i);
      hide OnCount;
      if Works(env, contracts, ws, t - 1, i) {
        WorkOnCount(env, contracts, ws[t - 1], ws[t], i, calls, unresolved);
        assert Unresolved(env, contracts, ws, t, i) <==> unresolved || MissesInput(env, ws[t - 1], i);
      } else {
        RestOnCount(env, contracts, ws[t - 1], ws[t], i, calls, unresolved);
        assert Unresolved(env, contracts, ws, t, i) <==> unresolved;
      }
    }
  }

  /**
   * The number of attempts that a stage run reports. Completed: the number of executor calls, or retries + 1 without
   * any call when that is not positive. Failed: retries + 1, all of them calls, unless an input did not exist; then
   * it is 1, and there was no call.
   */
  lemma {:induction false} AttemptsReported(env: Env, contracts: Contracts, ws: seq<World>, t: nat, i: nat)
    requires Behavior(env, contracts, ws) && t < |ws| && i < |ws[t].db.stageRuns|
    ensures var row, retries, calls := ws[t].db.stageRuns[i], StageOf(env, ws[t].db, i).retries,
                Calls(env, contracts, ws, t, i);
            && (row.status == Completed && retries >= 0 ==> 1 <= row.attempts == calls <= retries + 1)
            && (row.status == Completed && retries < 0 ==> row.attempts == retries + 1 && calls == 0)
            && (row.status == Failed && calls > 0 ==> row.attempts == calls == retries + 1)
            && (row.status == Failed && calls == 0 ==> row.attempts == 1 && Unresolved(env, contracts, ws, t, i))
  {
    AlwaysOnCount(env, contracts, ws, t, i);
    Reachable(env, contracts, ws, t);
    assert StatusFits(ws[t].db.stageRuns[i], PhaseOf(ws[t], i));
    hide Behavior, Inv, Calls, Unresolved, StageOf, PinnedRefs;
  }
}
