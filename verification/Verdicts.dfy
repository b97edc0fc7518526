/**
 * What a tick decides about a run, read off the tables, the registry and the request alone: why it is rejected,
 * what a failure does to it, when it ends, and what is dispatched.
 */
module Verdicts {
  import opened Stages
  import opened Graphs
  import opened Tables
  import opened Ticks
  import opened Evolution
  import opened Dispatching
  import opened Liveness
  import opened TickInvariants
  import opened Isolation
  import opened Ledgers
  import opened ResourceStore
  import opened Protocol
  import opened Bounds
  import Dag

  // ---- admission -----------------------------------------------------------

  /** The workflow has a registry whose stages can be ordered. */
  ghost predicate Loads(env: Env, spec: Spec) {
    spec.workflow in env.registries && !HasCycle(ByName(env.registries[spec.workflow].stages))
  }

  /** The run executes this stage: any stage, or one that is or depends on the stage to start from. */
  ghost predicate InRange(g: Graph, spec: Spec, n: string) {
    n in g && (spec.startFrom.Some? ==> Reaches(g, n, spec.startFrom.value))
  }

  ghost predicate RangeIs(g: Graph, spec: Spec, reachable: set<string>) {
    forall n :: n in reachable <==> InRange(g, spec, n)
  }

  /** What is wrong with the range that is asked for, the first reason first. */
  ghost predicate BadRange(g: Graph, spec: Spec, error: RunError) {
    if spec.startFrom.Some? && spec.startFrom.value !in g then error == UnknownStartFrom
    else if spec.stopAfter.Some? && spec.stopAfter.value !in g then error == UnknownStopAfter
    else if spec.stopAfter.Some? && !InRange(g, spec, spec.stopAfter.value) then error == StopAfterUnreachable
    else
      && error == MissingInputs && spec.startFrom.Some?
      && exists d :: d in g[spec.startFrom.value].dependsOn && d !in spec.pins
  }

  /** Why the tick cannot even look at the rows of the run. */
  ghost predicate RejectedFor(env: Env, spec: Spec, error: RunError) {
    if Loads(env, spec) then BadRange(ByName(env.registries[spec.workflow].stages), spec, error) else error == BadDag
  }

  ghost predicate Admissible(env: Env, spec: Spec) {
    forall error :: !RejectedFor(env, spec, error)
  }

  /** What on_failure means for the run: its own choice, or else the default of its workflow. */
  ghost predicate MayFallBack(env: Env, spec: Spec) {
    match spec.onFailure
    case Some(choice) => choice == Fallback
    case None => spec.workflow in env.registries && env.registries[spec.workflow].onFailure == Fallback
  }

  lemma {:induction false} RangeExactly(order: seq<StageDef>, spec: Spec, policy: Policy)
    ensures var a := AdmitRange(order, spec, policy);
            && (a.Rejected? ==> forall error :: BadRange(ByName(order), spec, error) <==> error == a.error)
            && (a.Admitted? ==> forall error :: !BadRange(ByName(order), spec, error))
            && (a.Admitted? ==> a.order == order && RangeIs(ByName(order), spec, a.reachable) && a.policy == policy)
  {
    hide Reaches, ByName;
  }

  /** Admission is decided by exactly these conditions, in this order. */
  lemma {:induction false} AdmitsExactly(env: Env, spec: Spec)
    ensures Admit(env, spec).Admitted? <==> Admissible(env, spec)
    ensures forall error :: Admit(env, spec) == Admission.Rejected(error) <==> RejectedFor(env, spec, error)
    ensures Admissible(env, spec) ==>
              var a := Admit(env, spec);
              && spec.workflow in env.registries
              && ByName(a.order) == ByName(env.registries[spec.workflow].stages)
              && RangeIs(ByName(a.order), spec, a.reachable)
              && (a.policy == Fallback <==> MayFallBack(env, spec))
  {
    if spec.workflow in env.registries {
      var registry := env.registries[spec.workflow];
      Dag.TopologicalOrderCorrect(registry.stages);
      var order := Dag.TopologicalOrder(registry.stages);
      if order.Some? {
        RangeExactly(order.value, spec, if spec.onFailure.Some? then spec.onFailure.value else registry.onFailure);
        assert ByName(order.value) == ByName(registry.stages);
      }
      hide Dag.TopologicalOrder, HasCycle, ByName, IsOrder, BadRange, RangeIs, AdmitRange;
    }
    hide BadRange;
    if Admit(env, spec).Rejected? { RejectedOnce(env, spec, Admit(env, spec).error); }
  }

  lemma {:induction false} RejectedOnce(env: Env, spec: Spec, error: RunError)
    requires RejectedFor(env, spec, error)
    ensures !Admissible(env, spec)
  {
  }

  /** A rejected run fails for that reason, and nothing is dispatched for it. */
  lemma {:induction false} RejectionFails(env: Env, current: Currents, db: Db, r: nat, error: RunError)
    requires r < |db.runs| && !db.runs[r].cancelRequested && RejectedFor(env, db.runs[r].spec, error)
    ensures ProgressRun(env, current, db, r)
         == db.(runs := db.runs[r := db.runs[r].(status := Failed, error := Some(error))])
  {
    AdmitsExactly(env, db.runs[r].spec);
    hide Admit, RejectedFor;
  }

  // ---- failures ------------------------------------------------------------

  /** The tick papers this failure over. */
  ghost predicate FallsBack(env: Env, spec: Spec, s: string, current: Currents) {
    MayFallBack(env, spec) && s in current
  }

  /**
   * The first failed stage run decides: without a fallback the run fails for it and nothing else changes, with one
   * this stage run is marked, and a missing external resource is the one thing that can still fail the run.
   */
  lemma {:induction false} FailureDecides(env: Env, current: Currents, db: Db, r: nat, i: nat)
    requires r < |db.runs| && !db.runs[r].cancelRequested && Admissible(env, db.runs[r].spec)
    requires Active(db.runs[r].status) && FirstFailed(db.stageRuns, r, i)
    ensures var spec, s, db' := db.runs[r].spec, db.stageRuns[i].stage, ProgressRun(env, current, db, r);
            if FallsBack(env, spec, s, current) then
              && i < |db'.stageRuns| && db'.stageRuns[i] == db.stageRuns[i].(usedFallback := true)
              && (db'.runs[r].status == Failed ==> db'.runs[r].error == Some(NoCurrentVersion))
            else db' == db.(runs := db.runs[r := db.runs[r].(status := Failed, error := Some(StageFailed(s)))])
  {
    var spec := db.runs[r].spec;
    AdmitsExactly(env, spec);
    FirstOfFailed(db.stageRuns, r);
    FirstIsOne(db.stageRuns, r, i);
    var a := Admit(env, spec);
    hide Admit, Admissible, MayFallBack, Records, FailedOf, Outputs, IsOrder, ByName, FirstFailed;
    FallbackOrAbort(spec, db.stageRuns, r, a.order, a.reachable, a.policy, current, i);
    var v := Judge(spec, Records(db.stageRuns, r), a.order, a.reachable, a.policy, current);
    hide Judge, Dispatch;
    if v.outcome.Go? {
      ProgressRunProgressed(env, current, db, r);
      MarkSurvives(env, current, db, r, a.order, a.reachable, v.fallback, v.outcome.done, i);
    }
  }

  lemma {:induction false} FirstIsOne(rows: seq<StageRun>, r: nat, i: nat)
    requires FirstFailed(rows, r, i)
    ensures forall k: nat :: FirstFailed(rows, r, k) ==> k == i
    ensures IsFailed(rows, r, i)
  {
  }

  lemma {:induction false} FallbackOrAbort(spec: Spec, rows: seq<StageRun>, r: nat, order: seq<StageDef>,
                    reachable: set<string>, policy: Policy, current: Currents, i: nat)
    requires FirstFailed(rows, r, i)
    ensures var v := Judge(spec, Records(rows, r), order, reachable, policy, current);
            if policy == Fallback && rows[i].stage in current then
              v.fallback == Some(Record(i, rows[i])) && (v.outcome.Abort? ==> v.outcome.error == NoCurrentVersion)
            else v == Verdict(None, Abort(StageFailed(rows[i].stage)))
  {
    FirstOfFailed(rows, r);
    FirstIsOne(rows, r, i);
    var failed := FailedOf(Records(rows, r));
    assert failed != [] by { assert IsFailed(rows, r, i); }
    assert failed[0].id == i;
    hide Records, FailedOf, Outputs, ExternalDeps;
  }

  lemma {:induction false} MarkSurvives(env: Env, current: Currents, db: Db, r: nat, order: seq<StageDef>,
                    reachable: set<string>, fallback: Option<Record>, done: map<string, nat>, i: nat)
    requires r < |db.runs| && GoesOn(env, current, db, r, order, reachable, fallback, done)
    requires Active(db.runs[r].status) && i < |db.stageRuns| && fallback == Some(Record(i, db.stageRuns[i]))
    ensures var db' := ProgressRun(env, current, db, r);
            && i < |db'.stageRuns| && db'.stageRuns[i] == db.stageRuns[i].(usedFallback := true)
            && db'.runs[r].status != Failed
  {
    hide ProgressRun, GoesOn;
    DispatchExactly(env, current, db, r, order, reachable, fallback, done);
  }

  /** Two environments that differ in nothing but the defaults of their workflows. */
  ghost predicate SameButDefaults(env: Env, env': Env) {
    && env'.registries.Keys == env.registries.Keys
    && forall n <- env.registries :: env'.registries[n].stages == env.registries[n].stages
  }

  /** A run with a policy of its own does not depend on the default of its workflow. */
  lemma {:induction false} OwnPolicyDecides(env: Env, env': Env, current: Currents, db: Db, r: nat)
    requires SameButDefaults(env, env') && r < |db.runs| && db.runs[r].spec.onFailure.Some?
    ensures ProgressRun(env', current, db, r) == ProgressRun(env, current, db, r)
  {
    hide Judge, Apply, AdmitRange;
    var spec := db.runs[r].spec;
    assert Admit(env', spec) == Admit(env, spec);
  }

  // ---- the same over a whole tick of the system ----------------------------

  lemma {:induction false} RecordsPrefix(rows: seq<StageRun>, rows': seq<StageRun>, r: nat, p: nat)
    requires |rows| <= |rows'| && (forall i :: 0 <= i < |rows| ==> rows'[i].run == rows[i].run)
    requires p < |Records(rows, r)|
    ensures p < |Records(rows', r)| && Records(rows', r)[p].id == Records(rows, r)[p].id
  {
    if |rows'| > |rows| {
      RecordsPrefix(rows, rows'[..|rows'| - 1], r, p);
    } else if p < |Records(rows[..|rows| - 1], r)| {
      RecordsPrefix(rows[..|rows| - 1], rows'[..|rows| - 1], r, p);
    } else {
      RecordsLength(rows[..|rows| - 1], rows'[..|rows| - 1], r);
    }
  }

  lemma {:induction false} RecordsLength(rows: seq<StageRun>, rows': seq<StageRun>, r: nat)
    requires |rows| == |rows'| && (forall i :: 0 <= i < |rows| ==> rows'[i].run == rows[i].run)
    ensures |Records(rows, r)| == |Records(rows', r)|
  {
    if rows != [] { RecordsLength(rows[..|rows| - 1], rows'[..|rows| - 1], r); }
  }

  /** What progression alone does to a stage run of run r, a whole tick does too. */
  lemma {:induction false} TickOnRow(env: Env, w: World, w': World, now: int, r: nat, i: nat)
    requires TickStep(env, w, w', now) && r < |w.db.runs| && Active(w.db.runs[r].status)
    requires i < |w.db.stageRuns| && w.db.stageRuns[i].run == r
    ensures r < |w'.db.runs|
    ensures var db1 := ProgressRun(env, CurrentsOf(w.ledger), w.db, r);
            && i < |w'.db.stageRuns| && i < |db1.stageRuns|
            && w'.db.runs[r] == db1.runs[r] && w'.db.stageRuns[i] == db1.stageRuns[i]
  {
    var current := CurrentsOf(w.ledger);
    var db1 := ProgressRun(env, current, w.db, r);
    TickOnRun(env, current, now, w.db, r);
    TickTicked(env, current, now, w.db);
    ProgressRunProgressed(env, current, w.db, r);
    hide Tick, ProgressRun;
    assert forall k :: 0 <= k < |w.db.stageRuns| ==> MarkedRow(w.db.stageRuns[k], w'.db.stageRuns[k]);
    assert forall k :: 0 <= k < |w.db.stageRuns| ==> MarkedRow(w.db.stageRuns[k], db1.stageRuns[k]);
    hide Ticked, Progressed, OnlyRun, TickStep;
    SameRowIn(w.db.stageRuns, w'.db.stageRuns, db1.stageRuns, r, i);
  }

  lemma {:induction false} SameRowIn(rows: seq<StageRun>, a: seq<StageRun>, b: seq<StageRun>, r: nat, i: nat)
    requires |rows| <= |a| && |rows| <= |b| && i < |rows| && rows[i].run == r
    requires forall k :: 0 <= k < |rows| ==> MarkedRow(rows[k], a[k]) && MarkedRow(rows[k], b[k])
    requires Isolation.SameRows(Records(a, r), Records(b, r))
    ensures a[i] == b[i]
  {
    RecordsMembers(rows, r, Record(i, rows[i]));
    var p :| 0 <= p < |Records(rows, r)| && Records(rows, r)[p] == Record(i, rows[i]);
    RecordsPrefix(rows, a, r, p);
    RecordsPrefix(rows, b, r, p);
    RecordsMembers(a, r, Records(a, r)[p]);
    RecordsMembers(b, r, Records(b, r)[p]);
    assert Records(a, r)[p] in Records(a, r) && Records(b, r)[p] in Records(b, r);
    hide Records;
  }

  /**
   * In a tick of the system an active, uncancelled, admissible run whose first failed stage run is i either fails
   * for it, or has it marked and does not fail for it, as its own policy says, or else the default.
   */
  lemma {:induction false} TickDecidesFailure(env: Env, w: World, w': World, now: int, r: nat, i: nat)
    requires TickStep(env, w, w', now) && r < |w.db.runs| && !w.db.runs[r].cancelRequested
    requires w.db.runs[r].status == Requested || w.db.runs[r].status == Running
    requires Admissible(env, w.db.runs[r].spec) && FirstFailed(w.db.stageRuns, r, i)
    ensures r < |w'.db.runs| && i < |w'.db.stageRuns|
    ensures w.db.runs[r].spec.workflow in env.registries
    ensures var run, row, run', row' := w.db.runs[r], w.db.stageRuns[i], w'.db.runs[r], w'.db.stageRuns[i];
            var current := CurrentsOf(w.ledger);
            && (run.spec.onFailure == Some(Halt) ==>
                  run' == run.(status := Failed, error := Some(StageFailed(row.stage))) && row' == row)
            && (run.spec.onFailure == Some(Fallback) && row.stage in current ==>
                  row' == row.(usedFallback := true)
                  && (run'.status == Failed ==> run'.error == Some(NoCurrentVersion)))
            && (run.spec.onFailure.None? && env.registries[run.spec.workflow].onFailure == Halt ==>
                  run' == run.(status := Failed, error := Some(StageFailed(row.stage))) && row' == row)
            && (run.spec.onFailure.None? && env.registries[run.spec.workflow].onFailure == Fallback
                && row.stage in current ==>
                  row' == row.(usedFallback := true)
                  && (run'.status == Failed ==> run'.error == Some(NoCurrentVersion)))
            && (row.stage !in current ==>
                  run' == run.(status := Failed, error := Some(StageFailed(row.stage))) && row' == row)
  {
    AdmitsExactly(env, w.db.runs[r].spec);
    FailureDecides(env, CurrentsOf(w.ledger), w.db, r, i);
    FirstIsOne(w.db.stageRuns, r, i);
    hide Admit, Admissible, FirstFailed, ProgressRun, TickStep, CurrentsOf;
    TickOnRow(env, w, w', now, r, i);
  }

  // ---- how a run ends or goes on -------------------------------------------

  /** The failure that the tick papers over, if anything failed: the run is not failed for it. */
  ghost predicate PapersOver(env: Env, spec: Spec, rows: seq<StageRun>, r: nat, current: Currents,
                             papered: Option<nat>) {
    match papered
    case None => forall i: nat :: !IsFailed(rows, r, i)
    case Some(i) => FirstFailed(rows, r, i) && FallsBack(env, spec, rows[i].stage, current)
  }

  /** The run has this stage: it completed, or its failure is papered over. */
  ghost predicate Has(rows: seq<StageRun>, r: nat, papered: Option<nat>, n: string) {
    || (exists v :: CompletedRow(rows, r, n, v))
    || (papered.Some? && papered.value < |rows| && rows[papered.value].stage == n)
  }

  /** The same, or the run was given it. */
  ghost predicate Given(spec: Spec, rows: seq<StageRun>, r: nat, papered: Option<nat>, n: string) {
    Has(rows, r, papered, n) || (spec.startFrom.Some? && n in spec.pins)
  }

  /** Nobody provides this external dependency of the range. */
  ghost predicate NotProvided(order: seq<StageDef>, spec: Spec, reachable: set<string>, rows: seq<StageRun>, r: nat,
                              papered: Option<nat>, current: Currents, d: string) {
    && d !in Names(order) && d !in current && !Given(spec, rows, r, papered, d)
    && exists s :: s in order && s.name in reachable && d in s.dependsOn
  }

  ghost predicate StopsHere(spec: Spec, rows: seq<StageRun>, r: nat, papered: Option<nat>) {
    spec.stopAfter.Some? && Has(rows, r, papered, spec.stopAfter.value)
  }

  lemma {:induction false} OutputsExactly(rows: seq<StageRun>, r: nat, n: string)
    ensures n in Outputs(Records(rows, r)) <==> exists v :: CompletedRow(rows, r, n, v)
  {
    OutputIsCompleted(rows, r, n);
    if v :| CompletedRow(rows, r, n, v) {
      var i :| 0 <= i < |rows| && rows[i].run == r && rows[i].stage == n && rows[i].status == Completed;
      RecordsMembers(rows, r, Record(i, rows[i]));
      OutputsMembers(Records(rows, r), n);
    }
  }

  /** What the tick goes on with once it has dealt with failures. */
  lemma {:induction false} JudgedWith(env: Env, spec: Spec, rows: seq<StageRun>, r: nat, current: Currents,
                    papered: Option<nat>) returns (has: map<string, nat>)
    requires Admissible(env, spec) && PapersOver(env, spec, rows, r, current, papered)
    ensures Admit(env, spec).Admitted?
    ensures forall n :: n in has <==> Has(rows, r, papered, n)
    ensures var a := Admit(env, spec);
            Judge(spec, Records(rows, r), a.order, a.reachable, a.policy, current)
            == Verdict(if papered.Some? then Some(Record(papered.value, rows[papered.value])) else None,
                       Conclude(spec, a.order, a.reachable, has, current))
  {
    AdmitsExactly(env, spec);
    FirstOfFailed(rows, r);
    hide Admit, Admissible, MayFallBack, Conclude, Records, FailedOf, Outputs, CompletedRow;
    var outputs := Outputs(Records(rows, r));
    has := outputs;
    if papered.Some? {
      FirstIsOne(rows, r, papered.value);
      var s := rows[papered.value].stage;
      has := outputs[s := current[s]];
    }
    forall n ensures n in has <==> Has(rows, r, papered, n) { OutputsExactly(rows, r, n); }
    hide FirstFailed;
  }

  /**
   * The tick that finds the requested last stage completed or papered over completes the run, and dispatches
   * nothing.
   */
  lemma {:induction false} StopCompletes(env: Env, current: Currents, db: Db, r: nat, papered: Option<nat>)
    requires r < |db.runs| && !db.runs[r].cancelRequested && Admissible(env, db.runs[r].spec)
    requires PapersOver(env, db.runs[r].spec, db.stageRuns, r, current, papered)
    requires StopsHere(db.runs[r].spec, db.stageRuns, r, papered)
    ensures var db' := ProgressRun(env, current, db, r);
            && db'.runs == db.runs[r := db.runs[r].(status := Completed)]
            && |db'.stageRuns| == |db.stageRuns| && db'.enqueued == db.enqueued
  {
    var has := JudgedWith(env, db.runs[r].spec, db.stageRuns, r, current, papered);
    hide Admit, Judge, PapersOver, Has;
  }

  /** Otherwise the run fails if and only if nobody provides some external dependency of its range. */
  lemma {:induction false} MissingExternalFails(env: Env, current: Currents, db: Db, r: nat, papered: Option<nat>)
    requires r < |db.runs| && !db.runs[r].cancelRequested && Admissible(env, db.runs[r].spec)
    requires PapersOver(env, db.runs[r].spec, db.stageRuns, r, current, papered) && Active(db.runs[r].status)
    requires !StopsHere(db.runs[r].spec, db.stageRuns, r, papered)
    ensures Admit(env, db.runs[r].spec).Admitted?
    ensures var a, db' := Admit(env, db.runs[r].spec), ProgressRun(env, current, db, r);
            if exists d :: NotProvided(a.order, db.runs[r].spec, a.reachable, db.stageRuns, r, papered, current, d) then
              && db'.runs == db.runs[r := db.runs[r].(status := Failed, error := Some(NoCurrentVersion))]
              && |db'.stageRuns| == |db.stageRuns| && db'.enqueued == db.enqueued
            else db'.runs[r].status != Failed && db'.runs[r].error == db.runs[r].error
  {
    var spec := db.runs[r].spec;
    var has := JudgedWith(env, spec, db.stageRuns, r, current, papered);
    var a := Admit(env, spec);
    var pinned := if spec.startFrom.Some? then has + spec.pins else has;
    hide Admit, Judge, PapersOver, Has, Ready;
    forall n ensures n in pinned <==> Given(spec, db.stageRuns, r, papered, n) {}
    ExternalsExactly(a.order, spec, a.reachable, db.stageRuns, r, papered, current, pinned);
    var v := Judge(spec, Records(db.stageRuns, r), a.order, a.reachable, a.policy, current);
    assert v.outcome == Conclude(spec, a.order, a.reachable, has, current);
    assert v.outcome == if ExternalDeps(a.order, a.reachable, pinned) <= current.Keys
        then Go(pinned + map d | d in ExternalDeps(a.order, a.reachable, pinned) :: current[d])
        else Abort(NoCurrentVersion);
    hide ProgressRun;
    hide ExternalDeps, NotProvided, Given, Conclude, Records;
    VerdictApplies(env, current, db, r);
  }

  /** What an abortion or a dispatch does to the run itself. */
  lemma {:induction false} VerdictApplies(env: Env, current: Currents, db: Db, r: nat)
    requires r < |db.runs| && !db.runs[r].cancelRequested && Admit(env, db.runs[r].spec).Admitted?
    requires Active(db.runs[r].status)
    ensures var a, db' := Admit(env, db.runs[r].spec), ProgressRun(env, current, db, r);
            var v := Judge(db.runs[r].spec, Records(db.stageRuns, r), a.order, a.reachable, a.policy, current);
            && (v.outcome.Abort? ==>
                  && db'.runs == db.runs[r := db.runs[r].(status := Failed, error := Some(v.outcome.error))]
                  && |db'.stageRuns| == |db.stageRuns| && db'.enqueued == db.enqueued)
            && (v.outcome.Go? ==> db'.runs[r].status != Failed && db'.runs[r].error == db.runs[r].error)
  {
    hide Admit, Judge, Records, Ready;
  }

  lemma {:induction false} ExternalsExactly(order: seq<StageDef>, spec: Spec, reachable: set<string>,
                    rows: seq<StageRun>, r: nat, papered: Option<nat>, current: Currents, pinned: map<string, nat>)
    requires forall n :: n in pinned <==> Given(spec, rows, r, papered, n)
    ensures (exists d :: NotProvided(order, spec, reachable, rows, r, papered, current, d))
            <==> !(ExternalDeps(order, reachable, pinned) <= current.Keys)
  {
    hide Given;
    forall d ensures d in ExternalDeps(order, reachable, pinned) && d !in current
                     <==> NotProvided(order, spec, reachable, rows, r, papered, current, d) {}
    if d :| d in ExternalDeps(order, reachable, pinned) && d !in current {
      assert NotProvided(order, spec, reachable, rows, r, papered, current, d);
    }
  }

  // ---- what is dispatched --------------------------------------------------

  /** The run can start this stage now. */
  ghost predicate CanStart(g: Graph, spec: Spec, rows: seq<StageRun>, r: nat, papered: Option<nat>, n: string) {
    && InRange(g, spec, n) && !HasRow(rows, r, n)
    && forall d :: d in g[n].dependsOn ==> d !in g || Given(spec, rows, r, papered, d)
  }

  /** The tick reached the dispatch loop. */
  ghost predicate LoopEntered(env: Env, current: Currents, db: Db, r: nat, papered: Option<nat>) {
    && r < |db.runs| && !db.runs[r].cancelRequested && Active(db.runs[r].status) && Admissible(env, db.runs[r].spec)
    && Admit(env, db.runs[r].spec).Admitted?
    && PapersOver(env, db.runs[r].spec, db.stageRuns, r, current, papered)
    && !StopsHere(db.runs[r].spec, db.stageRuns, r, papered)
    && var a := Admit(env, db.runs[r].spec);
       forall d :: !NotProvided(a.order, db.runs[r].spec, a.reachable, db.stageRuns, r, papered, current, d)
  }

  lemma {:induction false} LoopGoesOn(env: Env, current: Currents, db: Db, r: nat,
                    papered: Option<nat>) returns (fallback: Option<Record>, done: map<string, nat>)
    requires LoopEntered(env, current, db, r, papered)
    ensures var a, spec := Admit(env, db.runs[r].spec), db.runs[r].spec;
            && GoesOn(env, current, db, r, a.order, a.reachable, fallback, done)
            && (forall n :: Given(spec, db.stageRuns, r, papered, n) ==> n in done)
            && (forall n :: n in done && n in Names(a.order) ==> Given(spec, db.stageRuns, r, papered, n))
            && forall s, d :: s in a.order && s.name in a.reachable && d in s.dependsOn && d !in Names(a.order)
                              ==> d in done
  {
    var spec := db.runs[r].spec;
    var has := JudgedWith(env, spec, db.stageRuns, r, current, papered);
    var a := Admit(env, spec);
    var pinned := if spec.startFrom.Some? then has + spec.pins else has;
    hide Admit, PapersOver, Has, Admissible;
    forall n ensures n in pinned <==> Given(spec, db.stageRuns, r, papered, n) {}
    ExternalsExactly(a.order, spec, a.reachable, db.stageRuns, r, papered, current, pinned);
    var v := Judge(spec, Records(db.stageRuns, r), a.order, a.reachable, a.policy, current);
    hide Judge, NotProvided, Given, Records, Active;
    fallback, done := v.fallback, v.outcome.done;
  }

  /** Some new stage run is for stage n. */
  ghost predicate Dispatched(db: Db, db': Db, n: string) {
    exists i :: |db.stageRuns| <= i < |db'.stageRuns| && db'.stageRuns[i].stage == n
  }

  lemma {:induction false} ReadyCanStart(order: seq<StageDef>, spec: Spec, reachable: set<string>, rows: seq<StageRun>,
                    r: nat, papered: Option<nat>, done: map<string, nat>, n: string)
    requires DistinctNames(order) && RangeIs(ByName(order), spec, reachable)
    requires forall d :: Given(spec, rows, r, papered, d) ==> d in done
    requires forall d :: d in done && d in Names(order) ==> Given(spec, rows, r, papered, d)
    requires forall s, d :: s in order && s.name in reachable && d in s.dependsOn && d !in Names(order) ==> d in done
    ensures (exists s :: s in Ready(order, reachable, Started(Records(rows, r)), done) && s.name == n)
            <==> CanStart(ByName(order), spec, rows, r, papered, n)
  {
    StartedIsHasRow(rows, r, n);
    ByNameOfDistinct(order);
    var g, started := ByName(order), Started(Records(rows, r));
    assert n in reachable <==> InRange(g, spec, n);
    assert InRange(g, spec, n) ==> n in g;
    hide Given, InRange, HasRow, Started, Records, DistinctNames;
    if n in g && n in reachable {
      var s := g[n];
      assert s in order && s.name == n;
      assert s in Ready(order, reachable, started, done) <==> IsReady(s, reachable, started, done);
      assert forall s' :: s' in order && s'.name == n ==> s' == s;
    }
    if s :| s in Ready(order, reachable, started, done) && s.name == n { assert s in order && n in g; }
  }

  lemma {:induction false} NewRowsDispatched(db: Db, db': Db, r: nat, promote: bool, ready: seq<StageDef>,
                    done: map<string, nat>, fallback: Option<Record>, n: string)
    requires AllIn(ready, done)
    requires db'.stageRuns == MarkFallback(db, fallback).stageRuns + NewRows(r, promote, ready, done)
    ensures Dispatched(db, db', n) <==> exists s :: s in ready && s.name == n
    ensures |db'.stageRuns| == |db.stageRuns| + |ready|
  {
    var base := |db.stageRuns|;
    hide AllIn;
    if i :| base <= i < |db'.stageRuns| && db'.stageRuns[i].stage == n {
      assert db'.stageRuns[i].stage == ready[i - base].name;
    }
    if s :| s in ready && s.name == n {
      var k :| 0 <= k < |ready| && ready[k] == s;
      assert db'.stageRuns[base + k].stage == n;
    }
  }

  lemma {:induction false} RangeGiven(order: seq<StageDef>, spec: Spec, reachable: set<string>, rows: seq<StageRun>,
                    r: nat, papered: Option<nat>, done: map<string, nat>)
    requires RangeIs(ByName(order), spec, reachable) && reachable <= Names(order)
    requires forall d :: Given(spec, rows, r, papered, d) ==> d in done
    requires forall d :: d in done && d in Names(order) ==> Given(spec, rows, r, papered, d)
    ensures reachable <= done.Keys
            <==> forall n :: InRange(ByName(order), spec, n) ==> Given(spec, rows, r, papered, n)
  {
    hide Given, InRange;
  }

  lemma {:induction false} GoesOnQuietly(env: Env, current: Currents, db: Db, r: nat, order: seq<StageDef>,
                    reachable: set<string>, fallback: Option<Record>, done: map<string, nat>)
    requires r < |db.runs| && GoesOn(env, current, db, r, order, reachable, fallback, done)
    ensures ProgressRun(env, current, db, r).runs[r].error == db.runs[r].error
  {
    hide Admit, Judge, Ready;
  }

  /**
   * In the dispatch loop the run gets a stage run for exactly the stages that it can start now; it is completed if
   * its whole range was given or finished before, and it is running once something has been dispatched.
   */
  lemma {:induction false} LoopDispatches(env: Env, current: Currents, db: Db, r: nat, papered: Option<nat>)
    requires LoopEntered(env, current, db, r, papered)
    ensures db.runs[r].spec.workflow in env.registries
    ensures var spec, db' := db.runs[r].spec, ProgressRun(env, current, db, r);
            var g := ByName(env.registries[spec.workflow].stages);
            && |db.stageRuns| <= |db'.stageRuns|
            && (forall n :: Dispatched(db, db', n) <==> CanStart(g, spec, db.stageRuns, r, papered, n))
            && db'.runs[r].status == (
                 if forall n :: InRange(g, spec, n) ==> Given(spec, db.stageRuns, r, papered, n) then Completed
                 else if |db.stageRuns| < |db'.stageRuns| then Running
                 else db.runs[r].status)
            && db'.runs[r].error == db.runs[r].error
  {
    var spec, db' := db.runs[r].spec, ProgressRun(env, current, db, r);
    AdmitsExactly(env, spec);
    AdmittedOrder(env, spec);
    var a := Admit(env, spec);
    var fallback, done := LoopGoesOn(env, current, db, r, papered);
    assert Active(db.runs[r].status) && DistinctNames(a.order);
    assert ByName(a.order) == ByName(env.registries[spec.workflow].stages);
    hide *;
    DispatchExactly(env, current, db, r, a.order, a.reachable, fallback, done);
    GoesOnQuietly(env, current, db, r, a.order, a.reachable, fallback, done);
    RangeGiven(a.order, spec, a.reachable, db.stageRuns, r, papered, done);
    var ready := Ready(a.order, a.reachable, Started(Records(db.stageRuns, r)), done);
    forall n ensures Dispatched(db, db', n) <==> CanStart(ByName(a.order), spec, db.stageRuns, r, papered, n) {
      NewRowsDispatched(db, db', r, db.runs[r].promote, ready, done, fallback, n);
      ReadyCanStart(a.order, spec, a.reachable, db.stageRuns, r, papered, done, n);
    }
    NewRowsDispatched(db, db', r, db.runs[r].promote, ready, done, fallback, "");
    StatusIs(db.runs[r].status, ready != [], a.reachable <= done.Keys);
  }

  lemma {:induction false} StatusIs(status: Status, dispatched: bool, complete: bool)
    requires Active(status)
    ensures StatusAfterDispatch(status, dispatched, complete)
         == if complete then Completed else if dispatched then Running else status
  {
  }

  /** A new stage run is requested, with nothing reported, and inherits the promotion flag of its run. */
  lemma {:induction false} NewRowFields(env: Env, current: Currents, db: Db, r: nat, i: nat)
    requires r < |db.runs| && |db.stageRuns| <= i < |ProgressRun(env, current, db, r).stageRuns|
    ensures var row := ProgressRun(env, current, db, r).stageRuns[i];
            row == StageRun(r, row.stage, row.inputs, db.runs[r].promote, Requested, 0, 1, false)
  {
    hide Judge, Admit, ProgressRun, GoesOn;
    if order, reachable, fallback, done :| GoesOn(env, current, db, r, order, reachable, fallback, done) {
      DispatchExactly(env, current, db, r, order, reachable, fallback, done);
    } else {
      NoDispatchOtherwise(env, current, db, r);
    }
  }
}
