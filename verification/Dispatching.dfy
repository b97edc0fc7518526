/** What a tick dispatches: which stage runs it creates, from what, and when it may call a run completed. */
module Dispatching {
  import opened Stages
  import opened Graphs
  import opened Tables
  import opened Ticks
  import opened Evolution
  import opened Ledgers
  import Dag

  // ---- where input versions come from -------------------------------------

  /** The run's own pins count only when it starts partway. */
  predicate Pinned(spec: Spec, d: string) {
    spec.startFrom.Some? && d in spec.pins
  }

  ghost predicate CompletedRow(rows: seq<StageRun>, r: nat, d: string, v: nat) {
    exists i :: 0 <= i < |rows| && rows[i].run == r && rows[i].stage == d && rows[i].status == Completed
                && rows[i].output == v
  }

  ghost predicate FallbackRow(rows: seq<StageRun>, r: nat, d: string) {
    exists i :: 0 <= i < |rows| && rows[i].run == r && rows[i].stage == d && rows[i].status == Failed
                && rows[i].usedFallback
  }

  /** A stage of the run that completed or visibly fell back. */
  ghost predicate Finished(rows: seq<StageRun>, r: nat, d: string) {
    FallbackRow(rows, r, d) || exists v :: CompletedRow(rows, r, d, v)
  }

  /**
   * The four places where version v of dependency d of run r can come from; `known` holds the
   * versions that were current at some tick so far.
   */
  ghost predicate Source(rows: seq<StageRun>, spec: Spec, r: nat, registered: set<string>, known: set<Ref>,
                    d: string, v: nat) {
    if Pinned(spec, d) then v == spec.pins[d]
    else
      || CompletedRow(rows, r, d, v)
      || (FallbackRow(rows, r, d) && Ref(d, v) in known)
      || (d !in registered && Ref(d, v) in known)
  }

  function RefsOf(current: Currents): set<Ref> {
    set n | n in current :: Ref(n, current[n])
  }

  /** An entry of the completed outputs comes from a completed stage run. */
  lemma {:induction false} OutputIsCompleted(rows: seq<StageRun>, r: nat, d: string)
    ensures var outputs := Outputs(Records(rows, r)); d in outputs ==> CompletedRow(rows, r, d, outputs[d])
  {
    var records := Records(rows, r);
    OutputsMembers(records, d);
    if d in Outputs(records) {
      var x :| x in records && x.row.status == Completed && x.row.stage == d && x.row.output == Outputs(records)[d];
      RecordsMembers(rows, r, x);
    }
  }

  /** The entries of `done` when the dispatch loop is reached. */
  lemma {:induction false} DoneSources(spec: Spec, rows: seq<StageRun>, r: nat, order: seq<StageDef>,
                    reachable: set<string>, policy: Policy, current: Currents, d: string)
    requires Judge(spec, Records(rows, r), order, reachable, policy, current).outcome.Go?
    ensures var j := Judge(spec, Records(rows, r), order, reachable, policy, current);
            d in j.outcome.done ==>
              var v := j.outcome.done[d];
              if Pinned(spec, d) then v == spec.pins[d]
              else
                || CompletedRow(rows, r, d, v)
                || (j.fallback.Some? && j.fallback.value.row.stage == d && Ref(d, v) in RefsOf(current))
                || (d !in Names(order) && Ref(d, v) in RefsOf(current))
  {
    OutputIsCompleted(rows, r, d);
  }

  /** What `done` is sure to contain then. */
  lemma {:induction false} DoneContains(spec: Spec, rows: seq<StageRun>, r: nat, order: seq<StageDef>,
                    reachable: set<string>, policy: Policy, current: Currents, d: string)
    requires Judge(spec, Records(rows, r), order, reachable, policy, current).outcome.Go?
    ensures var j := Judge(spec, Records(rows, r), order, reachable, policy, current);
            && (Pinned(spec, d) ==> d in j.outcome.done)
            && ((exists v :: CompletedRow(rows, r, d, v)) ==> d in j.outcome.done)
            && (j.fallback.Some? && j.fallback.value.row.stage == d ==> d in j.outcome.done)
            && (forall s :: s in order && s.name in reachable && d in s.dependsOn && d !in Names(order)
                            ==> d in j.outcome.done)
  {
    var records := Records(rows, r);
    if v :| CompletedRow(rows, r, d, v) {
      var i :| 0 <= i < |rows| && rows[i].run == r && rows[i].stage == d && rows[i].status == Completed
          && rows[i].output == v;
      RecordsMembers(rows, r, Record(i, rows[i]));
      OutputsMembers(records, d);
    }
  }

  // ---- which stages were started ------------------------------------------

  ghost predicate HasRow(rows: seq<StageRun>, r: nat, s: string) {
    exists i :: 0 <= i < |rows| && rows[i].run == r && rows[i].stage == s
  }

  lemma {:induction false} StartedIsHasRow(rows: seq<StageRun>, r: nat, s: string)
    ensures s in Started(Records(rows, r)) <==> HasRow(rows, r, s)
  {
    var records := Records(rows, r);
    if x :| x in records && x.row.stage == s {
      RecordsMembers(rows, r, x);
    }
    if i :| 0 <= i < |rows| && rows[i].run == r && rows[i].stage == s {
      RecordsMembers(rows, r, Record(i, rows[i]));
      assert Record(i, rows[i]) in records;
    }
  }

  lemma {:induction false} MarkKeepsStarted(db: Db, r: nat, fallback: Option<Record>)
    ensures Started(Records(MarkFallback(db, fallback).stageRuns, r)) == Started(Records(db.stageRuns, r))
  {
    var db' := MarkFallback(db, fallback);
    forall s ensures s in Started(Records(db'.stageRuns, r)) <==> s in Started(Records(db.stageRuns, r)) {
      StartedIsHasRow(db.stageRuns, r, s);
      StartedIsHasRow(db'.stageRuns, r, s);
      assert forall i :: 0 <= i < |db.stageRuns| ==>
        db'.stageRuns[i].run == db.stageRuns[i].run && db'.stageRuns[i].stage == db.stageRuns[i].stage;
    }
  }

  // ---- what one tick creates -----------------------------------------------

  /** The dispatch of one tick for one run: the verdict was to go on, with these stages ready. */
  ghost predicate GoesOn(env: Env, current: Currents, db: Db, r: nat, order: seq<StageDef>, reachable: set<string>,
                         fallback: Option<Record>, done: map<string, nat>)
    requires r < |db.runs|
  {
    var run := db.runs[r];
    && !run.cancelRequested
    && Admit(env, run.spec).Admitted?
    && Admit(env, run.spec).order == order && Admit(env, run.spec).reachable == reachable
    && Judge(run.spec, Records(db.stageRuns, r), order, reachable, Admit(env, run.spec).policy, current)
        == Verdict(fallback, Go(done))
  }

  /** Exactness: the new stage runs are those of the ready stages, in topological order, and of nothing else. */
  lemma {:induction false} DispatchExactly(env: Env, current: Currents, db: Db, r: nat, order: seq<StageDef>,
                    reachable: set<string>,
                        fallback: Option<Record>, done: map<string, nat>)
    requires r < |db.runs| && GoesOn(env, current, db, r, order, reachable, fallback, done)
    ensures var ready := Ready(order, reachable, Started(Records(db.stageRuns, r)), done);
            var db' := ProgressRun(env, current, db, r);
            && db'.stageRuns == MarkFallback(db, fallback).stageRuns + NewRows(r, db.runs[r].promote, ready, done)
            && db'.enqueued == db.enqueued + NewMessages(|db.stageRuns|, r, db.runs[r], ready, done)
            && db'.runs[r].status == StatusAfterDispatch(db.runs[r].status, ready != [], reachable <= done.Keys)
  {
    MarkKeepsStarted(db, r, fallback);
  }

  lemma {:induction false} GoIsGoesOn(env: Env, current: Currents, db: Db, r: nat)
    requires r < |db.runs| && !db.runs[r].cancelRequested && Admit(env, db.runs[r].spec).Admitted?
    ensures var a := Admit(env, db.runs[r].spec);
            var v := Judge(db.runs[r].spec, Records(db.stageRuns, r), a.order, a.reachable, a.policy, current);
            v.outcome.Go? ==> GoesOn(env, current, db, r, a.order, a.reachable, v.fallback, v.outcome.done)
  {
    hide Judge, Admit;
  }

  /** In any other case a tick creates no stage run. */
  lemma {:induction false} NoDispatchOtherwise(env: Env, current: Currents, db: Db, r: nat)
    requires r < |db.runs|
    requires forall order, reachable, fallback, done :: !GoesOn(env, current, db, r, order, reachable, fallback, done)
    ensures var db' := ProgressRun(env, current, db, r);
            |db'.stageRuns| == |db.stageRuns| && db'.enqueued == db.enqueued && !Active(db'.runs[r].status)
  {
    hide Judge, Admit, Records;
    var run := db.runs[r];
    if !run.cancelRequested && Admit(env, run.spec).Admitted? {
      var Admitted(order, reachable, policy) := Admit(env, run.spec);
      var v := Judge(run.spec, Records(db.stageRuns, r), order, reachable, policy, current);
      GoIsGoesOn(env, current, db, r);
    }
  }

  lemma {:induction false} ReadyDistinct(order: seq<StageDef>, reachable: set<string>, started: set<string>,
                    done: map<string, nat>)
    requires DistinctNames(order)
    ensures DistinctNames(Ready(order, reachable, started, done))
  {
    if order != [] {
      var init, last := order[..|order| - 1], order[|order| - 1];
      ReadyDistinct(init, reachable, started, done);
      forall s | s in Ready(init, reachable, started, done) ensures s.name != last.name {
        assert s in init;
      }
    }
  }

  lemma {:induction false} AdmittedRange(order: seq<StageDef>, spec: Spec, policy: Policy)
    requires AdmitRange(order, spec, policy).Admitted?
    ensures var a := AdmitRange(order, spec, policy);
            && a.order == order && a.reachable <= Names(order)
            && (spec.startFrom.None? ==> a.reachable == Names(order))
            && (spec.startFrom.Some? ==> spec.startFrom.value in Names(order)
                                         && a.reachable == Dag.ReachableFrom(ByName(order), spec.startFrom.value))
            && (spec.stopAfter.Some? ==> spec.stopAfter.value in a.reachable)
  {
    hide Reaches;
  }

  lemma {:induction false} AdmittedOrder(env: Env, spec: Spec)
    requires Admit(env, spec).Admitted?
    ensures IsOrder(Admit(env, spec).order) && Admit(env, spec).reachable <= Names(Admit(env, spec).order)
    ensures spec.startFrom.None? ==> Admit(env, spec).reachable == Names(Admit(env, spec).order)
    ensures spec.startFrom.Some? ==>
              && spec.startFrom.value in Names(Admit(env, spec).order)
              && Admit(env, spec).reachable == Dag.ReachableFrom(ByName(Admit(env, spec).order), spec.startFrom.value)
    ensures spec.stopAfter.Some? ==> spec.stopAfter.value in Admit(env, spec).reachable
  {
    var registry := env.registries[spec.workflow];
    Dag.TopologicalOrderCorrect(registry.stages);
    hide Dag.TopologicalOrder, HasCycle, ByName, Names, IsOrder, AdmitRange;
    AdmittedRange(Dag.TopologicalOrder(registry.stages).value, spec, if spec.onFailure.Some? then spec.onFailure.value
        else registry.onFailure);
  }
}
