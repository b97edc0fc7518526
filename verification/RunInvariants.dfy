/** What every tick keeps about runs and stage runs. */
module RunInvariants {
  import opened Stages
  import opened Graphs
  import opened Tables
  import opened Ticks
  import opened Evolution
  import opened Dispatching
  import opened Ledgers

  // ---- exactly-once dispatch ----------------------------------------------

  /** Message i is the one message for stage run i. */
  ghost predicate MessageFor(db: Db, i: nat)
    requires i < |db.stageRuns| && i < |db.enqueued|
  {
    var row := db.stageRuns[i];
    row.run < |db.runs| && db.enqueued[i]
        == Message(i, row.run, db.runs[row.run].spec.workflow, row.stage, row.inputs, row.promote)
  }

  ghost predicate OneMessageEach(db: Db) {
    |db.enqueued| == |db.stageRuns| && forall i :: 0 <= i < |db.stageRuns| ==> MessageFor(db, i)
  }

  /** A run never has two stage runs of one stage. */
  ghost predicate OncePerStage(rows: seq<StageRun>) {
    forall i, j :: 0 <= i < j < |rows| ==> !(rows[i].run == rows[j].run && rows[i].stage == rows[j].stage)
  }

  lemma {:induction false} NewRowsOnce(rows: seq<StageRun>, r: nat, promote: bool, ready: seq<StageDef>,
                    done: map<string, nat>)
    requires OncePerStage(rows) && DistinctNames(ready) && AllIn(ready, done)
    requires forall k :: 0 <= k < |ready| ==> !HasRow(rows, r, ready[k].name)
    ensures OncePerStage(rows + NewRows(r, promote, ready, done))
  {
    var all := rows + NewRows(r, promote, ready, done);
    forall i, j | 0 <= i < j < |all| ensures !(all[i].run == all[j].run && all[i].stage == all[j].stage) {
      if i < |rows| <= j {
        assert !HasRow(rows, r, ready[j - |rows|].name);
      }
    }
  }

  lemma {:induction false} MarkKeepsOnce(db: Db, fallback: Option<Record>)
    requires OncePerStage(db.stageRuns)
    ensures OncePerStage(MarkFallback(db, fallback).stageRuns)
  {
  }

  lemma {:induction false} ProgressOnce(env: Env, current: Currents, db: Db, r: nat)
    requires r < |db.runs| && Active(db.runs[r].status) && OncePerStage(db.stageRuns)
    ensures OncePerStage(ProgressRun(env, current, db, r).stageRuns)
  {
    hide Admit, Judge;
    var db' := ProgressRun(env, current, db, r);
    ProgressRunProgressed(env, current, db, r);
    if order, reachable, fallback, done :| GoesOn(env, current, db, r, order, reachable, fallback, done) {
      DispatchExactly(env, current, db, r, order, reachable, fallback, done);
      AdmittedOrder(env, db.runs[r].spec);
      var ready := Ready(order, reachable, Started(Records(db.stageRuns, r)), done);
      ReadyDistinct(order, reachable, Started(Records(db.stageRuns, r)), done);
      MarkKeepsOnce(db, fallback);
      MarkKeepsStarted(db, r, fallback);
      forall k | 0 <= k < |ready| ensures !HasRow(MarkFallback(db, fallback).stageRuns, r, ready[k].name) {
        assert ready[k] in ready;
        StartedIsHasRow(MarkFallback(db, fallback).stageRuns, r, ready[k].name);
      }
      NewRowsOnce(MarkFallback(db, fallback).stageRuns, r, db.runs[r].promote, ready, done);
    } else {
      NoDispatchOtherwise(env, current, db, r);
      assert forall i :: 0 <= i < |db.stageRuns| ==> MarkedRow(db.stageRuns[i], db'.stageRuns[i]);
    }
  }

  lemma {:induction false} OldMessages(db: Db, db': Db)
    requires OneMessageEach(db) && Progressed(db, db') && |db'.enqueued| == |db'.stageRuns|
    ensures forall i :: 0 <= i < |db.stageRuns| ==> MessageFor(db', i)
  {
    forall i | 0 <= i < |db.stageRuns| ensures MessageFor(db', i) {
      assert MessageFor(db, i) && MarkedRow(db.stageRuns[i], db'.stageRuns[i]);
      assert LaterRun(db.runs[db.stageRuns[i].run], db'.runs[db.stageRuns[i].run]);
    }
  }

  lemma {:induction false} ProgressMessages(env: Env, current: Currents, db: Db, r: nat)
    requires r < |db.runs| && Active(db.runs[r].status) && OneMessageEach(db)
    ensures OneMessageEach(ProgressRun(env, current, db, r))
  {
    var db' := ProgressRun(env, current, db, r);
    hide Admit, Judge, ProgressRun;
    ProgressRunProgressed(env, current, db, r);
    if order, reachable, fallback, done :| GoesOn(env, current, db, r, order, reachable, fallback, done) {
      DispatchExactly(env, current, db, r, order, reachable, fallback, done);
      OldMessages(db, db');
      assert LaterRun(db.runs[r], db'.runs[r]);
      hide MessageFor, GoesOn, Progressed;
      var ready := Ready(order, reachable, Started(Records(db.stageRuns, r)), done);
      forall i | |db.stageRuns| <= i < |db'.stageRuns| ensures MessageFor(db', i) {
        NewMessageFor(db, db', r, ready, done, i);
      }
    } else {
      NoDispatchOtherwise(env, current, db, r);
      OldMessages(db, db');
    }
  }

  lemma {:induction false} NewMessageFor(db: Db, db': Db, r: nat, ready: seq<StageDef>, done: map<string, nat>, i: nat)
    requires r < |db.runs| <= |db'.runs| && AllIn(ready, done) && |db.stageRuns| <= i < |db'.stageRuns|
    requires db'.runs[r].spec == db.runs[r].spec && |db.enqueued| == |db.stageRuns|
    requires |db'.stageRuns| == |db.stageRuns| + |ready| == |db'.enqueued|
    requires db'.stageRuns[|db.stageRuns|..] == NewRows(r, db.runs[r].promote, ready, done)
    requires db'.enqueued[|db.enqueued|..] == NewMessages(|db.stageRuns|, r, db.runs[r], ready, done)
    ensures MessageFor(db', i)
  {
    var k := i - |db.stageRuns|;
    assert db'.stageRuns[i] == db'.stageRuns[|db.stageRuns|..][k];
    assert db'.enqueued[i] == db'.enqueued[|db.enqueued|..][k];
  }

  // ---- provenance of pinned inputs ----------------------------------------

  /** Stage run i was admitted, has exactly its dependencies pinned, each to a version with a known source. */
  ghost predicate RowSourced(env: Env, runs: seq<Run>, rows: seq<StageRun>, known: set<Ref>, i: nat)
    requires i < |rows|
  {
    var row := rows[i];
    row.run < |runs| &&
    var spec := runs[row.run].spec;
    Admit(env, spec).Admitted? &&
    var g := ByName(Admit(env, spec).order);
    && row.stage in g && row.stage in Admit(env, spec).reachable
    && row.inputs.Keys == (set d | d in g[row.stage].dependsOn)
    && forall d :: d in g[row.stage].dependsOn ==> Source(rows, spec, row.run, g.Keys, known, d, row.inputs[d])
  }

  ghost predicate Sourced(env: Env, db: Db, known: set<Ref>) {
    forall i :: 0 <= i < |db.stageRuns| ==> RowSourced(env, db.runs, db.stageRuns, known, i)
  }

  /** Rows that are done stay as they are. */
  ghost predicate KeepsDone(rows: seq<StageRun>, rows': seq<StageRun>) {
    && |rows| <= |rows'|
    && forall i :: 0 <= i < |rows| ==>
         && rows'[i].run == rows[i].run && rows'[i].stage == rows[i].stage && rows'[i].inputs == rows[i].inputs
         && (rows[i].status == Completed ==> rows'[i].status == Completed && rows'[i].output == rows[i].output)
         && (rows[i].status == Failed ==> rows'[i].status == Failed && (rows[i].usedFallback ==> rows'[i].usedFallback))
  }

  lemma {:induction false} KeepsCompleted(rows: seq<StageRun>, rows': seq<StageRun>, r: nat, d: string, v: nat)
    requires KeepsDone(rows, rows') && CompletedRow(rows, r, d, v)
    ensures CompletedRow(rows', r, d, v)
  {
    var i :| 0 <= i < |rows| && rows[i].run == r && rows[i].stage == d && rows[i].status == Completed
        && rows[i].output == v;
    assert rows'[i].run == r && rows'[i].stage == d && rows'[i].status == Completed && rows'[i].output == v;
  }

  lemma {:induction false} KeepsFallback(rows: seq<StageRun>, rows': seq<StageRun>, r: nat, d: string)
    requires KeepsDone(rows, rows') && FallbackRow(rows, r, d)
    ensures FallbackRow(rows', r, d)
  {
    var i :| 0 <= i < |rows| && rows[i].run == r && rows[i].stage == d && rows[i].status == Failed
        && rows[i].usedFallback;
    assert rows'[i].run == r && rows'[i].stage == d && rows'[i].status == Failed && rows'[i].usedFallback;
  }

  lemma {:induction false} KeepsFinished(rows: seq<StageRun>, rows': seq<StageRun>, r: nat, d: string)
    requires KeepsDone(rows, rows') && Finished(rows, r, d)
    ensures Finished(rows', r, d)
  {
    hide CompletedRow, FallbackRow;
    if FallbackRow(rows, r, d) {
      KeepsFallback(rows, rows', r, d);
    } else {
      var v :| CompletedRow(rows, r, d, v);
      KeepsCompleted(rows, rows', r, d, v);
    }
  }

  lemma {:induction false} KeepsSource(rows: seq<StageRun>, rows': seq<StageRun>, spec: Spec, r: nat,
                    registered: set<string>,
                    known: set<Ref>, known': set<Ref>, d: string, v: nat)
    requires KeepsDone(rows, rows') && known <= known' && Source(rows, spec, r, registered, known, d, v)
    ensures Source(rows', spec, r, registered, known', d, v)
  {
    hide CompletedRow, FallbackRow;
    if CompletedRow(rows, r, d, v) { KeepsCompleted(rows, rows', r, d, v); }
    if FallbackRow(rows, r, d) { KeepsFallback(rows, rows', r, d); }
  }

  /** Sources stay what they were, whatever is added to the tables. */
  lemma {:induction false} KeepsRowSourced(env: Env, runs: seq<Run>, runs': seq<Run>, rows: seq<StageRun>,
                    rows': seq<StageRun>,
                        known: set<Ref>, known': set<Ref>, i: nat)
    requires i < |rows| && KeepsDone(rows, rows') && known <= known'
    requires |runs| <= |runs'| && forall q :: 0 <= q < |runs| ==> runs'[q].spec == runs[q].spec
    requires RowSourced(env, runs, rows, known, i)
    ensures RowSourced(env, runs', rows', known', i)
  {
    hide Admit, Source;
    var row, spec := rows[i], runs[rows[i].run].spec;
    var g := ByName(Admit(env, spec).order);
    forall d | d in g[row.stage].dependsOn ensures Source(rows', spec, row.run, g.Keys, known', d, row.inputs[d]) {
      KeepsSource(rows, rows', spec, row.run, g.Keys, known, known', d, row.inputs[d]);
    }
  }

  lemma {:induction false} ProgressedKeepsDone(db: Db, db': Db)
    requires Progressed(db, db')
    ensures KeepsDone(db.stageRuns, db'.stageRuns)
    ensures forall q :: 0 <= q < |db.runs| ==> db'.runs[q].spec == db.runs[q].spec
  {
    forall i | 0 <= i < |db.stageRuns| ensures MarkedRow(db.stageRuns[i], db'.stageRuns[i]) {}
    forall q | 0 <= q < |db.runs| ensures LaterRun(db.runs[q], db'.runs[q]) {}
  }

  /** Every input version of a freshly dispatched stage run has one of the four sources. */
  lemma {:induction false} NewSource(env: Env, current: Currents, db: Db, r: nat, order: seq<StageDef>,
                    reachable: set<string>,
                  fallback: Option<Record>, done: map<string, nat>, known: set<Ref>, d: string)
    requires r < |db.runs| && Active(db.runs[r].status)
    requires GoesOn(env, current, db, r, order, reachable, fallback, done)
    requires RefsOf(current) <= known && d in done
    ensures Source(ProgressRun(env, current, db, r).stageRuns, db.runs[r].spec, r, Names(order), known, d, done[d])
  {
    var db', spec := ProgressRun(env, current, db, r), db.runs[r].spec;
    var policy := Admit(env, spec).policy;
    hide Admit, Judge;
    DispatchExactly(env, current, db, r, order, reachable, fallback, done);
    DoneSources(spec, db.stageRuns, r, order, reachable, policy, current, d);
    FallbackRecord(spec, db.stageRuns, r, order, reachable, policy, current);
    ProgressRunProgressed(env, current, db, r);
    ProgressedKeepsDone(db, db');
    if !Pinned(spec, d) {
      if CompletedRow(db.stageRuns, r, d, done[d]) {
        KeepsCompleted(db.stageRuns, db'.stageRuns, r, d, done[d]);
      } else if fallback.Some? && fallback.value.row.stage == d {
        var i := fallback.value.id;
        assert db'.stageRuns[i] == db.stageRuns[i].(usedFallback := true);
        assert FallbackRow(db'.stageRuns, r, d);
      }
    }
  }

  ghost predicate CreatedFor(row: StageRun, r: nat, promote: bool, s: StageDef, done: map<string, nat>) {
    (forall d <- s.dependsOn :: d in done) && row == NewStageRun(r, s.name, InputsOf(s, done), promote)
  }

  lemma {:induction false} NewRowStage(env: Env, current: Currents, db: Db, r: nat, order: seq<StageDef>,
                    reachable: set<string>,
                    fallback: Option<Record>, done: map<string, nat>, i: nat) returns (s: StageDef)
    requires r < |db.runs| && GoesOn(env, current, db, r, order, reachable, fallback, done)
    requires |db.stageRuns| <= i < |ProgressRun(env, current, db, r).stageRuns|
    ensures s in order && IsReady(s, reachable, Started(Records(db.stageRuns, r)), done)
    ensures CreatedFor(ProgressRun(env, current, db, r).stageRuns[i], r, db.runs[r].promote, s, done)
  {
    hide Admit, Judge, ProgressRun;
    DispatchExactly(env, current, db, r, order, reachable, fallback, done);
    var ready := Ready(order, reachable, Started(Records(db.stageRuns, r)), done);
    var k := i - |db.stageRuns|;
    assert ProgressRun(env, current, db, r).stageRuns[i] == NewRows(r, db.runs[r].promote, ready, done)[k];
    s := ready[k];
    assert s in ready;
  }

  lemma {:induction false} NewRowSourced(env: Env, current: Currents, db: Db, r: nat, known: set<Ref>, i: nat)
    requires r < |db.runs| && Active(db.runs[r].status) && RefsOf(current) <= known
    requires |db.stageRuns| <= i < |ProgressRun(env, current, db, r).stageRuns|
    ensures RowSourced(env, ProgressRun(env, current, db, r).runs, ProgressRun(env, current, db, r).stageRuns, known, i)
  {
    hide Judge, Source, Admit, ProgressRun, RowSourced, GoesOn;
    if order, reachable, fallback, done :| GoesOn(env, current, db, r, order, reachable, fallback, done) {
      DispatchedRowSourced(env, current, db, r, order, reachable, fallback, done, known, i);
    } else {
      NoDispatchOtherwise(env, current, db, r);
    }
  }

  lemma {:induction false} DispatchedRowSourced(env: Env, current: Currents, db: Db, r: nat, order: seq<StageDef>,
                    reachable: set<string>,
                    fallback: Option<Record>, done: map<string, nat>, known: set<Ref>, i: nat)
    requires r < |db.runs| && Active(db.runs[r].status) && RefsOf(current) <= known
    requires GoesOn(env, current, db, r, order, reachable, fallback, done)
    requires |db.stageRuns| <= i < |ProgressRun(env, current, db, r).stageRuns|
    ensures RowSourced(env, ProgressRun(env, current, db, r).runs, ProgressRun(env, current, db, r).stageRuns, known, i)
  {
    hide Judge, Source, Admit, ProgressRun;
    var db', spec := ProgressRun(env, current, db, r), db.runs[r].spec;
    var s := NewRowStage(env, current, db, r, order, reachable, fallback, done, i);
    AdmittedOrder(env, spec);
    ByNameOfDistinct(order);
    ProgressRunProgressed(env, current, db, r);
    assert LaterRun(db.runs[r], db'.runs[r]);
    assert ByName(order)[s.name] == s;
    hide ByName, IsOrder, Progressed, OnlyRun, Started, Records, Names;
    forall d | d in s.dependsOn ensures Source(db'.stageRuns, spec, r, Names(order), known, d, done[d]) {
      NewSource(env, current, db, r, order, reachable, fallback, done, known, d);
    }
  }

  lemma {:induction false} ProgressSourced(env: Env, current: Currents, db: Db, r: nat, known: set<Ref>)
    requires r < |db.runs| && Active(db.runs[r].status) && RefsOf(current) <= known && Sourced(env, db, known)
    ensures Sourced(env, ProgressRun(env, current, db, r), known)
  {
    hide RowSourced, ProgressRun, Progressed, KeepsDone;
    var db' := ProgressRun(env, current, db, r);
    ProgressRunProgressed(env, current, db, r);
    ProgressedKeepsDone(db, db');
    forall i | 0 <= i < |db'.stageRuns| ensures RowSourced(env, db'.runs, db'.stageRuns, known, i) {
      if i < |db.stageRuns| {
        KeepsRowSourced(env, db.runs, db'.runs, db.stageRuns, db'.stageRuns, known, known, i);
      } else {
        NewRowSourced(env, current, db, r, known, i);
      }
    }
  }
}
