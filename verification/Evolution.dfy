/** What one step may do to the tables: rows are append-only and statuses only move forwards. */
module Evolution {
  import opened Stages
  import opened Tables
  import opened Ticks

  /** requested -> running -> terminal, or requested -> terminal. */
  predicate RunMoves(s: Status, s': Status) {
    s' == s || (s == Requested && s' == Running) || (Active(s) && !Active(s'))
  }

  predicate LaterRun(run: Run, run': Run) {
    && run'.spec == run.spec && run'.promote == run.promote
    && RunMoves(run.status, run'.status)
    && (!Active(run.status) ==> run' == run)
    && (run.cancelRequested ==> run'.cancelRequested)
  }

  /** A tick changes nothing in an existing stage run, except to mark a failed one as papered over. */
  predicate MarkedRow(row: StageRun, row': StageRun) {
    row' == row || (row.status == Failed && row' == row.(usedFallback := true))
  }

  /** What progression does to the tables. */
  ghost predicate Progressed(db: Db, db': Db) {
    && db'.schedules == db.schedules && db'.rules == db.rules
    && |db'.runs| == |db.runs| && (forall r :: 0 <= r < |db.runs| ==> LaterRun(db.runs[r], db'.runs[r]))
    && |db.stageRuns| <= |db'.stageRuns|
    && (forall i :: 0 <= i < |db.stageRuns| ==> MarkedRow(db.stageRuns[i], db'.stageRuns[i]))
    && (forall i :: |db.stageRuns| <= i < |db'.stageRuns| ==> FreshRow(db'.stageRuns[i]))
    && db.enqueued <= db'.enqueued
  }

  predicate FreshRow(row: StageRun) {
    row.status == Requested && !row.usedFallback
  }

  lemma {:induction false} ProgressedTrans(a: Db, b: Db, c: Db)
    requires Progressed(a, b) && Progressed(b, c)
    ensures Progressed(a, c)
  {
    forall r | 0 <= r < |a.runs| ensures LaterRun(a.runs[r], c.runs[r]) {
      assert LaterRun(a.runs[r], b.runs[r]) && LaterRun(b.runs[r], c.runs[r]);
    }
    forall i | 0 <= i < |a.stageRuns| ensures MarkedRow(a.stageRuns[i], c.stageRuns[i]) {
      assert MarkedRow(a.stageRuns[i], b.stageRuns[i]) && MarkedRow(b.stageRuns[i], c.stageRuns[i]);
    }
    forall i | |a.stageRuns| <= i < |c.stageRuns| ensures FreshRow(c.stageRuns[i]) {
      if i < |b.stageRuns| { assert FreshRow(b.stageRuns[i]) && MarkedRow(b.stageRuns[i], c.stageRuns[i]); }
    }
  }

  // ---- records -------------------------------------------------------------

  lemma {:induction false} FailedMembers(records: seq<Record>, x: Record)
    ensures x in FailedOf(records) <==> x in records && x.row.status == Failed
  {
    if records != [] { FailedMembers(records[..|records| - 1], x); }
  }

  lemma {:induction false} OutputsMembers(records: seq<Record>, n: string)
    ensures n in Outputs(records) ==>
              exists x :: x in records && x.row.status == Completed && x.row.stage == n
                          && x.row.output == Outputs(records)[n]
    ensures forall x :: x in records && x.row.status == Completed && x.row.stage == n ==> n in Outputs(records)
  {
    if records != [] {
      var init, last := records[..|records| - 1], records[|records| - 1];
      assert records == init + [last];
      OutputsMembers(init, n);
      if n in Outputs(records) && !(last.row.status == Completed && last.row.stage == n) {
        var x :| x in init && x.row.status == Completed && x.row.stage == n && x.row.output == Outputs(init)[n];
        assert x in records;
      }
    }
  }

  /** The stage run that a verdict papers over is a failed one of this run. */
  lemma {:induction false} FallbackRecord(spec: Spec, rows: seq<StageRun>, r: nat, order: seq<StageDef>,
                    reachable: set<string>, policy: Policy, current: Currents)
    ensures var v := Judge(spec, Records(rows, r), order, reachable, policy, current);
            v.fallback.Some? ==>
              var x := v.fallback.value;
              && x.id < |rows| && rows[x.id] == x.row && x.row.run == r && x.row.status == Failed
              && policy == Fallback && x.row.stage in current
              && FailedOf(Records(rows, r)) != [] && x == FailedOf(Records(rows, r))[0]
  {
    var records := Records(rows, r);
    var failed := FailedOf(records);
    if failed != [] {
      FailedMembers(records, failed[0]);
      RecordsMembers(rows, r, failed[0]);
    }
  }

  // ---- progression of one run ---------------------------------------------

  /** What progression of run r leaves alone: every other run and every stage run but a failed one of r. */
  ghost predicate OnlyRun(db: Db, db': Db, r: nat) {
    && |db'.runs| == |db.runs|
    && (forall q :: 0 <= q < |db.runs| && q != r ==> db'.runs[q] == db.runs[q])
    && |db.stageRuns| <= |db'.stageRuns|
    && (forall i :: 0 <= i < |db.stageRuns| ==> db'.stageRuns[i].run == db.stageRuns[i].run)
    && (forall i :: 0 <= i < |db.stageRuns| && db.stageRuns[i].run != r ==> db'.stageRuns[i] == db.stageRuns[i])
    && (forall i :: |db.stageRuns| <= i < |db'.stageRuns| ==> db'.stageRuns[i].run == r)
  }

  lemma {:induction false} MarkProgressed(db: Db, r: nat, fallback: Option<Record>)
    requires r < |db.runs|
    requires fallback.Some? ==> fallback.value.id < |db.stageRuns| && db.stageRuns[fallback.value.id].status == Failed
                                && db.stageRuns[fallback.value.id].run == r
    ensures Progressed(db, MarkFallback(db, fallback)) && OnlyRun(db, MarkFallback(db, fallback), r)
    ensures MarkFallback(db, fallback).runs == db.runs
    ensures |MarkFallback(db, fallback).stageRuns| == |db.stageRuns|
  {
  }

  lemma {:induction false} AppendProgressed(db: Db, r: nat, ready: seq<StageDef>, done: map<string, nat>,
                    status: Status, error: Option<RunError>)
    requires r < |db.runs| && AllIn(ready, done) && Active(db.runs[r].status) && RunMoves(db.runs[r].status, status)
    ensures var db' := Append(db, r, ready, done);
            var db'' := WithRun(db', r, db'.runs[r].(status := status, error := error));
            Progressed(db, db'') && OnlyRun(db, db'', r)
  {
  }

  lemma {:induction false} StatusProgressed(db: Db, r: nat, status: Status, error: Option<RunError>)
    requires r < |db.runs| && Active(db.runs[r].status) && RunMoves(db.runs[r].status, status)
    ensures var db' := WithRun(db, r, db.runs[r].(status := status, error := error));
            Progressed(db, db') && OnlyRun(db, db', r)
  {
  }

  lemma {:induction false} OnlyRunTrans(a: Db, b: Db, c: Db, r: nat)
    requires OnlyRun(a, b, r) && OnlyRun(b, c, r)
    ensures OnlyRun(a, c, r)
  {
  }

  lemma {:induction false} ApplyProgressed(db: Db, r: nat, order: seq<StageDef>, reachable: set<string>, v: Verdict)
    requires r < |db.runs| && Active(db.runs[r].status)
    requires v.fallback.Some? ==> v.fallback.value.id < |db.stageRuns|
                                  && db.stageRuns[v.fallback.value.id].status == Failed
                                  && db.stageRuns[v.fallback.value.id].run == r
    ensures Progressed(db, Apply(db, r, order, reachable, v)) && OnlyRun(db, Apply(db, r, order, reachable, v), r)
  {
    hide Progressed, OnlyRun;
    var db1, db2 := MarkFallback(db, v.fallback), Apply(db, r, order, reachable, v);
    MarkProgressed(db, r, v.fallback);
    match v.outcome {
      case Abort(error) => StatusProgressed(db1, r, Failed, Some(error));
      case Stop => StatusProgressed(db1, r, Completed, db1.runs[r].error);
      case Go(done) =>
        var ready := Ready(order, reachable, Started(Records(db1.stageRuns, r)), done);
        AppendProgressed(db1, r, ready, done,
                         StatusAfterDispatch(db1.runs[r].status, ready != [], reachable <= done.Keys),
                             db1.runs[r].error);
    }
    ProgressedTrans(db, db1, db2);
    OnlyRunTrans(db, db1, db2, r);
  }

  /** Progression of a run moves its status forwards, appends stage runs of its own and touches nothing else. */
  lemma {:induction false} ProgressRunProgressed(env: Env, current: Currents, db: Db, r: nat)
    requires r < |db.runs| && Active(db.runs[r].status)
    ensures Progressed(db, ProgressRun(env, current, db, r)) && OnlyRun(db, ProgressRun(env, current, db, r), r)
  {
    hide Progressed, OnlyRun, Apply, Judge, Admit;
    var run := db.runs[r];
    if run.cancelRequested {
      StatusProgressed(db, r, Cancelled, run.error);
    } else {
      match Admit(env, run.spec)
      case Rejected(error) => StatusProgressed(db, r, Failed, Some(error));
      case Admitted(order, reachable, policy) =>
        FallbackRecord(run.spec, db.stageRuns, r, order, reachable, policy, current);
        ApplyProgressed(db, r, order, reachable,
            Judge(run.spec, Records(db.stageRuns, r), order, reachable, policy, current));
    }
  }

  lemma {:induction false} ProgressListProgressed(env: Env, current: Currents, db: Db, rs: seq<nat>)
    requires forall i :: 0 <= i < |rs| ==> rs[i] < |db.runs|
    ensures Progressed(db, ProgressList(env, current, db, rs))
    decreases |rs|
  {
    hide Progressed, ProgressRun;
    if rs == [] {
      ProgressedRefl(db);
    } else {
      var init, r := rs[..|rs| - 1], rs[|rs| - 1];
      ProgressListProgressed(env, current, db, init);
      var db' := ProgressList(env, current, db, init);
      if Active(db'.runs[r].status) {
        ProgressRunProgressed(env, current, db', r);
        ProgressedTrans(db, db', ProgressRun(env, current, db', r));
      }
    }
  }

  lemma {:induction false} ProgressedRefl(db: Db)
    ensures Progressed(db, db)
  {
  }
}
