/** Runs do not interfere: what a tick does to a run depends on that run alone, not on the visiting order. */
module Isolation {
  import opened Stages
  import opened Tables
  import opened Ticks
  import opened Evolution

  /** Two lists of records with the same rows, whatever their ids. */
  ghost predicate SameRows(a: seq<Record>, b: seq<Record>) {
    |a| == |b| && forall k :: 0 <= k < |a| ==> a[k].row == b[k].row
  }

  /** A run looks the same in two states: its row, and its stage runs up to ids. */
  ghost predicate SameView(a: Db, b: Db, r: nat) {
    && r < |a.runs| && r < |b.runs| && a.runs[r] == b.runs[r]
    && SameRows(Records(a.stageRuns, r), Records(b.stageRuns, r))
  }

  // ---- reading -------------------------------------------------------------

  lemma {:induction false} SameOutputs(a: seq<Record>, b: seq<Record>)
    requires SameRows(a, b)
    ensures Outputs(a) == Outputs(b)
  {
    if a != [] { SameOutputs(a[..|a| - 1], b[..|b| - 1]); }
  }

  lemma {:induction false} SameFailed(a: seq<Record>, b: seq<Record>)
    requires SameRows(a, b)
    ensures SameRows(FailedOf(a), FailedOf(b))
  {
    if a != [] { SameFailed(a[..|a| - 1], b[..|b| - 1]); }
  }

  lemma {:induction false} SameStarted(a: seq<Record>, b: seq<Record>)
    requires SameRows(a, b)
    ensures Started(a) <= Started(b)
  {
    forall s | s in Started(a) ensures s in Started(b) {
      var k :| 0 <= k < |a| && a[k].row.stage == s;
      assert b[k] in b && b[k].row.stage == s;
    }
  }

  lemma {:induction false} SameVerdict(spec: Spec, a: seq<Record>, b: seq<Record>, order: seq<StageDef>,
                    reachable: set<string>, policy: Policy, current: Currents)
    requires SameRows(a, b)
    ensures var v, v' := Judge(spec, a, order, reachable, policy, current),
        Judge(spec, b, order, reachable, policy, current);
            && v.outcome == v'.outcome && v.fallback.Some? == v'.fallback.Some?
            && (v.fallback.Some? ==> FailedOf(a) != [] && FailedOf(b) != []
                                     && v.fallback.value == FailedOf(a)[0] && v'.fallback.value == FailedOf(b)[0])
  {
    SameOutputs(a, b);
    SameFailed(a, b);
  }

  // ---- writing -------------------------------------------------------------

  /** Where the first failed record stands. */
  ghost predicate FailsFirstAt(a: seq<Record>, p: nat) {
    p < |a| && a[p].row.status == Failed && forall k :: 0 <= k < p ==> a[k].row.status != Failed
  }

  lemma {:induction false} FirstFailedAt(a: seq<Record>) returns (p: nat)
    requires FailedOf(a) != []
    ensures FailsFirstAt(a, p) && FailedOf(a)[0] == a[p]
  {
    var init := a[..|a| - 1];
    if FailedOf(init) != [] {
      p := FirstFailedAt(init);
    } else {
      p := |init|;
      forall k | 0 <= k < p ensures a[k].row.status != Failed {
        FailedMembers(init, a[k]);
        assert a[k] == init[k];
      }
    }
  }

  lemma {:induction false} RecordsUpdate(rows: seq<StageRun>, r: nat, p: nat, row: StageRun)
    requires p < |Records(rows, r)| && row.run == r && Records(rows, r)[p].id < |rows|
    ensures Records(rows[Records(rows, r)[p].id := row], r)
        == Records(rows, r)[p := Record(Records(rows, r)[p].id, row)]
  {
    var records := Records(rows, r);
    var id := records[p].id;
    var n := |rows| - 1;
    var init := rows[..n];
    RecordsMembers(rows, r, records[p]);
    assert records[p] in records;
    if id == n {
      assert rows[id := row][..n] == init;
      forall x | x in Records(init, r) ensures x.id < n { RecordsMembers(init, r, x); }
    } else {
      assert rows[id := row][..n] == init[id := row];
      assert p < |Records(init, r)|;
      RecordsUpdate(init, r, p, row);
    }
  }

  lemma {:induction false} RecordsExtend(rows: seq<StageRun>, more: seq<StageRun>, r: nat)
    requires forall k :: 0 <= k < |more| ==> more[k].run == r
    ensures Records(rows + more, r)
         == Records(rows, r) + seq(|more|, k requires 0 <= k < |more| => Record(|rows| + k, more[k]))
  {
    if more == [] {
      assert rows + more == rows;
    } else {
      var init, all := more[..|more| - 1], rows + more;
      RecordsExtend(rows, init, r);
      assert all[..|all| - 1] == rows + init && all[|all| - 1] == more[|more| - 1];
    }
  }

  lemma {:induction false} SameMark(a: Db, b: Db, r: nat, fallback: Option<Record>, fallback': Option<Record>)
    requires SameView(a, b, r) && fallback.Some? == fallback'.Some?
    requires fallback.Some? ==>
               var ra, rb := Records(a.stageRuns, r), Records(b.stageRuns, r);
               FailedOf(ra) != [] && FailedOf(rb) != [] && fallback.value == FailedOf(ra)[0]
                   && fallback'.value == FailedOf(rb)[0]
    ensures SameView(MarkFallback(a, fallback), MarkFallback(b, fallback'), r)
  {
    if fallback.Some? {
      var ra, rb := Records(a.stageRuns, r), Records(b.stageRuns, r);
      var p := FirstFailedAt(ra);
      var q := FirstFailedAt(rb);
      assert ra[p].row == rb[p].row && ra[q].row == rb[q].row;
      assert p == q;
      RecordsMembers(a.stageRuns, r, ra[p]);
      RecordsMembers(b.stageRuns, r, rb[p]);
      RecordsUpdate(a.stageRuns, r, p, ra[p].row.(usedFallback := true));
      RecordsUpdate(b.stageRuns, r, p, rb[p].row.(usedFallback := true));
    }
  }

  lemma {:induction false} SameAppend(a: Db, b: Db, r: nat, ready: seq<StageDef>, done: map<string, nat>)
    requires SameView(a, b, r) && AllIn(ready, done)
    ensures SameView(Append(a, r, ready, done), Append(b, r, ready, done), r)
  {
    var rows := NewRows(r, a.runs[r].promote, ready, done);
    RecordsExtend(a.stageRuns, rows, r);
    RecordsExtend(b.stageRuns, rows, r);
  }

  lemma {:induction false} SameStatus(a: Db, b: Db, r: nat, run: Run)
    requires SameView(a, b, r)
    ensures SameView(WithRun(a, r, run), WithRun(b, r, run), r)
  {
  }

  lemma {:induction false} SameDispatch(a: Db, b: Db, r: nat, order: seq<StageDef>, reachable: set<string>,
                    done: map<string, nat>)
    requires SameView(a, b, r)
    ensures SameView(Dispatch(a, r, order, reachable, done), Dispatch(b, r, order, reachable, done), r)
  {
    var ra, rb := Records(a.stageRuns, r), Records(b.stageRuns, r);
    SameStarted(ra, rb);
    SameStarted(rb, ra);
    assert Started(ra) == Started(rb);
    hide Ready, Started, Records, Append;
    var ready := Ready(order, reachable, Started(ra), done);
    var a', b' := Append(a, r, ready, done), Append(b, r, ready, done);
    SameAppend(a, b, r, ready, done);
    SameStatus(a', b', r, a'.runs[r].(status :=
        StatusAfterDispatch(a.runs[r].status, ready != [], reachable <= done.Keys)));
  }

  lemma {:induction false} SameApply(a: Db, b: Db, r: nat, order: seq<StageDef>, reachable: set<string>, v: Verdict,
                    v': Verdict)
    requires SameView(a, b, r) && v.outcome == v'.outcome
    requires SameView(MarkFallback(a, v.fallback), MarkFallback(b, v'.fallback), r)
    ensures SameView(Apply(a, r, order, reachable, v), Apply(b, r, order, reachable, v'), r)
  {
    hide Dispatch;
    if v.outcome.Go? {
      SameDispatch(MarkFallback(a, v.fallback), MarkFallback(b, v'.fallback), r, order, reachable, v.outcome.done);
    }
  }

  /** The effect of progression on its own run is a function of what that run looks like. */
  lemma {:induction false} OwnEffect(env: Env, current: Currents, a: Db, b: Db, r: nat)
    requires SameView(a, b, r)
    ensures SameView(ProgressRun(env, current, a, r), ProgressRun(env, current, b, r), r)
  {
    hide Admit, Judge, Apply, MarkFallback;
    var run := a.runs[r];
    if !run.cancelRequested && Admit(env, run.spec).Admitted? {
      var Admitted(order, reachable, policy) := Admit(env, run.spec);
      var ra, rb := Records(a.stageRuns, r), Records(b.stageRuns, r);
      var v, v' := Judge(run.spec, ra, order, reachable, policy, current),
          Judge(run.spec, rb, order, reachable, policy, current);
      SameVerdict(run.spec, ra, rb, order, reachable, policy, current);
      SameMark(a, b, r, v.fallback, v'.fallback);
      SameApply(a, b, r, order, reachable, v, v');
    }
  }

  // ---- other runs ----------------------------------------------------------

  lemma {:induction false} RecordsOfOthers(rows: seq<StageRun>, rows': seq<StageRun>, r: nat)
    requires |rows| <= |rows'|
    requires forall i :: 0 <= i < |rows| ==> rows'[i] == rows[i] || (rows[i].run != r && rows'[i].run != r)
    requires forall i :: |rows| <= i < |rows'| ==> rows'[i].run != r
    ensures Records(rows', r) == Records(rows, r)
  {
    if |rows'| > |rows| {
      RecordsOfOthers(rows, rows'[..|rows'| - 1], r);
    } else if rows != [] {
      RecordsOfOthers(rows[..|rows| - 1], rows'[..|rows| - 1], r);
    }
  }

  /** Progression of one run is invisible to every other run. */
  lemma {:induction false} OthersUntouched(env: Env, current: Currents, db: Db, q: nat, r: nat)
    requires q < |db.runs| && r < |db.runs| && q != r && Active(db.runs[q].status)
    ensures var db' := ProgressRun(env, current, db, q);
            db'.runs[r] == db.runs[r] && Records(db'.stageRuns, r) == Records(db.stageRuns, r)
  {
    hide ProgressRun;
    ProgressRunProgressed(env, current, db, q);
    RecordsOfOthers(db.stageRuns, ProgressRun(env, current, db, q).stageRuns, r);
  }

  // ---- any visiting order --------------------------------------------------

  /** What a tick does to run r, taken alone. */
  ghost function Alone(env: Env, current: Currents, db: Db, r: nat): Db
    requires r < |db.runs|
  {
    if Active(db.runs[r].status) then ProgressRun(env, current, db, r) else db
  }

  ghost predicate Visits(db: Db, rs: seq<nat>) {
    && (forall k :: 0 <= k < |rs| ==> rs[k] < |db.runs|)
    && forall j, k :: 0 <= j < k < |rs| ==> rs[j] != rs[k]
  }

  /** After visiting any list of distinct runs, each run looks as if it had been visited alone, or not at all. */
  lemma {:induction false} VisitedAlone(env: Env, current: Currents, db: Db, rs: seq<nat>, r: nat)
    requires Visits(db, rs) && r < |db.runs|
    ensures SameView(ProgressList(env, current, db, rs), if r in rs then Alone(env, current, db, r) else db, r)
    decreases |rs|
  {
    hide ProgressRun;
    if rs != [] {
      var init, q := rs[..|rs| - 1], rs[|rs| - 1];
      assert rs == init + [q];
      VisitedAlone(env, current, db, init, r);
      var db' := ProgressList(env, current, db, init);
      if q == r {
        assert r !in init;
        assert SameView(db', db, r);
        if Active(db.runs[r].status) { OwnEffect(env, current, db', db, r); }
      } else if Active(db'.runs[q].status) {
        OthersUntouched(env, current, db', q, r);
      }
    }
  }

  /** The tick over all active runs gives every run the same outcome in any visiting order, up to allocated ids. */
  lemma {:induction false} OrderIrrelevant(env: Env, current: Currents, db: Db, rs: seq<nat>, rs': seq<nat>, r: nat)
    requires Visits(db, rs) && Visits(db, rs') && (forall q :: q in rs <==> q in rs') && r < |db.runs|
    ensures SameView(ProgressList(env, current, db, rs), ProgressList(env, current, db, rs'), r)
  {
    hide ProgressList, ProgressRun;
    VisitedAlone(env, current, db, rs, r);
    VisitedAlone(env, current, db, rs', r);
  }
}
