/** The web client's depth of a stage is the tick at which the scheduler dispatches it. */
module LockStep {
  import opened Stages
  import opened Graphs
  import opened Tables
  import opened Ticks
  import opened Evolution
  import opened Dispatching
  import opened RunInvariants
  import opened TickInvariants
  import opened Isolation
  import opened Ledgers
  import opened ResourceStore
  import opened DagLayout
  import opened Protocol
  import opened ProtocolSafety
  import opened Guarantees
  import opened Bounds

  /** A full run of an admitted workflow, with the depths that the web client computes for it. */
  ghost predicate FullRun(env: Env, db: Db, r: nat, m: map<string, nat>) {
    r < |db.runs| &&
    var run := db.runs[r];
    && Active(run.status) && !run.cancelRequested
    && run.spec.startFrom.None? && run.spec.stopAfter.None?
    && Admit(env, run.spec).Admitted?
    && IsDepths(ByName(Admit(env, run.spec).order), m)
  }

  /** The run has executed exactly the stages of depth below k, all successfully. */
  ghost predicate DoneBelow(rows: seq<StageRun>, r: nat, m: map<string, nat>, k: nat) {
    && (forall i :: 0 <= i < |rows| && rows[i].run == r
                    ==> rows[i].status == Completed && rows[i].stage in m && m[rows[i].stage] < k)
    && forall n :: n in m && m[n] < k ==> HasRow(rows, r, n)
  }

  ghost predicate ExternalsPresent(order: seq<StageDef>, current: Currents) {
    forall s, d :: s in order && d in s.dependsOn && d !in Names(order) ==> d in current
  }

  lemma {:induction false} CompletedIff(rows: seq<StageRun>, r: nat, m: map<string, nat>, k: nat, n: string)
    requires DoneBelow(rows, r, m, k) && n in m
    ensures (exists v :: CompletedRow(rows, r, n, v)) <==> m[n] < k
    ensures HasRow(rows, r, n) <==> m[n] < k
  {
    if m[n] < k {
      var i :| 0 <= i < |rows| && rows[i].run == r && rows[i].stage == n;
      assert CompletedRow(rows, r, n, rows[i].output);
    }
    if v :| CompletedRow(rows, r, n, v) {
      var i :| 0 <= i < |rows| && rows[i].run == r && rows[i].stage == n && rows[i].status == Completed
          && rows[i].output == v;
    }
  }

  lemma {:induction false} NothingFailed(rows: seq<StageRun>, r: nat, m: map<string, nat>, k: nat)
    requires DoneBelow(rows, r, m, k)
    ensures FailedOf(Records(rows, r)) == []
  {
    var records := Records(rows, r);
    var failed := FailedOf(records);
    if failed != [] {
      FailedMembers(records, failed[0]);
      RecordsMembers(rows, r, failed[0]);
    }
  }

  /** Such a run reaches the dispatch loop, with exactly the shallower stages done. */
  lemma {:induction false} GoesOnInStep(env: Env, current: Currents, db: Db, r: nat, m: map<string, nat>,
                    k: nat) returns (done: map<string, nat>)
    requires FullRun(env, db, r, m) && DoneBelow(db.stageRuns, r, m, k)
    requires ExternalsPresent(Admit(env, db.runs[r].spec).order, current)
    ensures var a := Admit(env, db.runs[r].spec);
            && GoesOn(env, current, db, r, a.order, a.reachable, None, done)
            && (forall n <- m :: n in done <==> m[n] < k)
            && forall s, d :: s in a.order && d in s.dependsOn && d !in Names(a.order) ==> d in done
  {
    var spec, rows := db.runs[r].spec, db.stageRuns;
    var a := Admit(env, spec);
    AdmittedOrder(env, spec);
    hide Admit, DoneBelow, IsDepths;
    NothingFailed(rows, r, m, k);
    var v := Judge(spec, Records(rows, r), a.order, a.reachable, a.policy, current);
    assert v.outcome.Go?;
    done := v.outcome.done;
    hide Judge;
    forall n | n in m ensures n in done <==> m[n] < k {
      CompletedIff(rows, r, m, k, n);
      DoneSources(spec, rows, r, a.order, a.reachable, a.policy, current, n);
      DoneContains(spec, rows, r, a.order, a.reachable, a.policy, current, n);
      DepthsKeys(a.order, m);
    }
    forall s, d | s in a.order && d in s.dependsOn && d !in Names(a.order) ensures d in done {
      DoneContains(spec, rows, r, a.order, a.reachable, a.policy, current, d);
      assert s.name in a.reachable;
    }
  }

  lemma {:induction false} DepthsKeys(o: seq<StageDef>, m: map<string, nat>)
    requires IsDepths(ByName(o), m)
    ensures m.Keys == Names(o)
  {
  }

  /** Ready are the stages whose dependencies all lie below k while they do not: those of depth k. */
  lemma {:induction false} ReadyIsDepth(o: seq<StageDef>, m: map<string, nat>, done: map<string, nat>,
                    started: set<string>, k: nat, s: StageDef)
    requires IsOrder(o) && IsDepths(ByName(o), m) && s in o
    requires forall n <- m :: n in done <==> m[n] < k
    requires forall n <- m :: n in started <==> m[n] < k
    requires forall d :: d in s.dependsOn && d !in Names(o) ==> d in done
    ensures IsReady(s, Names(o), started, done) <==> m[s.name] == k
  {
    ByNameOfDistinct(o);
    var i :| 0 <= i < |o| && o[i] == s;
    var g, deps := ByName(o), s.dependsOn;
    assert g[s.name] == s && DepthAt(g, m, s.name);
    DepthsKeys(o, m);
    hide IsDepths, ByName, IsOrder;
    if m[s.name] == k {
      forall d | d in deps ensures d in done {
        var j :| 0 <= j < |deps| && deps[j] == d;
      }
    }
    if m[s.name] > k {
      var j :| 0 <= j < |deps| && deps[j] in g && m[s.name] == m[deps[j]] + 1;
      assert deps[j] in deps && deps[j] !in done;
    }
  }

  lemma {:induction false} StartedBelow(rows: seq<StageRun>, r: nat, m: map<string, nat>, k: nat)
    requires DoneBelow(rows, r, m, k)
    ensures forall n <- m :: n in Started(Records(rows, r)) <==> m[n] < k
  {
    hide DoneBelow, HasRow, Started, Records;
    forall n | n in m ensures n in Started(Records(rows, r)) <==> m[n] < k {
      StartedIsHasRow(rows, r, n);
      CompletedIff(rows, r, m, k, n);
    }
  }

  lemma {:induction false} EndsBelow(status: Status, ready: seq<StageDef>, m: map<string, nat>, done: map<string, nat>,
                    k: nat)
    requires Active(status) && forall n <- m :: n in done <==> m[n] < k
    ensures StatusAfterDispatch(status, ready != [], m.Keys <= done.Keys) == Completed <==> forall n <- m :: m[n] < k
  {
  }

  /** One tick dispatches exactly the stages of depth k, and ends the run when there is nothing that deep. */
  lemma {:induction false} TickDispatchesDepth(env: Env, current: Currents, db: Db, r: nat, m: map<string, nat>, k: nat)
    requires FullRun(env, db, r, m) && DoneBelow(db.stageRuns, r, m, k)
    requires ExternalsPresent(Admit(env, db.runs[r].spec).order, current)
    ensures var db' := ProgressRun(env, current, db, r);
            && |db.stageRuns| <= |db'.stageRuns|
            && (forall i :: |db.stageRuns| <= i < |db'.stageRuns|
                            ==> db'.stageRuns[i].stage in m && m[db'.stageRuns[i].stage] == k)
            && (forall n <- m :: m[n] == k
                                 ==> exists i :: |db.stageRuns| <= i < |db'.stageRuns| && db'.stageRuns[i].stage == n)
            && (db'.runs[r].status == Completed <==> forall n <- m :: m[n] < k)
  {
    var rows, db' := db.stageRuns, ProgressRun(env, current, db, r);
    var a := Admit(env, db.runs[r].spec);
    var done := GoesOnInStep(env, current, db, r, m, k);
    AdmittedOrder(env, db.runs[r].spec);
    assert a.Admitted? && Active(db.runs[r].status) && IsDepths(ByName(a.order), m);
    assert a.reachable == Names(a.order);
    hide *;
    DepthsKeys(a.order, m);
    DispatchExactly(env, current, db, r, a.order, a.reachable, None, done);
    StartedBelow(rows, r, m, k);
    var started := Started(Records(rows, r));
    var ready := Ready(a.order, a.reachable, started, done);
    forall s | s in a.order ensures s in ready <==> m[s.name] == k {
      ReadyIsDepth(a.order, m, done, started, k, s);
    }
    EndsBelow(db.runs[r].status, ready, m, done, k);
    NewRowStages(rows, db'.stageRuns, r, db.runs[r].promote, a.order, ready, done, m, k);
  }

  lemma {:induction false} NewRowStages(rows: seq<StageRun>, rows': seq<StageRun>, r: nat, promote: bool,
                    o: seq<StageDef>, ready: seq<StageDef>,
                     done: map<string, nat>, m: map<string, nat>, k: nat)
    requires AllIn(ready, done) && rows' == rows + NewRows(r, promote, ready, done)
    requires m.Keys == Names(o) && (forall s <- ready :: s in o) && forall s <- o :: s in ready <==> m[s.name] == k
    ensures forall i :: |rows| <= i < |rows'| ==> rows'[i].stage in m && m[rows'[i].stage] == k
    ensures forall n <- m :: m[n] == k ==> exists i :: |rows| <= i < |rows'| && rows'[i].stage == n
  {
    forall i | |rows| <= i < |rows'| ensures rows'[i].stage in m && m[rows'[i].stage] == k {
      assert rows'[i].stage == ready[i - |rows|].name && ready[i - |rows|] in ready;
    }
    forall n | n in m && m[n] == k ensures exists i :: |rows| <= i < |rows'| && rows'[i].stage == n {
      var s :| s in o && s.name == n;
      var j :| 0 <= j < |ready| && ready[j] == s;
      assert rows'[|rows| + j].stage == n;
    }
  }

  // ---- one tick of the system ----------------------------------------------

  /** The stage runs that a tick in lock step leaves. */
  ghost predicate OneDeeper(db: Db, mid: Db, r: nat, m: map<string, nat>, k: nat) {
    && OnlyRun(db, mid, r)
    && (forall i :: 0 <= i < |db.stageRuns| ==> MarkedRow(db.stageRuns[i], mid.stageRuns[i]))
    && (forall i :: |db.stageRuns| <= i < |mid.stageRuns|
                    ==> mid.stageRuns[i].stage in m && m[mid.stageRuns[i].stage] == k)
    && (forall n <- m :: m[n] == k ==> exists i :: |db.stageRuns| <= i < |mid.stageRuns| && mid.stageRuns[i].stage == n)
  }

  lemma {:induction false} RowIn(db: Db, mid: Db, r: nat, m: map<string, nat>, k: nat, n: string)
    requires DoneBelow(db.stageRuns, r, m, k) && n in m && m[n] < k + 1
    requires OneDeeper(db, mid, r, m, k)
    ensures HasRow(mid.stageRuns, r, n)
  {
    var j: nat;
    if m[n] < k {
      assert HasRow(db.stageRuns, r, n);
      j :| 0 <= j < |db.stageRuns| && db.stageRuns[j].run == r && db.stageRuns[j].stage == n;
    } else {
      j :| |db.stageRuns| <= j < |mid.stageRuns| && mid.stageRuns[j].stage == n;
    }
    assert mid.stageRuns[j].run == r && mid.stageRuns[j].stage == n;
  }

  lemma {:induction false} RowDepth(db: Db, mid: Db, r: nat, m: map<string, nat>, k: nat, n: string)
    requires DoneBelow(db.stageRuns, r, m, k) && OneDeeper(db, mid, r, m, k) && HasRow(mid.stageRuns, r, n)
    ensures n in m && m[n] < k + 1
  {
    var j :| 0 <= j < |mid.stageRuns| && mid.stageRuns[j].run == r && mid.stageRuns[j].stage == n;
    assert j < |db.stageRuns| ==> MarkedRow(db.stageRuns[j], mid.stageRuns[j]);
  }

  /** Progression leaves stage runs for exactly the stages down to depth k. */
  lemma {:induction false} ProgressDeepens(env: Env, current: Currents, db: Db, r: nat, m: map<string, nat>, k: nat)
    requires FullRun(env, db, r, m) && DoneBelow(db.stageRuns, r, m, k)
    requires ExternalsPresent(Admit(env, db.runs[r].spec).order, current)
    ensures var db' := ProgressRun(env, current, db, r);
            && (forall n :: HasRow(db'.stageRuns, r, n) <==> n in m && m[n] < k + 1)
            && (db'.runs[r].status == Completed <==> forall n <- m :: m[n] < k)
  {
    var mid := ProgressRun(env, current, db, r);
    assert Active(db.runs[r].status);
    TickDispatchesDepth(env, current, db, r, m, k);
    ProgressRunProgressed(env, current, db, r);
    hide Admit, ProgressRun, FullRun, ExternalsPresent, DoneBelow, HasRow;
    assert OneDeeper(db, mid, r, m, k);
    forall n ensures HasRow(mid.stageRuns, r, n) <==> n in m && m[n] < k + 1 {
      if HasRow(mid.stageRuns, r, n) { RowDepth(db, mid, r, m, k, n); }
      if n in m && m[n] < k + 1 { RowIn(db, mid, r, m, k, n); }
    }
  }

  lemma {:induction false} SameViewRows(a: Db, b: Db, r: nat, n: string)
    requires SameView(a, b, r)
    ensures HasRow(a.stageRuns, r, n) <==> HasRow(b.stageRuns, r, n)
  {
    SameStarted(Records(a.stageRuns, r), Records(b.stageRuns, r));
    SameStarted(Records(b.stageRuns, r), Records(a.stageRuns, r));
    StartedIsHasRow(a.stageRuns, r, n);
    StartedIsHasRow(b.stageRuns, r, n);
  }

  /** A whole tick does this to the run, whether the run is new or old, and whatever else the tick does. */
  lemma {:induction false} TickDeepens(env: Env, w: World, w': World, now: int, r: nat, m: map<string, nat>, k: nat)
    requires TickStep(env, w, w', now)
    requires var db := Taken(env, now, w.db);
             && FullRun(env, db, r, m) && DoneBelow(db.stageRuns, r, m, k)
             && ExternalsPresent(Admit(env, db.runs[r].spec).order, CurrentsOf(w.ledger))
    ensures r < |w'.db.runs|
    ensures forall n :: HasRow(w'.db.stageRuns, r, n) <==> n in m && m[n] < k + 1
    ensures w'.db.runs[r].status == Completed <==> forall n <- m :: m[n] < k
  {
    var current, db := CurrentsOf(w.ledger), Taken(env, now, w.db);
    assert w'.db == Tick(env, current, now, w.db) && Active(db.runs[r].status);
    hide Tick, Taken, FullRun, ProgressRun, DoneBelow, HasRow, Admit, TickStep, Isolation.SameRows, ExternalsPresent;
    ProgressDeepens(env, current, db, r, m, k);
    TickOnTaken(env, current, now, w.db, r);
    forall n ensures HasRow(w'.db.stageRuns, r, n) <==> n in m && m[n] < k + 1 {
      SameViewRows(w'.db, ProgressRun(env, current, db, r), r, n);
    }
  }

  // ---- whole runs ----------------------------------------------------------

  ghost predicate NoTickBetween(env: Env, ws: seq<World>, t: nat, u: nat) {
    forall s :: t <= s < u && s + 1 < |ws| ==> !IsTick(env, ws[s], ws[s + 1])
  }

  /** All stage runs of a run have completed, and nobody stopped it. */
  ghost predicate AllCompleted(db: Db, r: nat) {
    && r < |db.runs| && Active(db.runs[r].status) && !db.runs[r].cancelRequested
    && forall i :: 0 <= i < |db.stageRuns| && db.stageRuns[i].run == r ==> db.stageRuns[i].status == Completed
  }

  /** The full run of a workflow whose stages have the depths m. */
  ghost predicate FullSpec(env: Env, spec: Spec, m: map<string, nat>) {
    && spec.startFrom.None? && spec.stopAfter.None? && Admit(env, spec).Admitted?
    && IsDepths(ByName(Admit(env, spec).order), m)
  }

  /** Tick k takes the run in if it is the first; at any other, whatever the tick before dispatched has completed. */
  ghost predicate AtTick(env: Env, ws: seq<World>, r: nat, spec: Spec, ts: seq<(nat, int)>, k: nat)
    requires k < |ts|
  {
    var t := ts[k].0;
    && TickAtStep(env, ws, t, ts[k].1)
    && Admit(env, spec).Admitted? && ExternalsPresent(Admit(env, spec).order, CurrentsOf(ws[t].ledger))
    && if k == 0 then |ws[t].db.runs| <= r < |ws[t + 1].db.runs| && ws[t + 1].db.runs[r].spec == spec
       else ts[k - 1].0 < t && NoTickBetween(env, ws, ts[k - 1].0 + 1, t) && AllCompleted(ws[t].db, r)
  }

  /**
   * A history seen by one full run: its ticks ts, the first of which takes the run in. Whatever it dispatched has
   * completed by the next tick, and the external resources are current at each of them.
   */
  ghost predicate InLockStep(env: Env, ws: seq<World>, r: nat, spec: Spec, m: map<string, nat>, ts: seq<(nat, int)>) {
    FullSpec(env, spec, m) && forall k :: 0 <= k < |ts| ==> AtTick(env, ws, r, spec, ts, k)
  }

  lemma {:induction false} SameRowsStep(env: Env, contracts: Contracts, w: World, w': World, r: nat, n: string)
    requires Inv(env, w) && Step(env, contracts, w, w') && !IsTick(env, w, w')
    ensures HasRow(w'.db.stageRuns, r, n) <==> HasRow(w.db.stageRuns, r, n)
  {
    StepMoves(env, contracts, w, w');
    forall now ensures !TickStep(env, w, w', now) {}
    NoTickAddsNothing(env, contracts, w, w');
    hide Inv, Step, IsTick, TickStep;
    forall i | 0 <= i < |w.db.stageRuns|
      ensures w'.db.stageRuns[i].run == w.db.stageRuns[i].run && w'.db.stageRuns[i].stage == w.db.stageRuns[i].stage
    {
      assert RowMoves(w.db.stageRuns[i], w'.db.stageRuns[i]);
    }
    if HasRow(w.db.stageRuns, r, n) {
      var i :| 0 <= i < |w.db.stageRuns| && w.db.stageRuns[i].run == r && w.db.stageRuns[i].stage == n;
      assert w'.db.stageRuns[i].run == r && w'.db.stageRuns[i].stage == n;
    }
  }

  /** Between ticks a run gets no stage run. */
  lemma {:induction false} SameRowsBetween(env: Env, contracts: Contracts, ws: seq<World>, t: nat, u: nat, r: nat,
                    n: string)
    requires Behavior(env, contracts, ws) && t <= u < |ws| && NoTickBetween(env, ws, t, u)
    ensures HasRow(ws[u].db.stageRuns, r, n) <==> HasRow(ws[t].db.stageRuns, r, n)
    decreases u
  {
    hide Step, Init, Inv, HasRow, IsTick;
    if t < u {
      SameRowsBetween(env, contracts, ws, t, u - 1, r, n);
      Reachable(env, contracts, ws, u - 1);
      assert Step(env, contracts, ws[u - 1], ws[u - 1 + 1]);
      assert !IsTick(env, ws[u - 1], ws[u - 1 + 1]);
      SameRowsStep(env, contracts, ws[u - 1], ws[u], r, n);
    }
  }

  lemma {:induction false} NobodyYet(env: Env, w: World, r: nat, m: map<string, nat>)
    requires Inv(env, w) && |w.db.runs| <= r
    ensures DoneBelow(w.db.stageRuns, r, m, 0)
  {
    hide Lifecycle, LedgerInv, Jobs, OwnVersions;
    forall i | 0 <= i < |w.db.stageRuns| ensures w.db.stageRuns[i].run < |w.db.runs| { assert MessageFor(w.db, i); }
  }

  lemma {:induction false} CompletedBelow(db: Db, r: nat, m: map<string, nat>, k: nat)
    requires AllCompleted(db, r) && forall n :: HasRow(db.stageRuns, r, n) <==> n in m && m[n] < k
    ensures DoneBelow(db.stageRuns, r, m, k)
  {
    forall i | 0 <= i < |db.stageRuns| && db.stageRuns[i].run == r
        ensures db.stageRuns[i].stage in m && m[db.stageRuns[i].stage] < k {
      assert HasRow(db.stageRuns, r, db.stageRuns[i].stage);
    }
  }

  lemma {:induction false} TakenFull(env: Env, w: World, w': World, now: int, r: nat, spec: Spec, m: map<string, nat>)
    requires TickStep(env, w, w', now) && FullSpec(env, spec, m)
    requires r < |w'.db.runs| && w'.db.runs[r].spec == spec && (r < |w.db.runs| ==> AllCompleted(w.db, r))
    ensures var db := Taken(env, now, w.db);
            FullRun(env, db, r, m) && db.runs[r].spec == spec && db.stageRuns == w.db.stageRuns
  {
    var db := Taken(env, now, w.db);
    TakenOnlyNewRuns(env, now, w.db);
    assert w'.db == ProgressList(env, CurrentsOf(w.ledger), db, UpTo(|db.runs|));
    hide Tick, Taken, ProgressList, Admit, IsDepths, TickStep;
    ProgressListProgressed(env, CurrentsOf(w.ledger), db, UpTo(|db.runs|));
    assert LaterRun(db.runs[r], w'.db.runs[r]);
    assert r >= |w.db.runs| ==> Fresh(db.runs[r]);
  }

  lemma {:induction false} TicksAscend(env: Env, ws: seq<World>, r: nat, spec: Spec, m: map<string, nat>,
                    ts: seq<(nat, int)>, k: nat)
    requires InLockStep(env, ws, r, spec, m, ts) && k < |ts|
    ensures ts[0].0 <= ts[k].0
  {
    hide FullSpec, TickAtStep, ExternalsPresent, Admit, NoTickBetween, AllCompleted;
    if k > 0 {
      TicksAscend(env, ws, r, spec, m, ts, k - 1);
      assert AtTick(env, ws, r, spec, ts, k);
    }
  }

  /** What is there when tick k begins: one completed stage run for each stage of depth below k. */
  lemma {:induction false} LockStepBefore(env: Env, contracts: Contracts, ws: seq<World>, r: nat, spec: Spec,
                    m: map<string, nat>, ts: seq<(nat, int)>, k: nat)
    requires Behavior(env, contracts, ws) && InLockStep(env, ws, r, spec, m, ts) && k < |ts|
    ensures ts[k].0 + 1 < |ws| && DoneBelow(ws[ts[k].0].db.stageRuns, r, m, k)
    decreases k, 0
  {
    hide FullSpec, TickStep, ExternalsPresent, Admit, NoTickBetween, AllCompleted, Behavior, Inv, HasRow, DoneBelow;
    var t := ts[k].0;
    assert AtTick(env, ws, r, spec, ts, k);
    if k == 0 {
      Reachable(env, contracts, ws, t);
      NobodyYet(env, ws[t], r, m);
    } else {
      var u := ts[k - 1].0 + 1;
      LockStepDepth(env, contracts, ws, r, spec, m, ts, k - 1);
      hide *;
      forall n ensures HasRow(ws[t].db.stageRuns, r, n) <==> n in m && m[n] < k {
        SameRowsBetween(env, contracts, ws, u, t, r, n);
      }
      CompletedBelow(ws[t].db, r, m, k);
    }
  }

  /** What tick k leaves: one stage run for each stage of depth up to k. */
  lemma {:induction false} LockStepDepth(env: Env, contracts: Contracts, ws: seq<World>, r: nat, spec: Spec,
                    m: map<string, nat>, ts: seq<(nat, int)>, k: nat)
    requires Behavior(env, contracts, ws) && InLockStep(env, ws, r, spec, m, ts) && k < |ts|
    ensures ts[k].0 + 1 < |ws| && r < |ws[ts[k].0 + 1].db.runs|
    ensures forall n :: HasRow(ws[ts[k].0 + 1].db.stageRuns, r, n) <==> n in m && m[n] < k + 1
    ensures ws[ts[k].0 + 1].db.runs[r].status == Completed <==> forall n <- m :: m[n] < k
    decreases k, 1
  {
    var t, now := ts[k].0, ts[k].1;
    LockStepBefore(env, contracts, ws, r, spec, m, ts, k);
    LockStepTaken(env, contracts, ws, r, spec, m, ts, k);
    hide *;
    TickDeepens(env, ws[t], ws[t + 1], now, r, m, k);
  }

  lemma {:induction false} LockStepTaken(env: Env, contracts: Contracts, ws: seq<World>, r: nat, spec: Spec,
                    m: map<string, nat>, ts: seq<(nat, int)>, k: nat)
    requires Behavior(env, contracts, ws) && InLockStep(env, ws, r, spec, m, ts) && k < |ts|
    ensures ts[k].0 + 1 < |ws| && TickStep(env, ws[ts[k].0], ws[ts[k].0 + 1], ts[k].1)
    ensures var w := ws[ts[k].0];
            var db := Taken(env, ts[k].1, w.db);
            && FullRun(env, db, r, m) && db.runs[r].spec == spec && db.stageRuns == w.db.stageRuns
            && ExternalsPresent(Admit(env, spec).order, CurrentsOf(w.ledger))
  {
    hide FullSpec, TickStep, ExternalsPresent, Admit, NoTickBetween, AllCompleted, Behavior, Taken, FullRun;
    assert AtTick(env, ws, r, spec, ts, k);
    assert AtTick(env, ws, r, spec, ts, 0);
    TicksAscend(env, ws, r, spec, m, ts, k);
    var first, w, w', now := ts[0].0 + 1, ws[ts[k].0], ws[ts[k].0 + 1], ts[k].1;
    assert r < |ws[first].db.runs| && ws[first].db.runs[r].spec == spec;
    assert r < |w.db.runs| ==> AllCompleted(w.db, r);
    hide AtTick;
    RequestStays(env, contracts, ws, first, ts[k].0 + 1, r);
    TakenFull(env, w, w', now, r, spec, m);
  }

  /**
   * The k-th tick of such a history gives a stage its stage run if and only if the web client computes depth k for
   * it, and it completes the run if and only if no stage is that deep.
   */
  lemma {:induction false} TickIsDepth(env: Env, contracts: Contracts, ws: seq<World>, r: nat, spec: Spec,
                    m: map<string, nat>, ts: seq<(nat, int)>, k: nat, n: string)
    requires Behavior(env, contracts, ws) && InLockStep(env, ws, r, spec, m, ts) && k < |ts|
    ensures ts[k].0 + 1 < |ws| && r < |ws[ts[k].0 + 1].db.runs|
    ensures !HasRow(ws[ts[k].0].db.stageRuns, r, n) && HasRow(ws[ts[k].0 + 1].db.stageRuns, r, n)
            <==> n in m && m[n] == k
    ensures ws[ts[k].0 + 1].db.runs[r].status == Completed <==> forall n <- m :: m[n] < k
  {
    hide InLockStep, Behavior;
    LockStepBefore(env, contracts, ws, r, spec, m, ts, k);
    LockStepDepth(env, contracts, ws, r, spec, m, ts, k);
    var rows := ws[ts[k].0].db.stageRuns;
    if n in m { CompletedIff(rows, r, m, k, n); }
  }
}
