/**
 * Stuck runs over whole histories: what a tick of the system does to them, and that nothing but a cancellation
 * frees them.
 */
module StuckRuns {
  import opened Tables
  import opened Ticks
  import opened Evolution
  import opened Dispatching
  import opened RunInvariants
  import opened Completion
  import opened TickInvariants
  import opened Liveness
  import opened Ledgers
  import opened ResourceStore
  import opened Protocol
  import opened ProtocolSafety
  import opened Guarantees
  import opened Bounds

  /** In a reachable world an active run whose stage runs have all ended is waiting: nothing else is assumed. */
  lemma {:induction false} EndedIsWaiting(env: Env, w: World, r: nat)
    requires Inv(env, w) && r < |w.db.runs|
    requires var run := w.db.runs[r]; Active(run.status) && !run.cancelRequested && Admit(env, run.spec).Admitted?
    requires forall i :: 0 <= i < |w.db.stageRuns| && w.db.stageRuns[i].run == r ==>
               w.db.stageRuns[i].status == Completed || w.db.stageRuns[i].status == Failed
    ensures Waiting(env, w.db, r)
  {
    hide Admit, Source, Honest, Lifecycle, LedgerInv, Jobs, OwnVersions;
    forall i | 0 <= i < |w.db.stageRuns| && w.db.stageRuns[i].run == r
      ensures w.db.stageRuns[i].stage in Admit(env, w.db.runs[r].spec).reachable
    {
      assert RowSourced(env, w.db.runs, w.db.stageRuns, w.known, i);
    }
  }

  lemma {:induction false} RowsGrowOnly(db: Db, db': Db, r: nat)
    requires OnlyRun(db, db', r)
    ensures |Records(db'.stageRuns, r)| > |Records(db.stageRuns, r)| <==> |db'.stageRuns| > |db.stageRuns|
  {
    RecordsGrow(db.stageRuns, db'.stageRuns, r);
    if |db'.stageRuns| > |db.stageRuns| {
      assert db'.stageRuns[|db.stageRuns|].run == r;
    } else {
      RecordsGrow(db'.stageRuns, db.stageRuns, r);
    }
  }

  /** A tick of the whole system takes a waiting run further, or ends it, if and only if the run is not stuck. */
  lemma {:induction false} TickMovesIff(env: Env, w: World, w': World, now: int, r: nat)
    requires TickStep(env, w, w', now) && Waiting(env, w.db, r)
    ensures r < |w'.db.runs|
    ensures |Records(w'.db.stageRuns, r)| > |Records(w.db.stageRuns, r)| || !Active(w'.db.runs[r].status)
       <==> !Stuck(env, CurrentsOf(w.ledger), w.db, r)
  {
    var current := CurrentsOf(w.ledger);
    var db1 := ProgressRun(env, current, w.db, r);
    assert Active(w.db.runs[r].status);
    StuckExactly(env, current, w.db, r);
    TickOnRun(env, current, now, w.db, r);
    ProgressRunProgressed(env, current, w.db, r);
    hide ProgressRun, Tick, Waiting, Stuck, Records, Progressed;
    RowsGrowOnly(w.db, db1, r);
  }

  // ---- for ever ------------------------------------------------------------

  lemma {:induction false} TickKeepsStuck(env: Env, w: World, w': World, now: int, r: nat)
    requires TickStep(env, w, w', now) && Waiting(env, w.db, r) && Stuck(env, CurrentsOf(w.ledger), w.db, r)
    ensures SameButMarks(w.db, w'.db, r)
  {
    var current := CurrentsOf(w.ledger);
    StuckIsSame(env, current, w.db, r);
    TickMovesIff(env, w, w', now, r);
    TickOnRun(env, current, now, w.db, r);
    TickTicked(env, current, now, w.db);
    assert w'.db == Tick(env, current, now, w.db);
    hide Tick, ProgressRun, Waiting, Stuck;
    forall i | 0 <= i < |w.db.stageRuns| ensures MarkedRow(w.db.stageRuns[i], w'.db.stageRuns[i]) {}
    hide Records;
    RecordsGrow(w.db.stageRuns, w'.db.stageRuns, r);
  }

  lemma {:induction false} OthersKeepRuns(env: Env, contracts: Contracts, w: World, w': World, r: nat)
    requires Step(env, contracts, w, w') && !IsTick(env, w, w') && r < |w.db.runs|
    ensures r < |w'.db.runs| && w'.db.runs[r].status == w.db.runs[r].status && w'.db.runs[r].spec == w.db.runs[r].spec
  {
    hide TickStep, JobOf, AcceptedRule;
  }

  /** No other step touches a run without open stage runs, except to ask for its cancellation. */
  lemma {:induction false} OthersKeepStuck(env: Env, contracts: Contracts, w: World, w': World, r: nat)
    requires Inv(env, w) && Step(env, contracts, w, w') && !IsTick(env, w, w') && Waiting(env, w.db, r)
    requires r < |w'.db.runs| && !w'.db.runs[r].cancelRequested
    ensures SameButMarks(w.db, w'.db, r)
  {
    OthersKeepRuns(env, contracts, w, w', r);
    StepMoves(env, contracts, w, w');
    forall now ensures !TickStep(env, w, w', now) {}
    NoTickAddsNothing(env, contracts, w, w');
    hide Step, Inv, Admit, TickStep, IsTick;
    forall i | 0 <= i < |w.db.stageRuns|
      ensures w'.db.stageRuns[i].run == w.db.stageRuns[i].run
      ensures w.db.stageRuns[i].run == r ==> MarkedRow(w.db.stageRuns[i], w'.db.stageRuns[i])
    {
      assert RowMoves(w.db.stageRuns[i], w'.db.stageRuns[i]);
    }
  }

  lemma {:induction false} CurrentsStay(l: Ledger, l': Ledger, n0: string, v0: nat)
    requires Keeps(l, l', n0, v0)
    ensures CurrentsOf(l).Keys <= CurrentsOf(l').Keys
  {
    forall n | n in CurrentsOf(l) ensures n in CurrentsOf(l') { assert HasCurrent(l, n) && HasCurrent(l', n); }
  }

  lemma {:induction false} StepKeepsStuck(env: Env, contracts: Contracts, w: World, w': World, r: nat)
    requires Inv(env, w) && Step(env, contracts, w, w') && Waiting(env, w.db, r)
        && Stuck(env, CurrentsOf(w.ledger), w.db, r)
    requires r < |w'.db.runs| && !w'.db.runs[r].cancelRequested
    ensures Waiting(env, w'.db, r) && Stuck(env, CurrentsOf(w'.ledger), w'.db, r)
    ensures SameButMarks(w.db, w'.db, r)
  {
    hide Inv, Step, TickStep, Waiting, Stuck, SameButMarks, Keeps;
    if now :| TickStep(env, w, w', now) {
      TickKeepsStuck(env, w, w', now, r);
    } else {
      OthersKeepStuck(env, contracts, w, w', r);
    }
    var n0, v0 := StepKeepsLedger(env, contracts, w, w');
    CurrentsStay(w.ledger, w'.ledger, n0, v0);
    SameStuck(env, CurrentsOf(w.ledger), CurrentsOf(w'.ledger), w.db, w'.db, r);
  }

  lemma {:induction false} StepKeepsCancel(w: World, w': World, r: nat)
    requires WorldMoves(w, w') && r < |w.db.runs|
    ensures r < |w'.db.runs| && (w.db.runs[r].cancelRequested ==> w'.db.runs[r].cancelRequested)
  {
    assert LaterRun(w.db.runs[r], w'.db.runs[r]);
  }

  lemma {:induction false} SameAddsNothing(rows: seq<StageRun>, db: Db, db': Db, r: nat)
    requires NothingNewFor(rows, db.stageRuns, r) && SameButMarks(db, db', r)
    ensures NothingNewFor(rows, db'.stageRuns, r)
  {
  }

  /** A stuck run stays stuck, and dispatches nothing, in every future in which nobody cancels it. */
  lemma {:induction false} StuckInHistory(env: Env, contracts: Contracts, ws: seq<World>, t: nat, u: nat, r: nat)
    requires Behavior(env, contracts, ws) && t <= u < |ws|
    requires Waiting(env, ws[t].db, r) && Stuck(env, CurrentsOf(ws[t].ledger), ws[t].db, r)
    requires r < |ws[u].db.runs| && !ws[u].db.runs[r].cancelRequested
    ensures Waiting(env, ws[u].db, r) && Stuck(env, CurrentsOf(ws[u].ledger), ws[u].db, r)
    ensures NothingNewFor(ws[t].db.stageRuns, ws[u].db.stageRuns, r)
    decreases u
  {
    hide Step, Init, Inv, Stuck, SameButMarks, NothingNewFor, WorldMoves;
    if t < u {
      Reachable(env, contracts, ws, u - 1);
      assert Step(env, contracts, ws[u - 1], ws[u - 1 + 1]);
      StepMoves(env, contracts, ws[u - 1], ws[u]);
      RequestStays(env, contracts, ws, t, u - 1, r);
      StepKeepsCancel(ws[u - 1], ws[u], r);
      hide Waiting;
      StuckInHistory(env, contracts, ws, t, u - 1, r);
      StepKeepsStuck(env, contracts, ws[u - 1], ws[u], r);
      SameAddsNothing(ws[t].db.stageRuns, ws[u - 1].db, ws[u].db, r);
    } else {
      NothingYet(ws[t].db.stageRuns, r);
    }
  }

  lemma {:induction false} NothingYet(rows: seq<StageRun>, r: nat)
    ensures NothingNewFor(rows, rows, r)
  {
  }
}
