/** Cancellation is final, and a run cannot be quiet for ever: theorems about whole histories of one run. */
module Bounds {
  import opened Tables
  import opened Ticks
  import opened Evolution
  import opened Dispatching
  import opened RunInvariants
  import opened Completion
  import opened TickInvariants
  import opened Isolation
  import opened Liveness
  import opened Ledgers
  import opened ResourceStore
  import opened Protocol
  import opened ProtocolSafety
  import opened Guarantees

  // ---- one tick seen by one run -------------------------------------------

  /** A whole tick, with its intake and all the other runs, is to an existing run a tick of its own. */
  lemma {:induction false} TickOnRun(env: Env, current: Currents, now: int, db: Db, r: nat)
    requires r < |db.runs|
    ensures SameView(Tick(env, current, now, db), Alone(env, current, db, r), r)
  {
    var taken := Taken(env, now, db);
    TakenOnlyNewRuns(env, now, db);
    assert Tick(env, current, now, db) == ProgressList(env, current, taken, UpTo(|taken.runs|));
    hide ProgressRun, ProgressList, Taken, Tick;
    VisitedAlone(env, current, taken, UpTo(|taken.runs|), r);
    assert UpTo(|taken.runs|)[r] == r;
    if Active(db.runs[r].status) { OwnEffect(env, current, taken, db, r); }
  }

  /** The same for a run that this very tick took in. */
  lemma {:induction false} TickOnTaken(env: Env, current: Currents, now: int, db: Db, r: nat)
    requires r < |Taken(env, now, db).runs|
    ensures SameView(Tick(env, current, now, db), Alone(env, current, Taken(env, now, db), r), r)
  {
    var taken := Taken(env, now, db);
    assert Tick(env, current, now, db) == ProgressList(env, current, taken, UpTo(|taken.runs|));
    hide ProgressRun, ProgressList, Taken, Tick;
    VisitedAlone(env, current, taken, UpTo(|taken.runs|), r);
    assert UpTo(|taken.runs|)[r] == r;
  }

  lemma {:induction false} RecordsGrow(rows: seq<StageRun>, rows': seq<StageRun>, r: nat)
    requires |rows| <= |rows'| && forall i :: 0 <= i < |rows| ==> rows'[i].run == rows[i].run
    ensures |Records(rows, r)| <= |Records(rows', r)|
    ensures (exists i :: |rows| <= i < |rows'| && rows'[i].run == r) ==> |Records(rows, r)| < |Records(rows', r)|
  {
    if |rows'| > |rows| {
      RecordsGrow(rows, rows'[..|rows'| - 1], r);
      if i :| |rows| <= i < |rows'| && rows'[i].run == r {
        assert i < |rows'| - 1 ==> rows'[..|rows'| - 1][i].run == r;
      }
    } else if rows != [] {
      RecordsGrow(rows[..|rows| - 1], rows'[..|rows| - 1], r);
    }
  }

  lemma {:induction false} MovesGrow(w: World, w': World, r: nat)
    requires WorldMoves(w, w')
    ensures |Records(w.db.stageRuns, r)| <= |Records(w'.db.stageRuns, r)|
  {
    forall i | 0 <= i < |w.db.stageRuns| ensures w'.db.stageRuns[i].run == w.db.stageRuns[i].run {
      assert RowMoves(w.db.stageRuns[i], w'.db.stageRuns[i]);
    }
    RecordsGrow(w.db.stageRuns, w'.db.stageRuns, r);
  }

  // ---- cancellation --------------------------------------------------------

  /** The tick that sees a cancellation request cancels the run. */
  lemma {:induction false} CancelTick(env: Env, current: Currents, now: int, db: Db, r: nat)
    requires r < |db.runs| && db.runs[r].status in {Requested, Running} && db.runs[r].cancelRequested
    ensures r < |Tick(env, current, now, db).runs| && Tick(env, current, now, db).runs[r].status == Cancelled
  {
    hide Tick;
    TickOnRun(env, current, now, db, r);
  }

  ghost predicate NothingNewFor(rows: seq<StageRun>, rows': seq<StageRun>, r: nat) {
    |rows| <= |rows'| && forall i :: |rows| <= i < |rows'| ==> rows'[i].run != r
  }

  lemma {:induction false} CancelledTickAddsNothing(env: Env, w: World, w': World, now: int, r: nat)
    requires TickStep(env, w, w', now) && r < |w.db.runs| && w.db.runs[r].cancelRequested
    ensures NothingNewFor(w.db.stageRuns, w'.db.stageRuns, r)
  {
    TickMoves(env, w, w', now);
    var current := CurrentsOf(w.ledger);
    TickOnRun(env, current, now, w.db, r);
    assert Records(Alone(env, current, w.db, r).stageRuns, r) == Records(w.db.stageRuns, r);
    hide Tick, ProgressRun, Records, TickStep;
    forall i | 0 <= i < |w.db.stageRuns| ensures w'.db.stageRuns[i].run == w.db.stageRuns[i].run {
      assert RowMoves(w.db.stageRuns[i], w'.db.stageRuns[i]);
    }
    RecordsGrow(w.db.stageRuns, w'.db.stageRuns, r);
    assert |Records(w'.db.stageRuns, r)| == |Records(w.db.stageRuns, r)| by { SameLength(env, w, w', now, r); }
  }

  lemma {:induction false} SameLength(env: Env, w: World, w': World, now: int, r: nat)
    requires TickStep(env, w, w', now) && r < |w.db.runs| && w.db.runs[r].cancelRequested
    ensures |Records(w'.db.stageRuns, r)| == |Records(w.db.stageRuns, r)|
  {
    TickOnRun(env, CurrentsOf(w.ledger), now, w.db, r);
    hide Tick, Records;
  }

  lemma {:induction false} CancelledStepAddsNothing(env: Env, contracts: Contracts, w: World, w': World, r: nat)
    requires Inv(env, w) && Step(env, contracts, w, w') && r < |w.db.runs| && w.db.runs[r].cancelRequested
    ensures NothingNewFor(w.db.stageRuns, w'.db.stageRuns, r)
  {
    hide Inv, TickStep, ClientStep, WorkerStep, InjectStep, RollbackStep, PopStep;
    if now :| TickStep(env, w, w', now) {
      CancelledTickAddsNothing(env, w, w', now, r);
    } else {
      NoTickAddsNothing(env, contracts, w, w');
    }
  }

  /** Once a cancellation is requested, no stage run is ever created for that run, whatever happens next. */
  lemma {:induction false} NoDispatchAfterCancel(env: Env, contracts: Contracts, ws: seq<World>, t: nat, u: nat, r: nat)
    requires Behavior(env, contracts, ws) && t <= u < |ws|
    requires r < |ws[t].db.runs| && ws[t].db.runs[r].cancelRequested
    ensures r < |ws[u].db.runs| && ws[u].db.runs[r].cancelRequested
    ensures NothingNewFor(ws[t].db.stageRuns, ws[u].db.stageRuns, r)
    decreases u
  {
    hide Step, Init, Inv;
    if t < u {
      NoDispatchAfterCancel(env, contracts, ws, t, u - 1, r);
      Reachable(env, contracts, ws, u - 1);
      assert Step(env, contracts, ws[u - 1], ws[u - 1 + 1]);
      CancelledStepAddsNothing(env, contracts, ws[u - 1], ws[u], r);
      StepMoves(env, contracts, ws[u - 1], ws[u]);
      MoveChain(ws[t].db.stageRuns, ws[u - 1], ws[u], r);
    }
  }

  lemma {:induction false} MoveChain(rows: seq<StageRun>, w: World, w': World, r: nat)
    requires WorldMoves(w, w') && r < |w.db.runs| && w.db.runs[r].cancelRequested
    requires NothingNewFor(rows, w.db.stageRuns, r) && NothingNewFor(w.db.stageRuns, w'.db.stageRuns, r)
    ensures r < |w'.db.runs| && w'.db.runs[r].cancelRequested && NothingNewFor(rows, w'.db.stageRuns, r)
  {
    assert LaterRun(w.db.runs[r], w'.db.runs[r]);
    forall i | |rows| <= i < |w'.db.stageRuns| ensures w'.db.stageRuns[i].run != r {
      if i < |w.db.stageRuns| { assert RowMoves(w.db.stageRuns[i], w'.db.stageRuns[i]); }
    }
  }

  /** Terminal statuses are final, and a terminal run whose cancellation was requested is a cancelled one. */
  lemma {:induction false} TerminalForever(env: Env, contracts: Contracts, ws: seq<World>, t: nat, u: nat, r: nat)
    requires Behavior(env, contracts, ws) && t <= u < |ws| && r < |ws[t].db.runs|
    requires ws[t].db.runs[r].status in {Completed, Failed, Cancelled}
    ensures r < |ws[u].db.runs| && ws[u].db.runs[r] == ws[t].db.runs[r]
    ensures ws[t].db.runs[r].cancelRequested ==> ws[t].db.runs[r].status == Cancelled
    decreases u
  {
    hide Step, Init;
    Reachable(env, contracts, ws, t);
    if t < u {
      TerminalForever(env, contracts, ws, t, u - 1, r);
      Reachable(env, contracts, ws, u - 1);
      assert Step(env, contracts, ws[u - 1], ws[u - 1 + 1]);
      hide Inv;
      StepMoves(env, contracts, ws[u - 1], ws[u]);
      assert LaterRun(ws[u - 1].db.runs[r], ws[u].db.runs[r]);
    }
  }

  // ---- a bound on quiet ticks ---------------------------------------------

  /** A tick that finds a sensible run waiting: all its stage runs ended, at most one of them failed. */
  ghost predicate QuietTick(env: Env, w: World, w': World, r: nat) {
    && IsTick(env, w, w')
    && Waiting(env, w.db, r) && Sensible(env, w.db, r)
  }

  /** What a run still has ahead of it: stages not started, and its own end. */
  ghost function Remaining(env: Env, db: Db, r: nat): int {
    if r < |db.runs| && Admit(env, db.runs[r].spec).Admitted? then
      |Admit(env, db.runs[r].spec).reachable| - |Records(db.stageRuns, r)| + if Active(db.runs[r].status) then 1 else 0
    else 0
  }

  lemma {:induction false} DistinctStages(records: seq<Record>)
    requires forall i, j :: 0 <= i < j < |records| ==> records[i].row.stage != records[j].row.stage
    ensures |Started(records)| == |records|
  {
    if records != [] {
      var init, last := records[..|records| - 1], records[|records| - 1];
      assert records == init + [last];
      DistinctStages(init);
      assert Started(records) == Started(init) + {last.row.stage};
      assert last.row.stage !in Started(init);
    }
  }

  lemma {:induction false} RecordsDistinct(rows: seq<StageRun>, r: nat)
    requires OncePerStage(rows)
    ensures forall i, j :: 0 <= i < j < |Records(rows, r)|
                           ==> Records(rows, r)[i].row.stage != Records(rows, r)[j].row.stage
  {
    var records := Records(rows, r);
    RecordsAscend(rows, r);
    forall i, j | 0 <= i < j < |records| ensures records[i].row.stage != records[j].row.stage {
      RecordsMembers(rows, r, records[i]);
      RecordsMembers(rows, r, records[j]);
      assert records[i] in records && records[j] in records;
    }
  }

  /** A run never has more stage runs than reachable stages. */
  lemma {:induction false} RemainingNonNegative(env: Env, db: Db, known: set<Ref>, r: nat)
    requires DbInv(env, db, known)
    ensures Remaining(env, db, r) >= 0
  {
    hide Honest, Admit, Source;
    if r < |db.runs| && Admit(env, db.runs[r].spec).Admitted? {
      var records, reachable := Records(db.stageRuns, r), Admit(env, db.runs[r].spec).reachable;
      RecordsDistinct(db.stageRuns, r);
      DistinctStages(records);
      forall s | s in Started(records) ensures s in reachable {
        StartedIsHasRow(db.stageRuns, r, s);
        var i :| 0 <= i < |db.stageRuns| && db.stageRuns[i].run == r && db.stageRuns[i].stage == s;
        assert RowSourced(env, db.runs, db.stageRuns, known, i);
      }
      SubsetSize(Started(records), reachable);
    }
  }

  lemma {:induction false} SubsetSize(a: set<string>, b: set<string>)
    requires a <= b
    ensures |a| <= |b|
  {
    if a != {} {
      var x :| x in a;
      SubsetSize(a - {x}, b - {x});
    }
  }

  lemma {:induction false} RemainingFalls(env: Env, w: World, w': World, r: nat)
    requires WorldMoves(w, w') && r < |w.db.runs|
    ensures Remaining(env, w'.db, r) <= Remaining(env, w.db, r)
  {
    hide Admit;
    MovesGrow(w, w', r);
    assert LaterRun(w.db.runs[r], w'.db.runs[r]);
  }

  /** A quiet tick brings the run strictly nearer to its end. */
  lemma {:induction false} QuietTickFalls(env: Env, w: World, w': World, r: nat)
    requires QuietTick(env, w, w', r)
    ensures Remaining(env, w'.db, r) < Remaining(env, w.db, r)
  {
    var now :| TickStep(env, w, w', now);
    var current := CurrentsOf(w.ledger);
    var db1 := ProgressRun(env, current, w.db, r);
    assert Active(w.db.runs[r].status) && Admit(env, w.db.runs[r].spec).Admitted?;
    NoStuckRun(env, current, w.db, r);
    TickOnRun(env, current, now, w.db, r);
    ProgressRunProgressed(env, current, w.db, r);
    hide Admit, ProgressRun, Tick, Waiting, Sensible;
    assert LaterRun(w.db.runs[r], db1.runs[r]);
    RecordsGrow(w.db.stageRuns, db1.stageRuns, r);
    if |w.db.stageRuns| < |db1.stageRuns| {
      assert db1.stageRuns[|w.db.stageRuns|].run == r;
    }
    hide Records;
    assert Isolation.SameRows(Records(w'.db.stageRuns, r), Records(db1.stageRuns, r));
  }

  /** How many of the steps from world t on, up to world u, are quiet ticks of run r. */
  ghost function QuietTicks(env: Env, ws: seq<World>, t: nat, u: nat, r: nat): nat
    requires t <= u < |ws|
    decreases u - t
  {
    if t == u then 0 else QuietTicks(env, ws, t, u - 1, r) + if QuietTick(env, ws[u - 1], ws[u], r) then 1 else 0
  }

  lemma {:induction false} QuietTicksFall(env: Env, contracts: Contracts, ws: seq<World>, t: nat, u: nat, r: nat)
    requires Behavior(env, contracts, ws) && t <= u < |ws| && r < |ws[t].db.runs|
    ensures r < |ws[u].db.runs|
    ensures QuietTicks(env, ws, t, u, r) + Remaining(env, ws[u].db, r) <= Remaining(env, ws[t].db, r)
    decreases u - t
  {
    hide Step, Init, Inv, Remaining, QuietTick;
    if t < u {
      QuietTicksFall(env, contracts, ws, t, u - 1, r);
      Reachable(env, contracts, ws, u - 1);
      assert Step(env, contracts, ws[u - 1], ws[u - 1 + 1]);
      StepMoves(env, contracts, ws[u - 1], ws[u]);
      RemainingFalls(env, ws[u - 1], ws[u], r);
      if QuietTick(env, ws[u - 1], ws[u], r) { QuietTickFalls(env, ws[u - 1], ws[u], r); }
    }
  }

  /** In any history a run meets at most |reachable| + 1 quiet ticks: it cannot hang between waves of work. */
  lemma {:induction false} QuietTicksBounded(env: Env, contracts: Contracts, ws: seq<World>, t: nat, u: nat, r: nat)
    requires Behavior(env, contracts, ws) && t <= u < |ws| && r < |ws[t].db.runs|
    requires Admit(env, ws[t].db.runs[r].spec).Admitted?
    ensures QuietTicks(env, ws, t, u, r) <= |Admit(env, ws[t].db.runs[r].spec).reachable| + 1
  {
    QuietTicksFall(env, contracts, ws, t, u, r);
    Reachable(env, contracts, ws, u);
    hide QuietTick, Step, DbInv, Admit;
    RemainingNonNegative(env, ws[u].db, ws[u].known, r);
  }
}
