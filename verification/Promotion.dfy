/** Who promotes: only runs that ask for it, which by default are the full ones. */
module Promotion {
  import opened Stages
  import opened Tables
  import opened Ticks
  import opened Evolution
  import opened Dispatching
  import opened RunInvariants
  import opened TickInvariants
  import opened Ledgers
  import opened ResourceStore
  import opened Runner
  import opened Protocol
  import opened ProtocolSafety
  import opened Guarantees
  import opened IntakeFacts
  import opened Recurrence

  /** Every stage run inherits the promotion flag of its run. */
  ghost predicate PromoteFits(db: Db) {
    forall i :: 0 <= i < |db.stageRuns| ==>
      db.stageRuns[i].run < |db.runs| && db.stageRuns[i].promote == db.runs[db.stageRuns[i].run].promote
  }

  lemma {:induction false} OldPromotes(db: Db, db': Db, i: nat)
    requires PromoteFits(db) && i < |db.stageRuns| <= |db'.stageRuns| && |db.runs| <= |db'.runs|
    requires db'.stageRuns[i].run == db.stageRuns[i].run && db'.stageRuns[i].promote == db.stageRuns[i].promote
    requires forall r :: 0 <= r < |db.runs| ==> db'.runs[r].promote == db.runs[r].promote
    ensures db'.stageRuns[i].run < |db'.runs| && db'.stageRuns[i].promote == db'.runs[db'.stageRuns[i].run].promote
  {
  }

  lemma {:induction false} NewPromotes(env: Env, current: Currents, db: Db, r: nat, i: nat)
    requires r < |db.runs| && Active(db.runs[r].status)
    requires |db.stageRuns| <= i < |ProgressRun(env, current, db, r).stageRuns|
    ensures ProgressRun(env, current, db, r).stageRuns[i].run == r
    ensures ProgressRun(env, current, db, r).stageRuns[i].promote == db.runs[r].promote
  {
    hide ProgressRun, GoesOn;
    if order, reachable, fallback, done :| GoesOn(env, current, db, r, order, reachable, fallback, done) {
      var s := NewRowStage(env, current, db, r, order, reachable, fallback, done, i);
    } else {
      NoDispatchOtherwise(env, current, db, r);
    }
  }

  lemma {:induction false} ProgressPromotes(env: Env, current: Currents, db: Db, r: nat)
    requires r < |db.runs| && Active(db.runs[r].status) && PromoteFits(db)
    ensures PromoteFits(ProgressRun(env, current, db, r))
  {
    hide ProgressRun;
    var db' := ProgressRun(env, current, db, r);
    ProgressRunProgressed(env, current, db, r);
    forall q | 0 <= q < |db.runs|
        ensures db'.runs[q].promote == db.runs[q].promote { assert LaterRun(db.runs[q], db'.runs[q]); }
    forall i | 0 <= i < |db'.stageRuns|
      ensures db'.stageRuns[i].run < |db'.runs| && db'.stageRuns[i].promote == db'.runs[db'.stageRuns[i].run].promote
    {
      if i < |db.stageRuns| {
        assert MarkedRow(db.stageRuns[i], db'.stageRuns[i]);
        OldPromotes(db, db', i);
      } else {
        NewPromotes(env, current, db, r, i);
      }
    }
  }

  lemma {:induction false} ProgressListPromotes(env: Env, current: Currents, db: Db, rs: seq<nat>)
    requires (forall i :: 0 <= i < |rs| ==> rs[i] < |db.runs|) && PromoteFits(db)
    ensures PromoteFits(ProgressList(env, current, db, rs))
    decreases |rs|
  {
    hide ProgressRun, PromoteFits;
    if rs != [] {
      var init, r := rs[..|rs| - 1], rs[|rs| - 1];
      ProgressListPromotes(env, current, db, init);
      var db' := ProgressList(env, current, db, init);
      if Active(db'.runs[r].status) { ProgressPromotes(env, current, db', r); }
    }
  }

  lemma {:induction false} TickPromotes(env: Env, current: Currents, now: int, db: Db)
    requires PromoteFits(db)
    ensures PromoteFits(Tick(env, current, now, db))
  {
    var taken := Taken(env, now, db);
    TakenOnlyNewRuns(env, now, db);
    assert Tick(env, current, now, db) == ProgressList(env, current, taken, UpTo(|taken.runs|));
    hide Tick, Taken, ProgressList;
    ProgressListPromotes(env, current, taken, UpTo(|taken.runs|));
  }

  lemma {:induction false} StepPromotes(env: Env, contracts: Contracts, w: World, w': World)
    requires Inv(env, w) && Step(env, contracts, w, w') && PromoteFits(w.db)
    ensures PromoteFits(w'.db)
  {
    hide Inv, TickStep, ClientStep, WorkerStep, InjectStep, RollbackStep, PopStep;
    if now :| TickStep(env, w, w', now) {
      TickPromotes(env, CurrentsOf(w.ledger), now, w.db);
      TickIs(env, w, w', now);
    } else {
      StepMoves(env, contracts, w, w');
      NoTickAddsNothing(env, contracts, w, w');
      hide Step;
      forall r | 0 <= r < |w.db.runs|
          ensures w'.db.runs[r].promote == w.db.runs[r].promote { assert LaterRun(w.db.runs[r], w'.db.runs[r]); }
      forall i | 0 <= i < |w'.db.stageRuns|
        ensures w'.db.stageRuns[i].run < |w'.db.runs|
            && w'.db.stageRuns[i].promote == w'.db.runs[w'.db.stageRuns[i].run].promote
      {
        assert RowMoves(w.db.stageRuns[i], w'.db.stageRuns[i]);
        OldPromotes(w.db, w'.db, i);
      }
    }
  }

  lemma {:induction false} TickIs(env: Env, w: World, w': World, now: int)
    requires TickStep(env, w, w', now)
    ensures w'.db == Tick(env, CurrentsOf(w.ledger), now, w.db)
  {
    hide Tick;
  }

  lemma {:induction false} PromoteAlwaysFits(env: Env, contracts: Contracts, ws: seq<World>, t: nat)
    requires Behavior(env, contracts, ws) && t < |ws|
    ensures PromoteFits(ws[t].db)
  {
    hide Step, Inv;
    if t > 0 {
      PromoteAlwaysFits(env, contracts, ws, t - 1);
      Reachable(env, contracts, ws, t - 1);
      assert Step(env, contracts, ws[t - 1], ws[t - 1 + 1]);
      StepPromotes(env, contracts, ws[t - 1], ws[t]);
    }
  }

  // ---- who changes current versions -----------------------------------------

  lemma {:induction false} AttemptPromotes(contracts: Contracts, job: Job, l: Ledger, p: Phase, l': Ledger, p': Phase)
    requires AttemptStep(contracts, job, l, p, l', p') && !job.promote
    ensures CurrentsOf(l') == CurrentsOf(l)
  {
    if l' != l {
      match p {
        case Attempting(n) =>
          var value :| UploadStep(contracts, job, value, l, n, l', p');
          AppendCurrents(l, job.stage, value, job.isTest, contracts[job.stage](value));
        case Stored(n, v) => LinkCurrents(l, job.stage, v, job.refs);
        case _ =>
      }
    }
  }

  lemma {:induction false} AppendCurrents(l: Ledger, name: string, value: Value, isTest: bool, error: Option<string>)
    ensures CurrentsOf(Ledgers.Append(l, name, value, isTest, error)) == CurrentsOf(l)
  {
  }

  lemma {:induction false} LinkCurrents(l: Ledger, name: string, version: nat, deps: seq<Ref>)
    requires Exists(l, name, version)
    ensures CurrentsOf(Link(l, name, version, deps)) == CurrentsOf(l)
  {
  }

  /** The worker of a run that did not ask for promotion never changes a current version. */
  lemma {:induction false} UnaskedNeverPromotes(env: Env, contracts: Contracts, ws: seq<World>, t: nat, i: nat)
    requires Behavior(env, contracts, ws) && t + 1 < |ws| && WorkerStep(env, contracts, ws[t], ws[t + 1], i)
    ensures ws[t].db.stageRuns[i].run < |ws[t].db.runs|
    ensures !ws[t].db.runs[ws[t].db.stageRuns[i].run].promote
        ==> CurrentsOf(ws[t + 1].ledger) == CurrentsOf(ws[t].ledger)
  {
    PromoteAlwaysFits(env, contracts, ws, t);
    hide Behavior, AttemptStep, CurrentsOf;
    var w, w' := ws[t], ws[t + 1];
    var p := w.phases[i];
    if !w.db.stageRuns[i].promote && (p.Attempting? || p.Stored? || p.Linked?) {
      AttemptPromotes(contracts, JobOf(env, w.db, i), w.ledger, p, w'.ledger, w'.phases[i]);
    }
  }

  /** Hence a partial run whose schedule left the choice open moves none: only full runs promote by default. */
  lemma {:induction false} PartialRunsNeverPromote(env: Env, contracts: Contracts, ws: seq<World>, t: nat, s: nat,
                    i: nat)
    requires Behavior(env, contracts, ws) && t + 1 < |ws| && WorkerStep(env, contracts, ws[t], ws[t + 1], i)
    requires s < |ws[t].db.schedules| && ws[t].db.schedules[s].dispatchedTo == Some(ws[t].db.stageRuns[i].run)
    requires var schedule := ws[t].db.schedules[s];
        schedule.promote.None? && (schedule.spec.startFrom.Some? || schedule.spec.stopAfter.Some?)
    ensures CurrentsOf(ws[t + 1].ledger) == CurrentsOf(ws[t].ledger)
  {
    UnaskedNeverPromotes(env, contracts, ws, t, i);
    SchedulesAlwaysOk(env, contracts, ws, t);
    hide Behavior, WorkerStep, CurrentsOf;
    assert ScheduleOk(ws[t].db, s);
  }

  /** The same for a partial run that a rule spawned at step t, at any later step u. */
  lemma {:induction false} PartialFiringsNeverPromote(env: Env, contracts: Contracts, ws: seq<World>, t: nat, k: nat,
                    now: int, u: nat, i: nat)
    requires Behavior(env, contracts, ws) && FiresAt(env, ws, t, k, now) && t < u && u + 1 < |ws|
    requires WorkerStep(env, contracts, ws[u], ws[u + 1], i)
    requires ws[u].db.stageRuns[i].run == |ws[t].db.runs| + |Firings(ws[t].db.rules[..k], now)|
    requires var rule := ws[t].db.rules[k];
        rule.promote.None? && (rule.spec.startFrom.Some? || rule.spec.stopAfter.Some?)
    ensures CurrentsOf(ws[u + 1].ledger) == CurrentsOf(ws[u].ledger)
  {
    hide Behavior, WorkerStep, TickStep, Due, Firings, CurrentsOf;
    var q := FiringSpawns(env, ws, t, k, now);
    hide FiresAt;
    RequestStays(env, contracts, ws, t + 1, u, q);
    UnaskedNeverPromotes(env, contracts, ws, u, i);
  }
}
