/** The invariants of the tables, kept by whole ticks. */
module TickInvariants {
  import opened Stages
  import opened Tables
  import opened Ticks
  import opened Evolution
  import opened Dispatching
  import opened RunInvariants
  import opened Completion
  import opened Ledgers

  /** A terminal run whose cancellation was requested in time is a cancelled run. */
  ghost predicate CancelHonoured(db: Db) {
    forall r :: 0 <= r < |db.runs| && db.runs[r].cancelRequested && !Active(db.runs[r].status)
                ==> db.runs[r].status == Cancelled
  }

  /** A stage is papered over only under the fallback policy and only by a version that was current. */
  ghost predicate FallbackMark(env: Env, runs: seq<Run>, row: StageRun, known: set<Ref>) {
    row.usedFallback ==>
      && row.run < |runs| && Admit(env, runs[row.run].spec).Admitted?
          && Admit(env, runs[row.run].spec).policy == Fallback
      && exists v :: Ref(row.stage, v) in known
  }

  ghost predicate FallbacksBacked(env: Env, db: Db, known: set<Ref>) {
    forall i :: 0 <= i < |db.stageRuns| ==> FallbackMark(env, db.runs, db.stageRuns[i], known)
  }

  ghost predicate DbInv(env: Env, db: Db, known: set<Ref>) {
    && OneMessageEach(db) && OncePerStage(db.stageRuns) && Sourced(env, db, known)
    && Honest(env, db) && CancelHonoured(db) && FallbacksBacked(env, db, known)
  }

  /** The only stage run that a tick marks is the first failed one, under the fallback policy. */
  lemma {:induction false} MarkedWhy(env: Env, current: Currents, db: Db, r: nat, i: nat)
    requires r < |db.runs| && i < |db.stageRuns|
    requires i < |ProgressRun(env, current, db, r).stageRuns|
        && ProgressRun(env, current, db, r).stageRuns[i] != db.stageRuns[i]
    ensures db.stageRuns[i].run == r && db.stageRuns[i].stage in current
    ensures Admit(env, db.runs[r].spec).Admitted? && Admit(env, db.runs[r].spec).policy == Fallback
  {
    hide Admit, Judge;
    var spec := db.runs[r].spec;
    var a := Admit(env, spec);
    if a.Admitted? { FallbackRecord(spec, db.stageRuns, r, a.order, a.reachable, a.policy, current); }
  }

  lemma {:induction false} FallbackMarkKept(env: Env, runs: seq<Run>, runs': seq<Run>, row: StageRun, row': StageRun,
                    known: set<Ref>, known': set<Ref>)
    requires FallbackMark(env, runs, row, known) && known <= known'
    requires |runs| <= |runs'| && forall q :: 0 <= q < |runs| ==> runs'[q].spec == runs[q].spec
    requires row'.run == row.run && row'.stage == row.stage && (row'.usedFallback ==> row.usedFallback)
    ensures FallbackMark(env, runs', row', known')
  {
    hide Admit;
  }

  lemma {:induction false} ProgressFallbacks(env: Env, current: Currents, db: Db, r: nat, known: set<Ref>)
    requires r < |db.runs| && Active(db.runs[r].status) && RefsOf(current) <= known && FallbacksBacked(env, db, known)
    ensures FallbacksBacked(env, ProgressRun(env, current, db, r), known)
  {
    hide ProgressRun, Admit;
    var db' := ProgressRun(env, current, db, r);
    ProgressRunProgressed(env, current, db, r);
    ProgressedKeepsDone(db, db');
    forall i | 0 <= i < |db'.stageRuns| ensures FallbackMark(env, db'.runs, db'.stageRuns[i], known) {
      if i >= |db.stageRuns| {
        assert FreshRow(db'.stageRuns[i]);
      } else if db'.stageRuns[i] == db.stageRuns[i] {
        assert FallbackMark(env, db.runs, db.stageRuns[i], known);
      } else {
        MarkedWhy(env, current, db, r, i);
        var s := db.stageRuns[i].stage;
        assert MarkedRow(db.stageRuns[i], db'.stageRuns[i]) && Ref(s, current[s]) in RefsOf(current);
      }
    }
  }

  lemma {:induction false} ProgressCancel(env: Env, current: Currents, db: Db, r: nat)
    requires r < |db.runs| && Active(db.runs[r].status) && CancelHonoured(db)
    ensures CancelHonoured(ProgressRun(env, current, db, r))
  {
    ProgressRunProgressed(env, current, db, r);
    var db' := ProgressRun(env, current, db, r);
    if !db.runs[r].cancelRequested { NotCancelled(env, current, db, r); }
  }

  lemma {:induction false} NotCancelled(env: Env, current: Currents, db: Db, r: nat)
    requires r < |db.runs| && !db.runs[r].cancelRequested
    ensures !ProgressRun(env, current, db, r).runs[r].cancelRequested
  {
    hide Admit, Judge;
  }

  lemma {:induction false} ProgressInv(env: Env, current: Currents, db: Db, r: nat, known: set<Ref>)
    requires r < |db.runs| && Active(db.runs[r].status) && RefsOf(current) <= known && DbInv(env, db, known)
    ensures DbInv(env, ProgressRun(env, current, db, r), known)
  {
    hide ProgressRun, OneMessageEach, OncePerStage, Sourced, Honest, CancelHonoured, FallbacksBacked;
    ProgressFallbacks(env, current, db, r, known);
    ProgressMessages(env, current, db, r);
    ProgressOnce(env, current, db, r);
    ProgressSourced(env, current, db, r, known);
    ProgressHonest(env, current, db, r, known);
    ProgressCancel(env, current, db, r);
  }

  lemma {:induction false} ProgressListInv(env: Env, current: Currents, db: Db, rs: seq<nat>, known: set<Ref>)
    requires forall i :: 0 <= i < |rs| ==> rs[i] < |db.runs|
    requires RefsOf(current) <= known && DbInv(env, db, known)
    ensures DbInv(env, ProgressList(env, current, db, rs), known)
    decreases |rs|
  {
    hide ProgressRun, DbInv;
    if rs != [] {
      var init, r := rs[..|rs| - 1], rs[|rs| - 1];
      ProgressListInv(env, current, db, init, known);
      var db' := ProgressList(env, current, db, init);
      if Active(db'.runs[r].status) { ProgressInv(env, current, db', r, known); }
    }
  }

  // ---- intake only adds fresh runs ----------------------------------------

  ghost predicate Fresh(run: Run) {
    run.status == Requested && !run.cancelRequested
  }

  ghost predicate OnlyNewRuns(db: Db, db': Db) {
    && db'.stageRuns == db.stageRuns && db'.enqueued == db.enqueued
    && |db.runs| <= |db'.runs|
    && (forall r :: 0 <= r < |db.runs| ==> db'.runs[r] == db.runs[r])
    && (forall r :: |db.runs| <= r < |db'.runs| ==> Fresh(db'.runs[r]))
  }

  lemma {:induction false} NewRunsInv(env: Env, db: Db, db': Db, known: set<Ref>)
    requires OnlyNewRuns(db, db') && DbInv(env, db, known)
    ensures DbInv(env, db', known)
  {
    hide Admit, Source, HonestRun, RowSourced;
    forall i | 0 <= i < |db.stageRuns| ensures MessageFor(db', i) { assert MessageFor(db, i); }
    forall i | 0 <= i < |db.stageRuns| ensures RowSourced(env, db'.runs, db'.stageRuns, known, i) {
      KeepsRowSourced(env, db.runs, db'.runs, db.stageRuns, db'.stageRuns, known, known, i);
    }
    forall r | 0 <= r < |db'.runs| ensures HonestRun(env, db'.runs[r], db'.stageRuns, r) {
      if r < |db.runs| { assert HonestRun(env, db.runs[r], db.stageRuns, r); }
          else { NotYetHonest(env, db'.runs[r], db'.stageRuns, r); }
    }
  }

  lemma {:induction false} NotYetHonest(env: Env, run: Run, rows: seq<StageRun>, r: nat)
    requires run.status != Completed
    ensures HonestRun(env, run, rows, r)
  {
  }

  lemma {:induction false} FiringsFresh(rules: seq<Rule>, now: int)
    ensures forall r :: 0 <= r < |Firings(rules, now)| ==> Fresh(Firings(rules, now)[r])
  {
    if rules != [] { FiringsFresh(rules[..|rules| - 1], now); }
  }

  lemma {:induction false} DispatchesFresh(schedules: seq<Schedule>, now: int)
    ensures forall r :: 0 <= r < |Dispatches(schedules, now)| ==> Fresh(Dispatches(schedules, now)[r])
  {
    if schedules != [] { DispatchesFresh(schedules[..|schedules| - 1], now); }
  }

  function Taken(env: Env, now: int, db: Db): Db {
    Intake(now, IntakeRecurring(env.cron, now, db))
  }

  lemma {:induction false} TakenOnlyNewRuns(env: Env, now: int, db: Db)
    ensures OnlyNewRuns(db, Taken(env, now, db))
  {
    var mid := IntakeRecurring(env.cron, now, db);
    FiringsFresh(db.rules, now);
    DispatchesFresh(mid.schedules, now);
  }

  lemma {:induction false} TickInv(env: Env, current: Currents, now: int, db: Db, known: set<Ref>)
    requires RefsOf(current) <= known && DbInv(env, db, known)
    ensures DbInv(env, Tick(env, current, now, db), known)
  {
    hide DbInv, OnlyNewRuns;
    TakenOnlyNewRuns(env, now, db);
    NewRunsInv(env, db, Taken(env, now, db), known);
    ProgressListInv(env, current, Taken(env, now, db), UpTo(|Taken(env, now, db).runs|), known);
  }

  // ---- what a tick does to what is already there --------------------------

  ghost predicate Ticked(db: Db, db': Db) {
    && |db.runs| <= |db'.runs| && (forall r :: 0 <= r < |db.runs| ==> LaterRun(db.runs[r], db'.runs[r]))
    && |db.stageRuns| <= |db'.stageRuns|
    && (forall i :: 0 <= i < |db.stageRuns| ==> MarkedRow(db.stageRuns[i], db'.stageRuns[i]))
    && (forall i :: |db.stageRuns| <= i < |db'.stageRuns| ==> FreshRow(db'.stageRuns[i]))
    && db.enqueued <= db'.enqueued
  }

  lemma {:induction false} TickTicked(env: Env, current: Currents, now: int, db: Db)
    ensures Ticked(db, Tick(env, current, now, db))
  {
    var mid := Taken(env, now, db);
    TakenOnlyNewRuns(env, now, db);
    assert Tick(env, current, now, db) == ProgressList(env, current, mid, UpTo(|mid.runs|));
    hide ProgressList, Taken, Tick;
    ProgressListProgressed(env, current, mid, UpTo(|mid.runs|));
  }
}
