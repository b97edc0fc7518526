/** What becomes of the clients' requests: the runs that a tick creates, and cancellations that hold. */
module Requests {
  import opened Stages
  import opened Tables
  import opened Ticks
  import opened Evolution
  import opened TickInvariants
  import opened Control
  import opened Ledgers
  import opened ResourceStore
  import opened Runner
  import opened Protocol
  import opened ProtocolSafety
  import opened Guarantees
  import opened IntakeFacts
  import opened Recurrence
  import opened Bounds

  // ---- the runs that one tick creates --------------------------------------

  /** How many of the first k rules are enabled and due. */
  function DueBefore(rules: seq<Rule>, now: int, k: nat): nat
    requires k <= |rules|
  {
    if k == 0 then 0
    else DueBefore(rules, now, k - 1) + if rules[k - 1].enabled && rules[k - 1].nextRunAt <= now then 1 else 0
  }

  predicate Waits(s: Schedule, now: int) {
    s.dispatchedTo.None? && !s.cancelRequested && (s.runAt.Some? ==> s.runAt.value <= now)
  }

  /** How many of the first i schedules are still waiting although their time has come. */
  function WaitingBefore(schedules: seq<Schedule>, now: int, i: nat): nat
    requires i <= |schedules|
  {
    if i == 0 then 0 else WaitingBefore(schedules, now, i - 1) + if Waits(schedules[i - 1], now) then 1 else 0
  }

  /** A run for this request: it promotes as it was told to, or else if its range is the whole workflow. */
  predicate RunFor(run: Run, spec: Spec, promote: Option<bool>) {
    && run.spec == spec
    && match promote
       case Some(choice) => run.promote == choice
       case None => run.promote <==> spec.startFrom.None? && spec.stopAfter.None?
  }

  lemma {:induction false} FiringsCount(rules: seq<Rule>, now: int, k: nat)
    requires k <= |rules|
    ensures |Firings(rules[..k], now)| == DueBefore(rules, now, k)
  {
    if k > 0 {
      FiringsCount(rules, now, k - 1);
      assert rules[..k][..k - 1] == rules[..k - 1];
    }
  }

  lemma {:induction false} DispatchesCount(schedules: seq<Schedule>, now: int, i: nat)
    requires i <= |schedules|
    ensures |Dispatches(schedules[..i], now)| == WaitingBefore(schedules, now, i)
  {
    if i > 0 {
      DispatchesCount(schedules, now, i - 1);
      assert schedules[..i][..i - 1] == schedules[..i - 1];
    }
  }

  lemma {:induction false} TakenCount(env: Env, now: int, db: Db)
    ensures var taken := Taken(env, now, db);
            && |taken.runs| == |db.runs| + DueBefore(db.rules, now, |db.rules|)
                               + WaitingBefore(db.schedules, now, |db.schedules|)
            && |taken.schedules| == |db.schedules|
  {
    FiringsCount(db.rules, now, |db.rules|);
    DispatchesCount(db.schedules, now, |db.schedules|);
    assert db.rules[..|db.rules|] == db.rules && db.schedules[..|db.schedules|] == db.schedules;
    hide Firings, Dispatches;
  }

  /** If rule k is due, the run at its place among the new ones is for it. */
  ghost predicate RuleServed(db: Db, db': Db, now: int, k: nat)
    requires k < |db.rules|
  {
    db.rules[k].enabled && db.rules[k].nextRunAt <= now ==>
      var q := |db.runs| + DueBefore(db.rules, now, k);
      q < |db'.runs| && RunFor(db'.runs[q], db.rules[k].spec, db.rules[k].promote)
  }

  /** If schedule i is waiting, the run at its place is for it and it is marked with it; else it stays as it is. */
  ghost predicate ScheduleServed(db: Db, db': Db, now: int, i: nat)
    requires i < |db.schedules| == |db'.schedules|
  {
    var s, q := db.schedules[i], |db.runs| + DueBefore(db.rules, now, |db.rules|) + WaitingBefore(db.schedules, now, i);
    if Waits(s, now)
    then db'.schedules[i] == s.(dispatchedTo := Some(q))
         && q < |db'.runs| && RunFor(db'.runs[q], s.spec, s.promote)
    else db'.schedules[i] == s
  }

  lemma {:induction false} TakenFiring(env: Env, now: int, db: Db, k: nat)
    requires k < |db.rules|
    ensures RuleServed(db, Taken(env, now, db), now, k)
  {
    FiringsCount(db.rules, now, k);
    FiringIsRun(db.rules, now, k);
    hide Firings, Dispatches;
  }

  lemma {:induction false} TakenSchedule(env: Env, now: int, db: Db, i: nat)
    requires i < |db.schedules|
    ensures |Taken(env, now, db).schedules| == |db.schedules|
    ensures ScheduleServed(db, Taken(env, now, db), now, i)
  {
    var fired := IntakeRecurring(env.cron, now, db);
    FiringsCount(db.rules, now, |db.rules|);
    assert db.rules[..|db.rules|] == db.rules;
    DispatchesCount(db.schedules, now, i);
    IntakeAt(now, fired, i);
    hide Firings, Dispatches, Intake;
  }

  /**
   * The runs that a tick creates: one for each enabled rule whose time has come, in their order, then one for each
   * waiting schedule, in their order, which is marked with it; no others, and no other schedule changes.
   */
  lemma {:induction false} TickCreates(env: Env, w: World, w': World, now: int)
    requires TickStep(env, w, w', now)
    ensures |w'.db.schedules| == |w.db.schedules|
    ensures |w'.db.runs| == |w.db.runs| + DueBefore(w.db.rules, now, |w.db.rules|)
                            + WaitingBefore(w.db.schedules, now, |w.db.schedules|)
    ensures forall k :: 0 <= k < |w.db.rules| ==> RuleServed(w.db, w'.db, now, k)
    ensures forall i :: 0 <= i < |w.db.schedules| ==> ScheduleServed(w.db, w'.db, now, i)
  {
    var taken, current := Taken(env, now, w.db), CurrentsOf(w.ledger);
    assert w'.db == ProgressList(env, current, taken, UpTo(|taken.runs|));
    ProgressListProgressed(env, current, taken, UpTo(|taken.runs|));
    hide *;
    TakenCount(env, now, w.db);
    SameRequests(taken, w'.db);
    forall k | 0 <= k < |w.db.rules| ensures RuleServed(w.db, w'.db, now, k) {
      TakenFiring(env, now, w.db, k);
      RuleStaysServed(w.db, taken, w'.db, now, k);
    }
    forall i | 0 <= i < |w.db.schedules| ensures ScheduleServed(w.db, w'.db, now, i) {
      TakenSchedule(env, now, w.db, i);
      ScheduleStaysServed(w.db, taken, w'.db, now, i);
    }
  }

  lemma {:induction false} RuleStaysServed(db: Db, mid: Db, db': Db, now: int, k: nat)
    requires k < |db.rules| && RuleServed(db, mid, now, k) && Progressed(mid, db')
    ensures RuleServed(db, db', now, k)
  {
    SameRequests(mid, db');
    hide RunFor, Progressed;
  }

  lemma {:induction false} ScheduleStaysServed(db: Db, mid: Db, db': Db, now: int, i: nat)
    requires i < |db.schedules| == |mid.schedules| && ScheduleServed(db, mid, now, i) && Progressed(mid, db')
    ensures |db'.schedules| == |db.schedules| && ScheduleServed(db, db', now, i)
  {
    SameRequests(mid, db');
    hide RunFor, Progressed, Waits;
  }

  lemma {:induction false} SameRequests(db: Db, db': Db)
    requires Progressed(db, db')
    ensures |db'.runs| == |db.runs| && db'.schedules == db.schedules
    ensures forall q, spec, promote :: 0 <= q < |db.runs| && RunFor(db.runs[q], spec, promote) ==>
              RunFor(db'.runs[q], spec, promote)
  {
    forall q | 0 <= q < |db.runs| ensures LaterRun(db.runs[q], db'.runs[q]) {}
  }

  // ---- cancellations -------------------------------------------------------

  /** A client's cancellation of an active run, as the service performs it. */
  ghost predicate CancelStep(env: Env, ws: seq<World>, t: nat, r: nat) {
    && t + 1 < |ws| && r < |ws[t].db.runs|
    && (ws[t].db.runs[r].status == Requested || ws[t].db.runs[r].status == Running)
    && ws[t + 1] == ws[t].(db := RequestCancel(ws[t].db, r))
  }

  lemma {:induction false} CancelSets(env: Env, ws: seq<World>, t: nat, r: nat)
    requires CancelStep(env, ws, t, r)
    ensures r < |ws[t + 1].db.runs| && ws[t + 1].db.runs[r].cancelRequested
    ensures ws[t + 1].db.stageRuns == ws[t].db.stageRuns
  {
  }

  ghost predicate TickBetween(env: Env, ws: seq<World>, t: nat, u: nat) {
    exists s, n :: t <= s < u && TickAtStep(env, ws, s, n)
  }

  lemma {:induction false} CancelledAfterTick(env: Env, contracts: Contracts, ws: seq<World>, t: nat, u: nat, r: nat)
    requires Behavior(env, contracts, ws) && t <= u < |ws| && TickBetween(env, ws, t, u)
    requires r < |ws[t].db.runs| && ws[t].db.runs[r].cancelRequested
    ensures r < |ws[u].db.runs| && ws[u].db.runs[r].status == Cancelled
  {
    var s, n :| t <= s < u && TickAtStep(env, ws, s, n);
    assert s + 1 < |ws|;
    hide *;
    TickedAway(env, contracts, ws, t, s, n, r);
    IsTerminal(ws[s + 1].db.runs[r].status);
    TerminalForever(env, contracts, ws, s + 1, u, r);
  }

  lemma {:induction false} IsTerminal(s: Status)
    ensures s == Cancelled ==> !Active(s)
  {
  }

  /**
   * An accepted cancellation holds: from that step on the run gets no stage run, and the first tick leaves it
   * cancelled for ever.
   */
  lemma {:induction false} CancelHolds(env: Env, contracts: Contracts, ws: seq<World>, t: nat, u: nat, r: nat)
    requires Behavior(env, contracts, ws) && CancelStep(env, ws, t, r) && t < u < |ws|
    ensures r < |ws[u].db.runs|
    ensures NothingNewFor(ws[t].db.stageRuns, ws[u].db.stageRuns, r)
    ensures TickBetween(env, ws, t + 1, u) ==> ws[u].db.runs[r].status == Cancelled
  {
    CancelSets(env, ws, t, r);
    hide *;
    NoDispatchAfterCancel(env, contracts, ws, t + 1, u, r);
    if TickBetween(env, ws, t + 1, u) { CancelledAfterTick(env, contracts, ws, t + 1, u, r); }
  }

  /** Whichever tick it is that follows, the run is cancelled after it. */
  lemma {:induction false} TickedAway(env: Env, contracts: Contracts, ws: seq<World>, t: nat, s: nat, n: int, r: nat)
    requires Behavior(env, contracts, ws) && t <= s && TickAtStep(env, ws, s, n)
    requires r < |ws[t].db.runs| && ws[t].db.runs[r].cancelRequested
    ensures r < |ws[s + 1].db.runs| && ws[s + 1].db.runs[r].status == Cancelled
  {
    hide Step, Init, NothingNewFor, TickStep, Tick;
    NoDispatchAfterCancel(env, contracts, ws, t, s, r);
    CancelledByTick(env, contracts, ws, s, n, r);
  }

  lemma {:induction false} CancelledByTick(env: Env, contracts: Contracts, ws: seq<World>, s: nat, n: int, r: nat)
    requires Behavior(env, contracts, ws) && TickAtStep(env, ws, s, n)
    requires r < |ws[s].db.runs| && ws[s].db.runs[r].cancelRequested
    ensures r < |ws[s + 1].db.runs| && ws[s + 1].db.runs[r].status == Cancelled
  {
    hide Step, Init, Tick;
    assert ws[s + 1].db == Tick(env, CurrentsOf(ws[s].ledger), n, ws[s].db);
    hide TickStep;
    if Active(ws[s].db.runs[r].status) {
      CancelTick(env, CurrentsOf(ws[s].ledger), n, ws[s].db, r);
    } else {
      TerminalForever(env, contracts, ws, s, s + 1, r);
    }
  }

  /** A schedule that is cancelled before it was dispatched never becomes a run. */
  lemma {:induction false} ScheduleCancelHolds(env: Env, contracts: Contracts, ws: seq<World>, t: nat, u: nat, i: nat)
    requires Behavior(env, contracts, ws) && t < u < |ws| && i < |ws[t].db.schedules|
    requires ws[t].db.schedules[i].dispatchedTo.None?
    requires ws[t + 1].db == RequestScheduleCancel(ws[t].db, i)
    ensures i < |ws[u].db.schedules|
    ensures ws[u].db.schedules[i].cancelRequested && ws[u].db.schedules[i].dispatchedTo.None?
  {
    assert ws[t + 1].db.schedules[i].cancelRequested;
    hide Step, Init;
    CancelledStays(env, contracts, ws, t + 1, u, i);
    ScheduleFate(env, contracts, ws, t + 1, u, i);
  }

  /** A rule that a client disables never fires again. */
  lemma {:induction false} DisablingHolds(env: Env, contracts: Contracts, ws: seq<World>, t: nat, u: nat, k: nat,
                    now: int)
    requires Behavior(env, contracts, ws) && t < u < |ws| && k < |ws[t].db.rules|
    requires ws[t + 1].db == DisableRule(ws[t].db, k)
    ensures !FiresAt(env, ws, u, k, now)
  {
    assert !ws[t + 1].db.rules[k].enabled;
    hide Step, Init, FiresAt;
    DisabledForGood(env, contracts, ws, t + 1, u, k);
  }

  // ---- requests that are served --------------------------------------------

  /** What was asked of a schedule never changes. */
  lemma {:induction false} ScheduleStays(env: Env, contracts: Contracts, ws: seq<World>, t: nat, u: nat, i: nat)
    requires Behavior(env, contracts, ws) && t <= u < |ws| && i < |ws[t].db.schedules|
    ensures i < |ws[u].db.schedules|
    ensures var s, s' := ws[t].db.schedules[i], ws[u].db.schedules[i];
            s'.spec == s.spec && s'.promote == s.promote && s'.runAt == s.runAt
    decreases u
  {
    hide Step, Init;
    if t < u {
      ScheduleStays(env, contracts, ws, t, u - 1, i);
      SchedulesAlwaysOk(env, contracts, ws, u - 1);
      assert Step(env, contracts, ws[u - 1], ws[u - 1 + 1]);
      hide SchedulesOk;
      StepSchedules(env, contracts, ws[u - 1], ws[u]);
      assert LaterSchedule(ws[u - 1].db.schedules[i], ws[u].db.schedules[i]);
    }
  }

  /**
   * A request is served by exactly the first tick whose clock has reached its time, if nobody has cancelled it by
   * then: with the workflow, range, pins and policy asked for, promoting as it was told to.
   */
  lemma {:induction false} RequestIsServed(env: Env, contracts: Contracts, ws: seq<World>, t: nat, u: nat, m: int,
                    spec: Spec, promote: Option<bool>, runAt: Option<int>)
    requires Behavior(env, contracts, ws) && t < u && TickAtStep(env, ws, u, m)
    requires ws[t + 1].db == RequestRun(ws[t].db, spec, promote, runAt)
    requires var i := |ws[t].db.schedules|;
             i < |ws[u].db.schedules| && ws[u].db.schedules[i].dispatchedTo.None?
    ensures var i := |ws[t].db.schedules|;
            && i < |ws[u + 1].db.schedules|
            && var s' := ws[u + 1].db.schedules[i];
               && (s'.dispatchedTo.Some? <==>
                     !ws[u].db.schedules[i].cancelRequested && (runAt.Some? ==> runAt.value <= m))
               && (s'.dispatchedTo.Some? ==>
                     s'.dispatchedTo.value < |ws[u + 1].db.runs|
                     && RunFor(ws[u + 1].db.runs[s'.dispatchedTo.value], spec, promote))
  {
    var i := |ws[t].db.schedules|;
    assert ws[t + 1].db.schedules[i] == Schedule(spec, promote, runAt, false, None);
    hide Step, Init, TickStep, RunFor, RequestRun;
    ScheduleStays(env, contracts, ws, t + 1, u, i);
    TickCreates(env, ws[u], ws[u + 1], m);
    assert ScheduleServed(ws[u].db, ws[u + 1].db, m, i);
  }

  /** A new rule fires on exactly the first tick whose clock has reached its first time, if it is still enabled. */
  lemma {:induction false} RuleIsServed(env: Env, contracts: Contracts, ws: seq<World>, t: nat, u: nat, m: int,
                    spec: Spec, promote: Option<bool>, cadence: Cadence, at: int)
    requires Behavior(env, contracts, ws) && t < u && TickAtStep(env, ws, u, m)
    requires ws[t + 1].db == CreateRule(ws[t].db, spec, promote, cadence, at)
    requires forall s, n :: t < s < u && TickAtStep(env, ws, s, n) ==> n < at
    ensures var k := |ws[t].db.rules|;
            && k < |ws[u].db.rules|
            && (FiresAt(env, ws, u, k, m) <==> ws[u].db.rules[k].enabled && at <= m)
            && (FiresAt(env, ws, u, k, m) ==>
                  var q := |ws[u].db.runs| + DueBefore(ws[u].db.rules, m, k);
                  q < |ws[u + 1].db.runs| && RunFor(ws[u + 1].db.runs[q], spec, promote))
  {
    var k := |ws[t].db.rules|;
    assert ws[t + 1].db.rules[k] == Rule(spec, promote, cadence, at, true);
    hide Step, Init, TickStep, RunFor, CreateRule;
    NextHolds(env, contracts, ws, t + 1, u, k);
    FiresExactly(env, contracts, ws, t + 1, u, k, m);
    TickCreates(env, ws[u], ws[u + 1], m);
    assert RuleServed(ws[u].db, ws[u + 1].db, m, k);
  }
}
