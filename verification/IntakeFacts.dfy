/** Intake: each due schedule becomes exactly one run, a cancelled one none, and rules never fire in bursts. */
module IntakeFacts {
  import opened Stages
  import opened Tables
  import opened Ticks
  import opened Evolution
  import opened Control
  import opened Protocol
  import opened ProtocolSafety
  import opened Ledgers
  import opened ResourceStore
  import opened Runner

  // ---- recurring rules -----------------------------------------------------

  /** What can happen to a rule: a tick with its clock reading, a client disabling it, or nothing. */
  datatype RuleEvent = TickAt(now: int) | Disabled | Elsewhere

  function RuleAfter(cron: (string, int) -> int, rule: Rule, e: RuleEvent): Rule {
    match e
    case TickAt(now) => RuleStep(cron, rule, now)
    case Disabled => rule.(enabled := false)
    case Elsewhere => rule
  }

  /** The clock readings at which a rule fires. */
  function FireTimes(cron: (string, int) -> int, rule: Rule, events: seq<RuleEvent>): seq<int>
    decreases |events|
  {
    if events == [] then []
    else
      var e := events[0];
      (if e.TickAt? && Due(rule, e.now) then [e.now] else []) + FireTimes(cron, RuleAfter(cron, rule, e), events[1..])
  }

  /** Firings of an interval rule are at least one interval apart, even if the clock jumps or the scheduler was down. */
  lemma {:induction false} FiringsSpaced(cron: (string, int) -> int, rule: Rule, events: seq<RuleEvent>, j: nat)
    requires rule.cadence.Interval? && rule.cadence.seconds > 0 && j < |FireTimes(cron, rule, events)|
    ensures FireTimes(cron, rule, events)[j] >= rule.nextRunAt
    ensures j > 0 ==> FireTimes(cron, rule, events)[j] - FireTimes(cron, rule, events)[j - 1] >= rule.cadence.seconds
    decreases |events|
  {
    var e, next := events[0], RuleAfter(cron, rule, events[0]);
    var fires := e.TickAt? && Due(rule, e.now);
    if fires {
      if j > 0 { FiringsSpaced(cron, next, events[1..], j - 1); }
    } else {
      FiringsSpaced(cron, next, events[1..], j);
    }
  }

  lemma {:induction false} FiringsApart(cron: (string, int) -> int, rule: Rule, events: seq<RuleEvent>, i: nat, j: nat)
    requires rule.cadence.Interval? && rule.cadence.seconds > 0 && i <= j < |FireTimes(cron, rule, events)|
    ensures FireTimes(cron, rule, events)[j] - FireTimes(cron, rule, events)[i] >= (j - i) * rule.cadence.seconds
  {
    if i < j {
      FiringsApart(cron, rule, events, i, j - 1);
      FiringsSpaced(cron, rule, events, j);
      assert (j - i) * rule.cadence.seconds == (j - 1 - i) * rule.cadence.seconds + rule.cadence.seconds;
    }
  }

  /** A window of length w holds at most w / interval + 1 firings: there is no catch-up burst. */
  lemma {:induction false} NoBurst(cron: (string, int) -> int, rule: Rule, events: seq<RuleEvent>, i: nat, j: nat,
                    w: nat)
    requires rule.cadence.Interval? && rule.cadence.seconds > 0 && i <= j < |FireTimes(cron, rule, events)|
    requires FireTimes(cron, rule, events)[j] - FireTimes(cron, rule, events)[i] <= w
    ensures j - i + 1 <= w / rule.cadence.seconds + 1
  {
    FiringsApart(cron, rule, events, i, j);
    QuotientBound(j - i, rule.cadence.seconds, w);
  }

  /** A rule that was disabled never fires again. */
  lemma {:induction false} DisabledNeverFires(cron: (string, int) -> int, rule: Rule, events: seq<RuleEvent>)
    requires !rule.enabled
    ensures FireTimes(cron, rule, events) == []
    decreases |events|
  {
    if events != [] { DisabledNeverFires(cron, RuleAfter(cron, rule, events[0]), events[1..]); }
  }

  /** A cron rule fires at ever later times, as long as the cron library answers with a later time. */
  lemma {:induction false} CronFiringsAscend(cron: (string, int) -> int, rule: Rule, events: seq<RuleEvent>, j: nat)
    requires rule.cadence.Cron? && j < |FireTimes(cron, rule, events)|
    requires forall n :: cron(rule.cadence.expression, n) > n
    ensures FireTimes(cron, rule, events)[j] >= rule.nextRunAt
    ensures j > 0 ==> FireTimes(cron, rule, events)[j] > FireTimes(cron, rule, events)[j - 1]
    decreases |events|
  {
    var e, next := events[0], RuleAfter(cron, rule, events[0]);
    if e.TickAt? && Due(rule, e.now) {
      if j > 0 {
        assert cron(rule.cadence.expression, e.now) > e.now;
        CronFiringsAscend(cron, next, events[1..], j - 1);
      }
    } else {
      CronFiringsAscend(cron, next, events[1..], j);
    }
  }

  lemma {:induction false} QuotientBound(k: nat, s: nat, w: nat)
    requires s > 0 && k * s <= w
    ensures k <= w / s
  {
    var q := w / s;
    assert w == q * s + w % s;
    assert k > q ==> k * s >= (q + 1) * s;
  }

  /** An enabled rule fires on a tick exactly when it is due, and then spawns exactly one run of its own shape. */
  lemma {:induction false} FiringIsRun(rules: seq<Rule>, now: int, k: nat)
    requires k < |rules|
    ensures var p := |Firings(rules[..k], now)|;
            if Due(rules[k], now)
            then p < |Firings(rules, now)|
                && Firings(rules, now)[p] == NewRun(rules[k].spec, ResolvePromote(rules[k].promote, rules[k].spec))
                 && |Firings(rules[..k + 1], now)| == p + 1
            else |Firings(rules[..k + 1], now)| == p
  {
    if k == |rules| - 1 {
      assert rules[..k + 1] == rules;
    } else {
      var init := rules[..|rules| - 1];
      assert init[..k] == rules[..k] && init[..k + 1] == rules[..k + 1];
      FiringIsRun(init, now, k);
    }
  }

  /** What step w -> w' of the protocol is for rule k. */
  ghost predicate EventFits(env: Env, w: World, w': World, k: nat, e: RuleEvent) {
    && k < |w.db.rules| && k < |w'.db.rules|
    && w'.db.rules[k] == RuleAfter(env.cron, w.db.rules[k], e)
    && (e.TickAt? ==> TickStep(env, w, w', e.now))
  }

  lemma {:induction false} TickRule(env: Env, w: World, w': World, now: int, k: nat)
    requires TickStep(env, w, w', now) && k < |w.db.rules|
    ensures EventFits(env, w, w', k, TickAt(now))
  {
    var current := CurrentsOf(w.ledger);
    var taken := Intake(now, IntakeRecurring(env.cron, now, w.db));
    assert w'.db == ProgressList(env, current, taken, UpTo(|taken.runs|));
    hide Tick, ProgressList;
    ProgressListProgressed(env, current, taken, UpTo(|taken.runs|));
  }

  lemma {:induction false} StepRule(env: Env, contracts: Contracts, w: World, w': World, k: nat) returns (e: RuleEvent)
    requires Step(env, contracts, w, w') && k < |w.db.rules|
    ensures EventFits(env, w, w', k, e)
  {
    hide TickStep, JobOf, AttemptStep;
    if now :| TickStep(env, w, w', now) {
      TickRule(env, w, w', now, k);
      e := TickAt(now);
    } else if w'.db.rules == w.db.rules {
      e := Elsewhere;
    } else if w'.db == DisableRule(w.db, k) {
      e := Disabled;
    } else {
      assert ClientStep(env, w, w');
      e := Elsewhere;
    }
  }

  /** In every history a rule only ever goes through these events: firings are those of `FireTimes`. */
  lemma {:induction false} RuleHistory(env: Env, contracts: Contracts, ws: seq<World>, k: nat,
                    t: nat) returns (events: seq<RuleEvent>)
    requires Behavior(env, contracts, ws) && t < |ws| && k < |ws[t].db.rules|
    ensures |events| == |ws| - 1 - t
    ensures forall i :: 0 <= i < |events| ==> EventFits(env, ws[t + i], ws[t + i + 1], k, events[i])
    decreases |ws| - t
  {
    hide Step, Init, EventFits;
    if t == |ws| - 1 { return []; }
    assert Step(env, contracts, ws[t], ws[t + 1]);
    var e := StepRule(env, contracts, ws[t], ws[t + 1], k);
    FitsStays(env, ws[t], ws[t + 1], k, e);
    var rest := RuleHistory(env, contracts, ws, k, t + 1);
    events := [e] + rest;
    forall i | 0 <= i < |events| ensures EventFits(env, ws[t + i], ws[t + i + 1], k, events[i]) {
      if i > 0 {
        assert EventFits(env, ws[t + 1 + (i - 1)], ws[t + 1 + (i - 1) + 1], k, rest[i - 1]);
      }
    }
  }

  lemma {:induction false} FitsStays(env: Env, w: World, w': World, k: nat, e: RuleEvent)
    requires EventFits(env, w, w', k, e)
    ensures k < |w'.db.rules| && w'.db.rules[k].cadence == w.db.rules[k].cadence
  {
  }

  // ---- one-off schedules ---------------------------------------------------

  /** The position of a pending schedule's run among the runs that intake creates. */
  function Slot(schedules: seq<Schedule>, now: int, i: nat): nat
    requires i < |schedules|
  {
    |Dispatches(schedules[..i], now)|
  }

  lemma {:induction false} SlotHoldsRun(schedules: seq<Schedule>, now: int, i: nat)
    requires i < |schedules|
    ensures Pending(schedules[i], now) ==>
              && Slot(schedules, now, i) < |Dispatches(schedules, now)|
              && Dispatches(schedules, now)[Slot(schedules, now, i)]
                  == NewRun(schedules[i].spec, ResolvePromote(schedules[i].promote, schedules[i].spec))
    ensures |Dispatches(schedules[..i + 1], now)| == Slot(schedules, now, i) + if Pending(schedules[i], now) then 1
        else 0
  {
    if i == |schedules| - 1 {
      assert schedules[..i + 1] == schedules;
    } else {
      var init := schedules[..|schedules| - 1];
      assert init[..i] == schedules[..i] && init[..i + 1] == schedules[..i + 1];
      SlotHoldsRun(init, now, i);
    }
  }

  lemma {:induction false} SlotsAscend(schedules: seq<Schedule>, now: int, i: nat, j: nat)
    requires i < j < |schedules| && Pending(schedules[i], now)
    ensures Slot(schedules, now, i) < Slot(schedules, now, j)
    decreases j
  {
    SlotHoldsRun(schedules, now, j - 1);
    assert schedules[..j - 1 + 1] == schedules[..j];
    if i < j - 1 { SlotsAscend(schedules, now, i, j - 1); }
  }

  lemma {:induction false} SlotsCover(schedules: seq<Schedule>, now: int, p: nat) returns (i: nat)
    requires p < |Dispatches(schedules, now)|
    ensures i < |schedules| && Pending(schedules[i], now) && Slot(schedules, now, i) == p
  {
    var n := |schedules| - 1;
    var init := schedules[..n];
    if p < |Dispatches(init, now)| {
      i := SlotsCover(init, now, p);
      assert init[..i] == schedules[..i];
    } else {
      i := n;
    }
  }

  /** A schedule after intake: dispatched to a new run of its own shape if it was pending, as it was otherwise. */
  ghost predicate TakenIn(now: int, db: Db, db': Db, i: nat)
    requires i < |db.schedules| == |db'.schedules|
  {
    var s, s' := db.schedules[i], db'.schedules[i];
    if !Pending(s, now) then s' == s
    else
      && s' == s.(dispatchedTo := s'.dispatchedTo)
      && s'.dispatchedTo.Some? && |db.runs| <= s'.dispatchedTo.value < |db'.runs|
      && db'.runs[s'.dispatchedTo.value] == NewRun(s.spec, ResolvePromote(s.promote, s.spec))
  }

  ghost predicate Dispatched(now: int, db: Db, db': Db, i: nat, q: nat)
    requires i < |db.schedules| == |db'.schedules|
  {
    Pending(db.schedules[i], now) && db'.schedules[i].dispatchedTo == Some(q)
  }

  ghost predicate HasSchedule(now: int, db: Db, db': Db, q: nat)
    requires |db.schedules| == |db'.schedules|
  {
    exists i :: 0 <= i < |db.schedules| && Dispatched(now, db, db', i, q)
  }

  /** Pending schedules and new runs correspond one to one. */
  ghost predicate OneToOne(now: int, db: Db, db': Db)
    requires |db.schedules| == |db'.schedules|
  {
    && (forall i :: 0 <= i < |db.schedules| ==> TakenIn(now, db, db', i))
    && (forall i, j, q :: 0 <= i < j < |db.schedules| && Dispatched(now, db, db', i, q)
                          ==> !Dispatched(now, db, db', j, q))
    && (forall q :: |db.runs| <= q < |db'.runs| ==> HasSchedule(now, db, db', q))
  }

  lemma {:induction false} IntakeAt(now: int, db: Db, i: nat)
    requires i < |db.schedules|
    ensures Intake(now, db).schedules[i]
         == if Pending(db.schedules[i], now)
             then db.schedules[i].(dispatchedTo := Some(|db.runs| + Slot(db.schedules, now, i))) else db.schedules[i]
    ensures TakenIn(now, db, Intake(now, db), i)
  {
    SlotHoldsRun(db.schedules, now, i);
  }

  /**
   * Intake: each pending schedule becomes exactly one run, a run comes from exactly one schedule, and no other
   * schedule changes.
   */
  lemma {:induction false} IntakeOneToOne(now: int, db: Db)
    ensures OneToOne(now, db, Intake(now, db))
  {
    var db' := Intake(now, db);
    assert |db'.schedules| == |db.schedules| && |db'.runs| == |db.runs| + |Dispatches(db.schedules, now)|;
    hide Intake;
    forall i | 0 <= i < |db.schedules| ensures TakenIn(now, db, db', i) {
      IntakeAt(now, db, i);
    }
    hide TakenIn;
    forall i, j, q | 0 <= i < j < |db.schedules| && Dispatched(now, db, db', i, q)
        ensures !Dispatched(now, db, db', j, q) {
      IntakeAt(now, db, i);
      IntakeAt(now, db, j);
      SlotsAscend(db.schedules, now, i, j);
    }
    forall q | |db.runs| <= q < |db'.runs| ensures HasSchedule(now, db, db', q) {
      var i := SlotsCover(db.schedules, now, q - |db.runs|);
      IntakeAt(now, db, i);
      assert Dispatched(now, db, db', i, q);
    }
  }

  /** Intake dispatches a waiting schedule exactly when its time has come and nobody cancelled it; never earlier. */
  lemma {:induction false} DispatchedExactlyWhenDue(now: int, db: Db, i: nat)
    requires i < |db.schedules| && db.schedules[i].dispatchedTo.None?
    ensures var s := db.schedules[i];
            Intake(now, db).schedules[i].dispatchedTo.Some?
            <==> !s.cancelRequested && (s.runAt.Some? ==> s.runAt.value <= now)
  {
    IntakeAt(now, db, i);
  }

  /** So does a whole tick of the system, and the run that it names has the shape of the schedule. */
  lemma {:induction false} TickDispatchesWhenDue(env: Env, w: World, w': World, now: int, i: nat)
    requires TickStep(env, w, w', now) && i < |w.db.schedules| && w.db.schedules[i].dispatchedTo.None?
    ensures i < |w'.db.schedules|
    ensures var s, s' := w.db.schedules[i], w'.db.schedules[i];
            && (s'.dispatchedTo.Some? <==> !s.cancelRequested && (s.runAt.Some? ==> s.runAt.value <= now))
            && (s'.dispatchedTo.Some? ==>
                  && |w.db.runs| <= s'.dispatchedTo.value < |w'.db.runs|
                  && w'.db.runs[s'.dispatchedTo.value].spec == s.spec
                  && w'.db.runs[s'.dispatchedTo.value].promote == ResolvePromote(s.promote, s.spec))
  {
    var mid := IntakeRecurring(env.cron, now, w.db);
    var taken, current := Intake(now, mid), CurrentsOf(w.ledger);
    assert w'.db == ProgressList(env, current, taken, UpTo(|taken.runs|));
    DispatchedExactlyWhenDue(now, mid, i);
    IntakeAt(now, mid, i);
    hide Tick, TickStep, IntakeRecurring, Intake, ProgressList, ResolvePromote;
    ProgressListProgressed(env, current, taken, UpTo(|taken.runs|));
    if taken.schedules[i].dispatchedTo.Some? {
      var q := taken.schedules[i].dispatchedTo.value;
      assert LaterRun(taken.runs[q], w'.db.runs[q]);
    }
  }

  // ---- over whole histories ------------------------------------------------

  /** A dispatched schedule names a run of its own shape, and was not cancelled before. */
  ghost predicate ScheduleOk(db: Db, i: nat)
    requires i < |db.schedules|
  {
    var s := db.schedules[i];
    s.dispatchedTo.Some? ==>
      && s.dispatchedTo.value < |db.runs| && !s.cancelRequested
      && db.runs[s.dispatchedTo.value].spec == s.spec
      && db.runs[s.dispatchedTo.value].promote == ResolvePromote(s.promote, s.spec)
  }

  ghost predicate SchedulesOk(db: Db) {
    && (forall i :: 0 <= i < |db.schedules| ==> ScheduleOk(db, i))
    && forall i, j :: 0 <= i < j < |db.schedules| && db.schedules[i].dispatchedTo.Some? ==>
         db.schedules[i].dispatchedTo != db.schedules[j].dispatchedTo
  }

  /** What one step may do to a schedule. */
  predicate LaterSchedule(s: Schedule, s': Schedule) {
    && s'.spec == s.spec && s'.promote == s.promote && s'.runAt == s.runAt
    && (s.dispatchedTo.Some? ==> s' == s)
    && (s.cancelRequested ==> s' == s)
  }

  ghost predicate LaterSchedules(db: Db, db': Db) {
    |db.schedules| <= |db'.schedules| && forall i :: 0 <= i < |db.schedules|
                                                     ==> LaterSchedule(db.schedules[i], db'.schedules[i])
  }

  lemma {:induction false} IntakeSchedules(now: int, db: Db)
    requires SchedulesOk(db)
    ensures SchedulesOk(Intake(now, db)) && LaterSchedules(db, Intake(now, db))
  {
    var db' := Intake(now, db);
    IntakeOneToOne(now, db);
    assert |db'.schedules| == |db.schedules|;
    hide Intake;
    assert forall r :: 0 <= r < |db.runs| ==> db'.runs[r] == db.runs[r] by { IntakeKeepsRuns(now, db); }
    forall i | 0 <= i < |db'.schedules| ensures ScheduleOk(db', i) {
      assert ScheduleOk(db, i) && TakenIn(now, db, db', i);
    }
    forall i | 0 <= i < |db.schedules| ensures LaterSchedule(db.schedules[i], db'.schedules[i]) {
      assert TakenIn(now, db, db', i);
    }
    forall i, j | 0 <= i < j < |db'.schedules| && db'.schedules[i].dispatchedTo.Some?
      ensures db'.schedules[i].dispatchedTo != db'.schedules[j].dispatchedTo
    {
      assert ScheduleOk(db, i) && ScheduleOk(db, j);
      assert TakenIn(now, db, db', i) && TakenIn(now, db, db', j);
      var q := db'.schedules[i].dispatchedTo.value;
      assert Dispatched(now, db, db', i, q) ==> !Dispatched(now, db, db', j, q);
    }
  }

  lemma {:induction false} IntakeKeepsRuns(now: int, db: Db)
    ensures |db.runs| <= |Intake(now, db).runs| && forall r :: 0 <= r < |db.runs|
                                                               ==> Intake(now, db).runs[r] == db.runs[r]
  {
  }

  lemma {:induction false} RunsKeepSchedules(db: Db, db': Db)
    requires SchedulesOk(db) && db'.schedules == db.schedules && |db.runs| <= |db'.runs|
    requires forall r :: 0 <= r < |db.runs|
                         ==> db'.runs[r].spec == db.runs[r].spec && db'.runs[r].promote == db.runs[r].promote
    ensures SchedulesOk(db')
  {
    forall i | 0 <= i < |db'.schedules| ensures ScheduleOk(db', i) { assert ScheduleOk(db, i); }
  }

  lemma {:induction false} TickSchedules(env: Env, current: Currents, now: int, db: Db)
    requires SchedulesOk(db)
    ensures SchedulesOk(Tick(env, current, now, db)) && LaterSchedules(db, Tick(env, current, now, db))
  {
    var fired := IntakeRecurring(env.cron, now, db);
    var taken := Intake(now, fired);
    RunsKeepSchedules(db, fired);
    IntakeSchedules(now, fired);
    assert Tick(env, current, now, db) == ProgressList(env, current, taken, UpTo(|taken.runs|));
    hide ProgressList, Intake, Tick, SchedulesOk, LaterSchedules;
    ProgressListProgressed(env, current, taken, UpTo(|taken.runs|));
    ProgressedSchedules(taken, Tick(env, current, now, db));
    SameLater(db, fired, taken, Tick(env, current, now, db));
  }

  lemma {:induction false} ProgressedSchedules(db: Db, db': Db)
    requires SchedulesOk(db) && Progressed(db, db')
    ensures SchedulesOk(db') && db'.schedules == db.schedules
  {
    forall r | 0 <= r < |db.runs| ensures LaterRun(db.runs[r], db'.runs[r]) {}
    RunsKeepSchedules(db, db');
  }

  lemma {:induction false} SameLater(a: Db, b: Db, c: Db, d: Db)
    requires b.schedules == a.schedules && LaterSchedules(b, c) && d.schedules == c.schedules
    ensures LaterSchedules(a, d)
  {
  }

  lemma {:induction false} ClientSchedules(env: Env, w: World, w': World)
    requires SchedulesOk(w.db) && ClientStep(env, w, w')
    ensures SchedulesOk(w'.db) && LaterSchedules(w.db, w'.db)
  {
    hide SchedulesOk, LaterSchedules;
    if spec, promote, runAt :| w'.db == RequestRun(w.db, spec, promote, runAt) {
      RequestSchedules(w.db, spec, promote, runAt);
    } else if s :| 0 <= s < |w.db.schedules| && w'.db == RequestScheduleCancel(w.db, s) {
      CancelSchedules(w.db, s);
    } else {
      RunsKeepSchedules(w.db, w'.db);
      LaterRefl(w.db, w'.db);
    }
  }

  lemma {:induction false} LaterRefl(db: Db, db': Db)
    requires db'.schedules == db.schedules
    ensures LaterSchedules(db, db')
  {
  }

  lemma {:induction false} RequestSchedules(db: Db, spec: Spec, promote: Option<bool>, runAt: Option<int>)
    requires SchedulesOk(db)
    ensures SchedulesOk(RequestRun(db, spec, promote, runAt))
        && LaterSchedules(db, RequestRun(db, spec, promote, runAt))
  {
    var db' := RequestRun(db, spec, promote, runAt);
    forall i | 0 <= i < |db'.schedules| ensures ScheduleOk(db', i) {
      assert i < |db.schedules| ==> ScheduleOk(db, i);
    }
  }

  lemma {:induction false} CancelSchedules(db: Db, s: nat)
    requires SchedulesOk(db) && s < |db.schedules|
    ensures SchedulesOk(RequestScheduleCancel(db, s)) && LaterSchedules(db, RequestScheduleCancel(db, s))
  {
    var db' := RequestScheduleCancel(db, s);
    forall i | 0 <= i < |db'.schedules| ensures ScheduleOk(db', i) { assert ScheduleOk(db, i); }
  }

  lemma {:induction false} StepSchedules(env: Env, contracts: Contracts, w: World, w': World)
    requires SchedulesOk(w.db) && Step(env, contracts, w, w')
    ensures SchedulesOk(w'.db) && LaterSchedules(w.db, w'.db)
  {
    hide ClientStep, Tick, JobOf;
    if now :| TickStep(env, w, w', now) {
      TickSchedules(env, CurrentsOf(w.ledger), now, w.db);
    } else if ClientStep(env, w, w') {
      ClientSchedules(env, w, w');
    } else {
      OthersKeepSchedules(env, contracts, w, w');
      RunsKeepSchedules(w.db, w'.db);
    }
  }

  lemma {:induction false} OthersKeepSchedules(env: Env, contracts: Contracts, w: World, w': World)
    requires Step(env, contracts, w, w') && !ClientStep(env, w, w') && forall now :: !TickStep(env, w, w', now)
    ensures w'.db.schedules == w.db.schedules && w'.db.runs == w.db.runs
  {
    hide ClientStep, TickStep, JobOf, AttemptStep;
  }

  /** In every history, dispatched schedules and their runs match one to one. */
  lemma {:induction false} SchedulesAlwaysOk(env: Env, contracts: Contracts, ws: seq<World>, t: nat)
    requires Behavior(env, contracts, ws) && t < |ws|
    ensures SchedulesOk(ws[t].db)
  {
    hide Step;
    if t > 0 {
      SchedulesAlwaysOk(env, contracts, ws, t - 1);
      assert Step(env, contracts, ws[t - 1], ws[t - 1 + 1]);
      StepSchedules(env, contracts, ws[t - 1], ws[t]);
    }
  }

  /** A dispatched schedule keeps its one run for ever; a cancelled one is never dispatched. */
  lemma {:induction false} ScheduleFate(env: Env, contracts: Contracts, ws: seq<World>, t: nat, u: nat, i: nat)
    requires Behavior(env, contracts, ws) && t <= u < |ws| && i < |ws[t].db.schedules|
    ensures i < |ws[u].db.schedules|
    ensures ws[t].db.schedules[i].dispatchedTo.Some? ==> ws[u].db.schedules[i] == ws[t].db.schedules[i]
    ensures ws[t].db.schedules[i].cancelRequested ==> ws[u].db.schedules[i].dispatchedTo.None?
    decreases u
  {
    hide Step, Init;
    SchedulesAlwaysOk(env, contracts, ws, t);
    if t < u {
      ScheduleFate(env, contracts, ws, t, u - 1, i);
      SchedulesAlwaysOk(env, contracts, ws, u - 1);
      SchedulesAlwaysOk(env, contracts, ws, u);
      assert Step(env, contracts, ws[u - 1], ws[u - 1 + 1]);
      hide SchedulesOk;
      StepSchedules(env, contracts, ws[u - 1], ws[u]);
      if ws[t].db.schedules[i].cancelRequested { CancelledStays(env, contracts, ws, t, u, i); }
      assert LaterSchedule(ws[u - 1].db.schedules[i], ws[u].db.schedules[i]);
    } else {
      assert ScheduleOk(ws[t].db, i);
    }
  }

  lemma {:induction false} CancelledStays(env: Env, contracts: Contracts, ws: seq<World>, t: nat, u: nat, i: nat)
    requires Behavior(env, contracts, ws) && t <= u < |ws| && i < |ws[t].db.schedules|
        && ws[t].db.schedules[i].cancelRequested
    ensures i < |ws[u].db.schedules| && ws[u].db.schedules[i] == ws[t].db.schedules[i]
    decreases u
  {
    hide Step, Init;
    if t < u {
      CancelledStays(env, contracts, ws, t, u - 1, i);
      SchedulesAlwaysOk(env, contracts, ws, u - 1);
      assert Step(env, contracts, ws[u - 1], ws[u - 1 + 1]);
      hide SchedulesOk;
      StepSchedules(env, contracts, ws[u - 1], ws[u]);
      assert LaterSchedule(ws[u - 1].db.schedules[i], ws[u].db.schedules[i]);
    }
  }
}
