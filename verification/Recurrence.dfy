/** Standing rules over whole histories: the runs they spawn keep their distance. */
module Recurrence {
  import opened Stages
  import opened Tables
  import opened Ticks
  import opened Evolution
  import opened TickInvariants
  import opened Control
  import opened Ledgers
  import opened ResourceStore
  import opened Runner
  import opened Protocol
  import opened ProtocolSafety
  import opened IntakeFacts

  // ---- what the service lets in --------------------------------------------

  ghost predicate RuleOk(rule: Rule) {
    rule.cadence.Interval? ==> rule.cadence.seconds > 0
  }

  ghost predicate RulesOk(db: Db) {
    forall k :: 0 <= k < |db.rules| ==> RuleOk(db.rules[k])
  }

  lemma {:induction false} AcceptedIsOk(env: Env, spec: Spec, promote: Option<bool>, cadence: Cadence, at: int)
    requires AcceptedRule(env, cadence, at)
    ensures RuleOk(Rule(spec, promote, cadence, at, true))
  {
  }

  lemma {:induction false} ClientRules(env: Env, w: World, w': World)
    requires ClientStep(env, w, w') && RulesOk(w.db)
    ensures RulesOk(w'.db)
  {
    hide AcceptedRule, RuleOk;
    if spec, promote, cadence, at :|
        AcceptedRule(env, cadence, at) && w'.db == CreateRule(w.db, spec, promote, cadence, at) {
      AcceptedIsOk(env, spec, promote, cadence, at);
    } else if k :| 0 <= k < |w.db.rules| && w'.db == DisableRule(w.db, k) {
      DisabledIsOk(w.db.rules[k]);
    }
  }

  lemma {:induction false} DisabledIsOk(rule: Rule)
    requires RuleOk(rule)
    ensures RuleOk(rule.(enabled := false))
  {
  }

  lemma {:induction false} StepRules(env: Env, contracts: Contracts, w: World, w': World)
    requires Step(env, contracts, w, w') && RulesOk(w.db)
    ensures RulesOk(w'.db)
  {
    hide TickStep, ClientStep, JobOf, AttemptStep, RuleOk;
    if now :| TickStep(env, w, w', now) {
      forall k | 0 <= k < |w'.db.rules| ensures RuleOk(w'.db.rules[k]) { TickRuleOk(env, w, w', now, k); }
    } else if ClientStep(env, w, w') {
      ClientRules(env, w, w');
    }
  }

  lemma {:induction false} TickRuleOk(env: Env, w: World, w': World, now: int, k: nat)
    requires TickStep(env, w, w', now) && k < |w'.db.rules| && RulesOk(w.db)
    ensures RuleOk(w'.db.rules[k])
  {
    var taken := Taken(env, now, w.db);
    assert w'.db == ProgressList(env, CurrentsOf(w.ledger), taken, UpTo(|taken.runs|));
    assert |taken.rules| == |w.db.rules|;
    hide Tick, ProgressList, TickStep;
    ProgressListProgressed(env, CurrentsOf(w.ledger), taken, UpTo(|taken.runs|));
    assert RuleOk(w.db.rules[k]);
  }

  /** Every interval in the tables is positive, in every history. */
  lemma {:induction false} RulesAlwaysOk(env: Env, contracts: Contracts, ws: seq<World>, t: nat)
    requires Behavior(env, contracts, ws) && t < |ws|
    ensures RulesOk(ws[t].db)
  {
    hide Step;
    if t > 0 {
      RulesAlwaysOk(env, contracts, ws, t - 1);
      assert Step(env, contracts, ws[t - 1], ws[t - 1 + 1]);
      StepRules(env, contracts, ws[t - 1], ws[t]);
    }
  }

  // ---- firings of a history ------------------------------------------------

  /** Step t is a tick with clock reading `now` that finds rule k due. */
  ghost predicate FiresAt(env: Env, ws: seq<World>, t: nat, k: nat, now: int) {
    t + 1 < |ws| && k < |ws[t].db.rules| && TickStep(env, ws[t], ws[t + 1], now) && Due(ws[t].db.rules[k], now)
  }

  /** A firing spawns one run with the rule's defaults, at a place of its own among the new runs. */
  lemma {:induction false} FiringSpawns(env: Env, ws: seq<World>, t: nat, k: nat, now: int) returns (q: nat)
    requires FiresAt(env, ws, t, k, now)
    ensures var rule, runs, runs' := ws[t].db.rules[k], ws[t].db.runs, ws[t + 1].db.runs;
            && q == |runs| + |Firings(ws[t].db.rules[..k], now)| && |runs| <= q < |runs'|
            && runs'[q].spec == rule.spec && runs'[q].promote == ResolvePromote(rule.promote, rule.spec)
  {
    var w, w' := ws[t], ws[t + 1];
    q := |w.db.runs| + |Firings(w.db.rules[..k], now)|;
    FiringIsRun(w.db.rules, now, k);
    var taken := Taken(env, now, w.db);
    assert q < |taken.runs| && taken.runs[q]
        == NewRun(w.db.rules[k].spec, ResolvePromote(w.db.rules[k].promote, w.db.rules[k].spec));
    assert w'.db == ProgressList(env, CurrentsOf(w.ledger), taken, UpTo(|taken.runs|));
    hide Tick, Taken, ProgressList, TickStep, ResolvePromote, Firings;
    ProgressListProgressed(env, CurrentsOf(w.ledger), taken, UpTo(|taken.runs|));
    assert LaterRun(taken.runs[q], w'.db.runs[q]);
  }

  /** A tick fires an enabled rule whose time has come, and leaves any other as it is. */
  lemma {:induction false} TickOnRule(env: Env, w: World, w': World, now: int, k: nat)
    requires TickStep(env, w, w', now) && k < |w.db.rules|
    ensures k < |w'.db.rules|
    ensures var rule, rule' := w.db.rules[k], w'.db.rules[k];
            if rule.enabled && rule.nextRunAt <= now then
              rule' == rule.(nextRunAt := match rule.cadence
                                          case Cron(expression) => env.cron(expression, now)
                                          case Interval(seconds) => now + seconds)
            else rule' == rule
  {
    TickRule(env, w, w', now, k);
    hide TickStep;
  }

  /** Until a tick reads a clock at or after its next time a rule can only be disabled. */
  lemma {:induction false} NextHolds(env: Env, contracts: Contracts, ws: seq<World>, t: nat, u: nat, k: nat)
    requires Behavior(env, contracts, ws) && t <= u < |ws| && k < |ws[t].db.rules|
    requires forall s, n :: t <= s < u && TickAtStep(env, ws, s, n) ==> n < ws[t].db.rules[k].nextRunAt
    ensures k < |ws[u].db.rules|
    ensures ws[u].db.rules[k] == ws[t].db.rules[k].(enabled := ws[u].db.rules[k].enabled)
    ensures !ws[t].db.rules[k].enabled ==> !ws[u].db.rules[k].enabled
    decreases u
  {
    hide Step, Init;
    if t < u {
      NextHolds(env, contracts, ws, t, u - 1, k);
      assert Step(env, contracts, ws[u - 1], ws[u - 1 + 1]);
      hide Behavior, TickStep;
      var e := StepRule(env, contracts, ws[u - 1], ws[u], k);
      if e.TickAt? { assert TickAtStep(env, ws, u - 1, e.now); }
    }
  }

  /** From a given time on, a rule fires on exactly the first tick at or after its next time, if it is enabled then. */
  lemma {:induction false} FiresExactly(env: Env, contracts: Contracts, ws: seq<World>, t: nat, u: nat, k: nat, m: int)
    requires Behavior(env, contracts, ws) && t <= u && TickAtStep(env, ws, u, m) && k < |ws[t].db.rules|
    requires forall s, n :: t <= s < u && TickAtStep(env, ws, s, n) ==> n < ws[t].db.rules[k].nextRunAt
    ensures k < |ws[u].db.rules|
    ensures FiresAt(env, ws, u, k, m) <==> ws[u].db.rules[k].enabled && ws[t].db.rules[k].nextRunAt <= m
  {
    NextHolds(env, contracts, ws, t, u, k);
    hide Behavior, TickStep;
  }

  /**
   * After a firing at `now` the rule fires again on exactly the first tick whose clock has reached the next time,
   * provided that nobody has disabled it by then: neither earlier nor later.
   */
  lemma {:induction false} NextFiringExactly(env: Env, contracts: Contracts, ws: seq<World>, t: nat, u: nat, k: nat,
                    now: int, m: int)
    requires Behavior(env, contracts, ws) && FiresAt(env, ws, t, k, now) && t < u && TickAtStep(env, ws, u, m)
    requires forall s, n :: t < s < u && TickAtStep(env, ws, s, n)
                            ==> n < NextRunAt(env.cron, ws[t].db.rules[k].cadence, now)
    ensures k < |ws[t + 1].db.rules| && k < |ws[u].db.rules|
    ensures ws[t].db.rules[k].cadence.Interval? ==>
              var seconds := ws[t].db.rules[k].cadence.seconds;
              && ws[t + 1].db.rules[k].nextRunAt == now + seconds
              && (FiresAt(env, ws, u, k, m) <==> ws[u].db.rules[k].enabled && now + seconds <= m)
    ensures ws[t].db.rules[k].cadence.Cron? ==>
              var next := env.cron(ws[t].db.rules[k].cadence.expression, now);
              && ws[t + 1].db.rules[k].nextRunAt == next
              && (FiresAt(env, ws, u, k, m) <==> ws[u].db.rules[k].enabled && next <= m)
  {
    hide Behavior, TickStep;
    TickOnRule(env, ws[t], ws[t + 1], now, k);
    FiresExactly(env, contracts, ws, t + 1, u, k, m);
  }

  /** A disabled rule stays as it is and never fires. */
  lemma {:induction false} DisabledForGood(env: Env, contracts: Contracts, ws: seq<World>, t: nat, u: nat, k: nat)
    requires Behavior(env, contracts, ws) && t <= u < |ws| && k < |ws[t].db.rules| && !ws[t].db.rules[k].enabled
    ensures k < |ws[u].db.rules| && ws[u].db.rules[k] == ws[t].db.rules[k]
    ensures forall now :: !FiresAt(env, ws, u, k, now)
    decreases u
  {
    hide Step, Init, TickStep;
    if t < u {
      DisabledForGood(env, contracts, ws, t, u - 1, k);
      assert Step(env, contracts, ws[u - 1], ws[u - 1 + 1]);
      var e := StepRule(env, contracts, ws[u - 1], ws[u], k);
    }
  }

  /** The next time is later than now, as it is for every positive interval. */
  ghost predicate Advances(env: Env, cadence: Cadence) {
    forall n :: NextRunAt(env.cron, cadence, n) > n
  }

  lemma {:induction false} StepNext(env: Env, contracts: Contracts, w: World, w': World, k: nat)
    requires Step(env, contracts, w, w') && k < |w.db.rules| && Advances(env, w.db.rules[k].cadence)
    ensures k < |w'.db.rules| && w'.db.rules[k].cadence == w.db.rules[k].cadence
    ensures w'.db.rules[k].nextRunAt >= w.db.rules[k].nextRunAt
  {
    hide Step, TickStep, NextRunAt;
    var e := StepRule(env, contracts, w, w', k);
    if e.TickAt? { assert NextRunAt(env.cron, w.db.rules[k].cadence, e.now) > e.now; }
  }

  lemma {:induction false} NextGrows(env: Env, contracts: Contracts, ws: seq<World>, t: nat, u: nat, k: nat)
    requires Behavior(env, contracts, ws) && t <= u < |ws| && k < |ws[t].db.rules|
        && Advances(env, ws[t].db.rules[k].cadence)
    ensures k < |ws[u].db.rules| && ws[u].db.rules[k].cadence == ws[t].db.rules[k].cadence
    ensures ws[u].db.rules[k].nextRunAt >= ws[t].db.rules[k].nextRunAt
    decreases u
  {
    hide Step, Init, Advances;
    if t < u {
      NextGrows(env, contracts, ws, t, u - 1, k);
      assert Step(env, contracts, ws[u - 1], ws[u - 1 + 1]);
      StepNext(env, contracts, ws[u - 1], ws[u], k);
    }
  }

  /** A later firing comes no earlier than the time that the earlier one set. */
  lemma {:induction false} FiringsInOrder(env: Env, contracts: Contracts, ws: seq<World>, t: nat, u: nat, k: nat,
                    n: int, m: int)
    requires Behavior(env, contracts, ws) && t < u && FiresAt(env, ws, t, k, n) && FiresAt(env, ws, u, k, m)
    requires Advances(env, ws[t].db.rules[k].cadence)
    ensures ws[u].db.rules[k].cadence == ws[t].db.rules[k].cadence
    ensures m >= NextRunAt(env.cron, ws[t].db.rules[k].cadence, n)
  {
    hide Step, Init, Advances, TickStep, NextRunAt;
    TickRule(env, ws[t], ws[t + 1], n, k);
    NextGrows(env, contracts, ws, t + 1, u, k);
  }

  /** Two firings of an interval rule are at least one positive interval apart, whatever happened between them. */
  lemma {:induction false} IntervalSpacing(env: Env, contracts: Contracts, ws: seq<World>, t: nat, u: nat, k: nat,
                    n: int, m: int)
    requires Behavior(env, contracts, ws) && t < u && FiresAt(env, ws, t, k, n) && FiresAt(env, ws, u, k, m)
    requires ws[t].db.rules[k].cadence.Interval?
    ensures ws[u].db.rules[k].cadence == ws[t].db.rules[k].cadence && ws[t].db.rules[k].cadence.seconds > 0
    ensures m - n >= ws[t].db.rules[k].cadence.seconds
  {
    RulesAlwaysOk(env, contracts, ws, t);
    hide Step, Init, TickStep;
    assert RuleOk(ws[t].db.rules[k]);
    FiringsInOrder(env, contracts, ws, t, u, k, n, m);
  }

  /** Two firings of a cron rule come at different times, as long as the library answers with later times. */
  lemma {:induction false} CronSpacing(env: Env, contracts: Contracts, ws: seq<World>, t: nat, u: nat, k: nat, n: int,
                    m: int)
    requires Behavior(env, contracts, ws) && t < u && FiresAt(env, ws, t, k, n) && FiresAt(env, ws, u, k, m)
    requires ws[t].db.rules[k].cadence.Cron? && forall x :: env.cron(ws[t].db.rules[k].cadence.expression, x) > x
    ensures n < env.cron(ws[t].db.rules[k].cadence.expression, n) <= m
  {
    hide Step, Init, TickStep;
    FiringsInOrder(env, contracts, ws, t, u, k, n, m);
  }

  // ---- no bursts -----------------------------------------------------------

  /** Some firings of rule k, in order: the steps and their clock readings. */
  ghost predicate FiringLog(env: Env, ws: seq<World>, k: nat, log: seq<(nat, int)>) {
    && (forall i :: 0 <= i < |log| ==> FiresAt(env, ws, log[i].0, k, log[i].1))
    && forall i, j :: 0 <= i < j < |log| ==> log[i].0 < log[j].0
  }

  ghost predicate IntervalRule(ws: seq<World>, k: nat, log: seq<(nat, int)>, seconds: int) {
    log != [] && log[0].0 < |ws| && k < |ws[log[0].0].db.rules| && ws[log[0].0].db.rules[k].cadence == Interval(seconds)
  }

  lemma {:induction false} LogStep(env: Env, contracts: Contracts, ws: seq<World>, k: nat, log: seq<(nat, int)>, j: nat,
                    seconds: int)
    requires Behavior(env, contracts, ws) && FiringLog(env, ws, k, log) && IntervalRule(ws, k, log, seconds)
        && j < |log|
    ensures log[j].0 < |ws| && k < |ws[log[j].0].db.rules| && ws[log[j].0].db.rules[k].cadence == Interval(seconds)
    ensures j > 0 ==> seconds > 0 && log[j].1 - log[j - 1].1 >= seconds
    decreases j
  {
    hide Behavior, FiresAt;
    if j > 0 {
      LogStep(env, contracts, ws, k, log, j - 1, seconds);
      assert FiresAt(env, ws, log[j - 1].0, k, log[j - 1].1) && FiresAt(env, ws, log[j].0, k, log[j].1);
      FireBounds(env, ws, log[j].0, k, log[j].1);
      IntervalSpacing(env, contracts, ws, log[j - 1].0, log[j].0, k, log[j - 1].1, log[j].1);
    }
  }

  lemma {:induction false} FireBounds(env: Env, ws: seq<World>, t: nat, k: nat, now: int)
    requires FiresAt(env, ws, t, k, now)
    ensures t + 1 < |ws| && k < |ws[t].db.rules|
  {
  }

  lemma {:induction false} LogSpan(env: Env, contracts: Contracts, ws: seq<World>, k: nat, log: seq<(nat, int)>, j: nat,
                    seconds: int)
    requires Behavior(env, contracts, ws) && FiringLog(env, ws, k, log) && IntervalRule(ws, k, log, seconds)
        && j < |log|
    ensures log[j].1 - log[0].1 >= j * seconds
    decreases j
  {
    hide Behavior, FiringLog, IntervalRule;
    if j > 0 {
      LogSpan(env, contracts, ws, k, log, j - 1, seconds);
      LogStep(env, contracts, ws, k, log, j, seconds);
      assert j * seconds == (j - 1) * seconds + seconds;
    }
  }

  lemma {:induction false} IntervalPositive(env: Env, contracts: Contracts, ws: seq<World>, k: nat,
                    log: seq<(nat, int)>, seconds: int)
    requires Behavior(env, contracts, ws) && IntervalRule(ws, k, log, seconds)
    ensures seconds > 0
  {
    hide Behavior;
    RulesAlwaysOk(env, contracts, ws, log[0].0);
    assert RuleOk(ws[log[0].0].db.rules[k]);
  }

  /** In every history a window of length w holds at most w / interval + 1 firings of a rule, even after a downtime. */
  lemma {:induction false} NoBurstEver(env: Env, contracts: Contracts, ws: seq<World>, k: nat, log: seq<(nat, int)>,
                    w: nat, seconds: int)
    requires Behavior(env, contracts, ws) && FiringLog(env, ws, k, log) && IntervalRule(ws, k, log, seconds)
    requires log[|log| - 1].1 - log[0].1 <= w
    ensures seconds > 0 && |log| <= w / seconds + 1
  {
    assert log != [];
    hide *;
    var last := |log| - 1;
    IntervalPositive(env, contracts, ws, k, log, seconds);
    LogSpan(env, contracts, ws, k, log, last, seconds);
    assert last * seconds <= w;
    assert last <= w / seconds by { QuotientBound(last, seconds, w); }
  }
}
