/** The scheduler's poll, in place on the tables (services/scheduler/src/poller.py). */
module Scheduler {
  import opened Stages
  import opened Dag
  import opened Tables
  import opened TableStore
  import opened Ticks
  import Ledgers
  import ResourceStore
  import opened Evolution
  import opened Isolation

  // ---- row by row is the same as all at once -------------------------------

  /** Intake of one listed schedule. */
  function TakeSchedule(db: Db, x: Listed<Schedule>): Db
    requires x.id < |db.schedules|
  {
    db.(schedules := db.schedules[x.id := db.schedules[x.id].(dispatchedTo := Some(|db.runs|))],
        runs := db.runs + [NewRun(x.row.spec, ResolvePromote(x.row.promote, x.row.spec))])
  }

  function TakeSchedules(db: Db, xs: seq<Listed<Schedule>>): (db': Db)
    requires forall k :: 0 <= k < |xs| ==> xs[k].id < |db.schedules|
    ensures |db'.schedules| == |db.schedules|
  {
    if xs == [] then db else TakeSchedule(TakeSchedules(db, xs[..|xs| - 1]), xs[|xs| - 1])
  }

  lemma {:induction false} TakeSnoc(db: Db, xs: seq<Listed<Schedule>>, i: nat)
    requires i < |xs| && forall k :: 0 <= k < |xs| ==> xs[k].id < |db.schedules|
    ensures TakeSchedules(db, xs[..i + 1]) == TakeSchedule(TakeSchedules(db, xs[..i]), xs[i])
  {
    assert xs[..i + 1][..i] == xs[..i];
  }

  /** Intake of the first m schedules. */
  function IntakePrefix(now: int, db: Db, m: nat): Db
    requires m <= |db.schedules|
  {
    db.(schedules := seq(|db.schedules|, i requires 0 <= i < |db.schedules| =>
                       if i < m then ScheduleStep(db.schedules, now, |db.runs|, i) else db.schedules[i]),
        runs := db.runs + Dispatches(db.schedules[..m], now))
  }

  lemma {:induction false} PendingIds(schedules: seq<Schedule>, now: int, m: nat)
    requires m <= |schedules|
    ensures forall k :: 0 <= k < |PendingOf(schedules[..m], now)| ==> PendingOf(schedules[..m], now)[k].id < |schedules|
  {
    var xs := PendingOf(schedules[..m], now);
    forall k | 0 <= k < |xs| ensures xs[k].id < |schedules| { PendingMembers(schedules[..m], now, xs[k]); }
  }

  lemma {:induction false} IntakeStep(now: int, db: Db, m: nat)
    requires m < |db.schedules|
    ensures IntakePrefix(now, db, m + 1)
         == if Pending(db.schedules[m], now) then TakeSchedule(IntakePrefix(now, db, m), Listed(m, db.schedules[m]))
             else IntakePrefix(now, db, m)
  {
    assert db.schedules[..m + 1][..m] == db.schedules[..m];
    hide ResolvePromote, NewRun;
  }

  lemma {:induction false} TakeIsIntake(now: int, db: Db, m: nat)
    requires m <= |db.schedules|
    requires forall k :: 0 <= k < |PendingOf(db.schedules[..m], now)|
                         ==> PendingOf(db.schedules[..m], now)[k].id < |db.schedules|
    ensures TakeSchedules(db, PendingOf(db.schedules[..m], now)) == IntakePrefix(now, db, m)
  {
    hide IntakePrefix, TakeSchedule;
    if m == 0 {
      IntakeNothing(now, db);
    } else {
      IntakeStep(now, db, m - 1);
      var init := PendingOf(db.schedules[..m - 1], now);
      assert db.schedules[..m][..m - 1] == db.schedules[..m - 1];
      PendingIds(db.schedules, now, m - 1);
      TakeIsIntake(now, db, m - 1);
      if Pending(db.schedules[m - 1], now) {
        var xs := PendingOf(db.schedules[..m], now);
        assert xs[..|xs| - 1] == init;
      } else {
        assert PendingOf(db.schedules[..m], now) == init;
      }
    }
  }

  lemma {:induction false} IntakeNothing(now: int, db: Db)
    ensures IntakePrefix(now, db, 0) == db
    ensures IntakePrefix(now, db, |db.schedules|) == Intake(now, db)
  {
    assert db.schedules[..|db.schedules|] == db.schedules;
  }

  /** One due rule fires. */
  function FireRule(cron: (string, int) -> int, now: int, db: Db, x: Listed<Rule>): Db
    requires x.id < |db.rules|
  {
    db.(rules := db.rules[x.id := db.rules[x.id].(nextRunAt := NextRunAt(cron, x.row.cadence, now))],
        runs := db.runs + [NewRun(x.row.spec, ResolvePromote(x.row.promote, x.row.spec))])
  }

  function FireRules(cron: (string, int) -> int, now: int, db: Db, xs: seq<Listed<Rule>>): (db': Db)
    requires forall k :: 0 <= k < |xs| ==> xs[k].id < |db.rules|
    ensures |db'.rules| == |db.rules|
  {
    if xs == [] then db else FireRule(cron, now, FireRules(cron, now, db, xs[..|xs| - 1]), xs[|xs| - 1])
  }

  lemma {:induction false} FireSnoc(cron: (string, int) -> int, now: int, db: Db, xs: seq<Listed<Rule>>, i: nat)
    requires i < |xs| && forall k :: 0 <= k < |xs| ==> xs[k].id < |db.rules|
    ensures FireRules(cron, now, db, xs[..i + 1]) == FireRule(cron, now, FireRules(cron, now, db, xs[..i]), xs[i])
  {
    assert xs[..i + 1][..i] == xs[..i];
  }

  function RecurringPrefix(cron: (string, int) -> int, now: int, db: Db, m: nat): Db
    requires m <= |db.rules|
  {
    db.(rules := seq(|db.rules|, i requires 0 <= i < |db.rules| => if i < m then RuleStep(cron, db.rules[i], now)
        else db.rules[i]),
        runs := db.runs + Firings(db.rules[..m], now))
  }

  lemma {:induction false} DueIds(rules: seq<Rule>, now: int, m: nat)
    requires m <= |rules|
    ensures forall k :: 0 <= k < |DueOf(rules[..m], now)| ==> DueOf(rules[..m], now)[k].id < |rules|
  {
    var xs := DueOf(rules[..m], now);
    forall k | 0 <= k < |xs| ensures xs[k].id < |rules| { DueMembers(rules[..m], now, xs[k]); }
  }

  lemma {:induction false} RecurringStep(cron: (string, int) -> int, now: int, db: Db, m: nat)
    requires m < |db.rules|
    ensures RecurringPrefix(cron, now, db, m + 1)
         == if Due(db.rules[m], now) then FireRule(cron, now, RecurringPrefix(cron, now, db, m), Listed(m, db.rules[m]))
             else RecurringPrefix(cron, now, db, m)
  {
    assert db.rules[..m + 1][..m] == db.rules[..m];
    hide ResolvePromote, NewRun, NextRunAt;
  }

  lemma {:induction false} RecurringNothing(cron: (string, int) -> int, now: int, db: Db)
    ensures RecurringPrefix(cron, now, db, 0) == db
    ensures RecurringPrefix(cron, now, db, |db.rules|) == IntakeRecurring(cron, now, db)
  {
    assert db.rules[..|db.rules|] == db.rules;
  }

  lemma {:induction false} FireIsRecurring(cron: (string, int) -> int, now: int, db: Db, m: nat)
    requires m <= |db.rules|
    requires forall k :: 0 <= k < |DueOf(db.rules[..m], now)| ==> DueOf(db.rules[..m], now)[k].id < |db.rules|
    ensures FireRules(cron, now, db, DueOf(db.rules[..m], now)) == RecurringPrefix(cron, now, db, m)
  {
    hide RecurringPrefix, FireRule;
    if m == 0 {
      RecurringNothing(cron, now, db);
    } else {
      RecurringStep(cron, now, db, m - 1);
      var init := DueOf(db.rules[..m - 1], now);
      assert db.rules[..m][..m - 1] == db.rules[..m - 1];
      DueIds(db.rules, now, m - 1);
      FireIsRecurring(cron, now, db, m - 1);
      if Due(db.rules[m - 1], now) {
        var xs := DueOf(db.rules[..m], now);
        assert xs[..|xs| - 1] == init;
      } else {
        assert DueOf(db.rules[..m], now) == init;
      }
    }
  }

  function Ids(xs: seq<Listed<Run>>): seq<nat> {
    seq(|xs|, k requires 0 <= k < |xs| => xs[k].id)
  }

  /** The snapshot of active runs: distinct ids of rows that stay as they are until they are visited. */
  lemma {:induction false} SnapshotVisits(db: Db, m: nat)
    requires m <= |db.runs|
    ensures Visits(db, Ids(ActiveOf(db.runs[..m])))
    ensures forall k :: 0 <= k < |ActiveOf(db.runs[..m])| ==> ActiveOf(db.runs[..m])[k].id < m
  {
    var xs := ActiveOf(db.runs[..m]);
    forall k | 0 <= k < |xs| ensures xs[k].id < m { ActiveMembers(db.runs[..m], xs[k]); }
    if m > 0 {
      assert db.runs[..m][..m - 1] == db.runs[..m - 1];
      SnapshotVisits(db, m - 1);
      var init := ActiveOf(db.runs[..m - 1]);
      forall j, k | 0 <= j < k < |xs| ensures Ids(xs)[j] != Ids(xs)[k] {
        if k < |init| { assert Ids(init)[j] != Ids(init)[k]; }
      }
    }
  }

  lemma {:induction false} SnapshotBelow(db: Db, m: nat)
    requires m <= |db.runs|
    ensures m !in Ids(ActiveOf(db.runs[..m]))
  {
    SnapshotVisits(db, m);
  }

  lemma {:induction false} NotVisited(env: Env, current: Currents, db: Db, rs: seq<nat>, r: nat)
    requires Visits(db, rs) && r < |db.runs| && r !in rs
    ensures ProgressList(env, current, db, rs).runs[r] == db.runs[r]
  {
    hide ProgressList;
    VisitedAlone(env, current, db, rs, r);
  }

  lemma {:induction false} ProgressSnoc(env: Env, current: Currents, db: Db, rs: seq<nat>, r: nat)
    requires (forall i :: 0 <= i < |rs| ==> rs[i] < |db.runs|) && r < |db.runs|
    ensures var db' := ProgressList(env, current, db, rs);
            ProgressList(env, current, db, rs + [r]) == if Active(db'.runs[r].status)
                then ProgressRun(env, current, db', r) else db'
  {
    hide ProgressRun;
    assert (rs + [r])[..|rs|] == rs;
  }

  lemma {:induction false} ActiveSnoc(db: Db, m: nat)
    requires m < |db.runs|
    ensures Ids(ActiveOf(db.runs[..m + 1])) == if Active(db.runs[m].status) then Ids(ActiveOf(db.runs[..m])) + [m]
        else Ids(ActiveOf(db.runs[..m]))
    ensures UpTo(m + 1) == UpTo(m) + [m]
  {
    assert db.runs[..m + 1][..m] == db.runs[..m];
  }

  /** Visiting the runs that were active at the start is visiting all runs. */
  lemma {:induction false} SnapshotSuffices(env: Env, current: Currents, db: Db, m: nat)
    requires m <= |db.runs| && Visits(db, Ids(ActiveOf(db.runs[..m])))
    ensures ProgressList(env, current, db, Ids(ActiveOf(db.runs[..m]))) == ProgressList(env, current, db, UpTo(m))
  {
    if m > 0 {
      ActiveSnoc(db, m - 1);
      SnapshotVisits(db, m - 1);
      SnapshotBelow(db, m - 1);
      SnapshotSuffices(env, current, db, m - 1);
      hide ProgressList, ProgressRun, ActiveOf, Ids, UpTo;
      var ids := Ids(ActiveOf(db.runs[..m - 1]));
      NotVisited(env, current, db, ids, m - 1);
      ProgressSnoc(env, current, db, ids, m - 1);
      UpToBelow(m - 1);
      ProgressSnoc(env, current, db, UpTo(m - 1), m - 1);
    }
  }

  lemma {:induction false} UpToBelow(n: nat)
    ensures forall i :: 0 <= i < |UpTo(n)| ==> UpTo(n)[i] < n
  {
  }

  /** A run that was not visited yet is as the snapshot has it. */
  lemma {:induction false} SnapshotHolds(env: Env, current: Currents, db: Db, xs: seq<Listed<Run>>, i: nat)
    requires Visits(db, Ids(xs)) && i < |xs| && Visits(db, Ids(xs)[..i])
    requires xs[i].id < |db.runs| && xs[i].row == db.runs[xs[i].id]
    ensures ProgressList(env, current, db, Ids(xs)[..i]).runs[xs[i].id] == xs[i].row
  {
    hide ProgressList;
    assert xs[i].id == Ids(xs)[i];
    NotVisited(env, current, db, Ids(xs)[..i], xs[i].id);
  }

  /** Current versions as the store answers `get`. */
  lemma {:induction false} CurrentAnswers(m: ResourceStore.Metadata, b: ResourceStore.Blobs, l: Ledgers.Ledger,
                    name: string)
    requires ResourceStore.Rep(m, b, l)
    ensures name in Ledgers.CurrentsOf(l) <==> Ledgers.Exists(l, name, Ledgers.HistoryOf(l, name).current)
    ensures name in Ledgers.CurrentsOf(l) ==> Ledgers.CurrentsOf(l)[name] == Ledgers.HistoryOf(l, name).current
  {
    if name in m.ids { ResourceStore.CurrentRow(m, b, l, name); }
  }

  /** `done` with the current versions of some names added. */
  function WithCurrents(done: map<string, nat>, names: set<string>, current: Currents): map<string, nat>
    requires names <= current.Keys
  {
    done + map d | d in names :: current[d]
  }

  lemma {:induction false} WithOneMore(done: map<string, nat>, names: set<string>, current: Currents, d: string)
    requires names <= current.Keys && d in current
    ensures WithCurrents(done, names + {d}, current) == WithCurrents(done, names, current)[d := current[d]]
  {
  }

  // ---- dispatching ---------------------------------------------------------

  lemma {:induction false} ReadySnoc(order: seq<StageDef>, i: nat, reachable: set<string>, started: set<string>,
                    done: map<string, nat>)
    requires i < |order|
    ensures Ready(order[..i + 1], reachable, started, done)
         == Ready(order[..i], reachable, started, done) + if IsReady(order[i], reachable, started, done) then [order[i]]
             else []
  {
    assert order[..i + 1][..i] == order[..i];
  }

  lemma {:induction false} AppendSnoc(db: Db, r: nat, ready: seq<StageDef>, s: StageDef, done: map<string, nat>)
    requires r < |db.runs| && AllIn(ready, done) && AllIn(ready + [s], done) && (forall d <- s.dependsOn :: d in done)
    ensures var db', db'' := Append(db, r, ready, done), Append(db, r, ready + [s], done);
            var inputs := InputsOf(s, done);
            && db''.stageRuns == db'.stageRuns + [NewStageRun(r, s.name, inputs, db.runs[r].promote)]
            && db''.enqueued == db'.enqueued + [Message(|db'.stageRuns|, r, db.runs[r].spec.workflow, s.name, inputs,
                db.runs[r].promote)]
            && db''.runs == db'.runs == db.runs && db''.schedules == db.schedules && db''.rules == db.rules
  {
    var promote := db.runs[r].promote;
    assert NewRows(r, promote, ready + [s], done)
        == NewRows(r, promote, ready, done) + [NewStageRun(r, s.name, InputsOf(s, done), promote)];
    assert NewMessages(|db.stageRuns|, r, db.runs[r], ready + [s], done)
        == NewMessages(|db.stageRuns|, r, db.runs[r], ready, done)
           + [Message(|db.stageRuns| + |ready|, r, db.runs[r].spec.workflow, s.name, InputsOf(s, done), promote)];
  }

  lemma {:induction false} ReadyAllIn(order: seq<StageDef>, reachable: set<string>, started: set<string>,
                    done: map<string, nat>)
    ensures AllIn(Ready(order, reachable, started, done), done)
  {
  }

  /**
   * Growing `started` by the stages just dispatched changes nothing for the stages still to come: names are
   * distinct.
   */
  lemma {:induction false} StartedGrows(order: seq<StageDef>, i: nat, reachable: set<string>, started: set<string>,
                    done: map<string, nat>)
    requires DistinctNames(order) && i < |order|
    ensures order[i].name !in Names(Ready(order[..i], reachable, started, done))
  {
    var ready := Ready(order[..i], reachable, started, done);
    forall s | s in ready ensures s.name != order[i].name {
      var k :| 0 <= k < i && order[k] == s;
    }
  }

  /** A mark on one stage run hides nobody from `started`. */
  lemma {:induction false} MarkedStarted(rows: seq<StageRun>, r: nat, i: nat)
    requires i < |rows|
    ensures Started(Records(rows[i := rows[i].(usedFallback := true)], r)) == Started(Records(rows, r))
  {
    var rows' := rows[i := rows[i].(usedFallback := true)];
    StartedOfMarked(rows, rows', r);
    StartedOfMarked(rows', rows, r);
  }

  lemma {:induction false} StartedOfMarked(rows: seq<StageRun>, rows': seq<StageRun>, r: nat)
    requires |rows| == |rows'| && forall k :: 0 <= k < |rows|
                                              ==> rows'[k].run == rows[k].run && rows'[k].stage == rows[k].stage
    ensures Started(Records(rows, r)) <= Started(Records(rows', r))
  {
    forall n | n in Started(Records(rows, r)) ensures n in Started(Records(rows', r)) {
      var x :| x in Records(rows, r) && x.row.stage == n;
      RecordsMembers(rows, r, x);
      RecordsMembers(rows', r, Record(x.id, rows'[x.id]));
    }
  }

  class Poller {
    const store: InMemoryScheduleStore
    const queue: InMemoryRunQueue
    const resources: ResourceStore.ResourceStoreService
    const env: Env

    constructor (store: InMemoryScheduleStore, queue: InMemoryRunQueue, resources: ResourceStore.ResourceStoreService,
                      env: Env)
      ensures this.store == store && this.queue == queue && this.resources == resources && this.env == env
    {
      this.store, this.queue, this.resources, this.env := store, queue, resources, env;
    }

    method FireOne(x: Listed<Rule>, now: int)
      requires x.id < |store.rules|
      modifies store
      ensures View(store, queue) == FireRule(env.cron, now, old(View(store, queue)), x)
    {
      var r := store.CreateWorkflowRun(x.row.spec, ResolvePromote(x.row.promote, x.row.spec));
      store.AdvanceRecurringSchedule(x.id, NextRunAt(env.cron, x.row.cadence, now));
    }

    method IntakeRecurringSchedules(now: int)
      modifies store
      ensures View(store, queue) == IntakeRecurring(env.cron, now, old(View(store, queue)))
    {
      ghost var db := View(store, queue);
      var due := store.DueRecurringSchedules(now);
      assert db.rules[..|db.rules|] == db.rules;
      DueIds(db.rules, now, |db.rules|);
      FireIsRecurring(env.cron, now, db, |db.rules|);
      RecurringNothing(env.cron, now, db);
      hide RecurringPrefix, IntakeRecurring, DueOf, FireRule;
      for i := 0 to |due|
        invariant View(store, queue) == FireRules(env.cron, now, db, due[..i])
      {
        FireSnoc(env.cron, now, db, due, i);
        hide FireRules;
        FireOne(due[i], now);
      }
      assert due[..|due|] == due;
    }

    method TakeOne(x: Listed<Schedule>)
      requires x.id < |store.schedules|
      modifies store
      ensures View(store, queue) == TakeSchedule(old(View(store, queue)), x)
    {
      var r := store.CreateWorkflowRun(x.row.spec, ResolvePromote(x.row.promote, x.row.spec));
      store.MarkScheduleDispatched(x.id, r);
    }

    method IntakeSchedules(now: int)
      modifies store
      ensures View(store, queue) == Intake(now, old(View(store, queue)))
    {
      ghost var db := View(store, queue);
      var pending := store.PendingSchedules(now);
      assert db.schedules[..|db.schedules|] == db.schedules;
      PendingIds(db.schedules, now, |db.schedules|);
      TakeIsIntake(now, db, |db.schedules|);
      IntakeNothing(now, db);
      hide IntakePrefix, Intake, PendingOf, TakeSchedule;
      for i := 0 to |pending|
        invariant View(store, queue) == TakeSchedules(db, pending[..i])
      {
        TakeSnoc(db, pending, i);
        hide TakeSchedules;
        TakeOne(pending[i]);
      }
      assert pending[..|pending|] == pending;
    }

    /** The checks that need only the request and the workflow: its order, and the stages in range. */
    method AdmitRun(spec: Spec) returns (a: Admission)
      ensures a == Admit(env, spec)
      ensures a.Admitted? ==> DistinctNames(a.order)
    {
      if spec.workflow !in env.registries { return Rejected(BadDag); }
      var registry := env.registries[spec.workflow];
      var sorted := ComputeTopologicalOrder(registry.stages);
      if sorted.None? { return Rejected(BadDag); }
      var order := sorted.value;
      var byName := ByName(order);
      var reachable := byName.Keys;
      if spec.startFrom.Some? {
        var range := ComputeReachableFrom(order, spec.startFrom.value);
        if range.None? { return Rejected(UnknownStartFrom); }
        reachable := range.value;
      }
      if spec.stopAfter.Some? && spec.stopAfter.value !in byName { return Rejected(UnknownStopAfter); }
      if spec.stopAfter.Some? && spec.stopAfter.value !in reachable { return Rejected(StopAfterUnreachable); }
      if spec.startFrom.Some? && exists d <- byName[spec.startFrom.value].dependsOn ::
          d !in spec.pins { return Rejected(MissingInputs); }
      a := Admitted(order, reachable, if spec.onFailure.Some? then spec.onFailure.value else registry.onFailure);
    }

    /** Adds the current version of every external dependency; false if one has none. */
    method ResolveExternals(order: seq<StageDef>, reachable: set<string>, done: map<string, nat>)
      returns (ok: bool, done': map<string, nat>)
      requires resources.Valid()
      ensures var external, current := ExternalDeps(order, reachable, done), Ledgers.CurrentsOf(resources.ledger);
              && (ok <==> external <= current.Keys)
              && (ok ==> done' == WithCurrents(done, external, current))
    {
      hide ResourceStore.Rep;
      var external := ExternalDeps(order, reachable, done);
      ghost var current := Ledgers.CurrentsOf(resources.ledger);
      var rest := external;
      done' := done;
      while rest != {}
        invariant rest <= external && external - rest <= current.Keys
        invariant done' == WithCurrents(done, external - rest, current)
        decreases rest
      {
        hide WithCurrents, ExternalDeps, Ledgers.CurrentsOf;
        var dep :| dep in rest;
        CurrentAnswers(resources.metadata.View(), resources.blobs.blobs, resources.ledger, dep);
        var found := resources.Get(dep, None);
        if found.None? {
          assert dep in external;
          return false, done';
        }
        WithOneMore(done, external - rest, current, dep);
        assert external - (rest - {dep}) == external - rest + {dep};
        rest := rest - {dep};
        done' := done'[dep := found.value.version];
      }
      assert external - rest == external;
      ok := true;
    }

    /** Creates and enqueues a stage run for every stage that is in range, not started, and has all inputs. */
    method DispatchReady(r: nat, run: Run, order: seq<StageDef>, reachable: set<string>, started: set<string>,
                      done: map<string, nat>)
      returns (any: bool)
      requires r < |store.runs| && store.runs[r] == run && DistinctNames(order)
      modifies store`stageRuns, queue
      ensures var ready := Ready(order, reachable, started, done);
              && any == (ready != [])
              && View(store, queue) == Append(old(View(store, queue)), r, ready, done)
    {
      hide Append, AllIn, DistinctNames;
      ghost var db := View(store, queue);
      var started' := started;
      any := false;
      ghost var ready: seq<StageDef> := [];
      AppendNothing(db, r, done);
      for i := 0 to |order|
        invariant ready == Ready(order[..i], reachable, started, done) && AllIn(ready, done)
        invariant started' == started + Names(ready)
        invariant any == (ready != [])
        invariant View(store, queue) == Append(db, r, ready, done)
        invariant store.runs == db.runs
      {
        hide Ready, InputsOf;
        var s := order[i];
        ReadySnoc(order, i, reachable, started, done);
        ReadyAllIn(order[..i + 1], reachable, started, done);
        StartedGrows(order, i, reachable, started, done);
        if s.name in reachable && s.name !in started' && forall d <- s.dependsOn :: d in done {
          AppendSnoc(db, r, ready, s, done);
          NamesSnoc(ready, s);
          var inputs := InputsOf(s, done);
          var id := store.CreateStageRun(r, s.name, inputs, run.promote);
          queue.EnqueueStageRun(Message(id, r, run.spec.workflow, s.name, inputs, run.promote));
          started' := started' + {s.name};
          any := true;
          ready := ready + [s];
        }
      }
      assert order[..|order|] == order;
    }

    lemma AppendNothing(db: Db, r: nat, done: map<string, nat>)
      requires r < |db.runs|
      ensures AllIn([], done) && Append(db, r, [], done) == db
    {
    }

    /** One iteration of `_progress`: an active run, as the snapshot has it. */
    method ProgressOne(r: nat, run: Run)
      requires resources.Valid() && r < |store.runs| && store.runs[r] == run
      modifies store, queue
      ensures View(store, queue) == ProgressRun(env, Ledgers.CurrentsOf(resources.ledger), old(View(store, queue)), r)
    {
      hide ResourceStore.Rep;
      ghost var db, current := View(store, queue), Ledgers.CurrentsOf(resources.ledger);
      if run.cancelRequested {
        store.MarkWorkflowRunCancelled(r);
        return;
      }
      var admission := AdmitRun(run.spec);
      if admission.Rejected? {
        store.MarkWorkflowRunFailed(r, admission.error);
        return;
      }
      var Admitted(order, reachable, policy) := admission;
      ProgressAdmitted(r, run, order, reachable, policy);
    }

    method ProgressAdmitted(r: nat, run: Run, order: seq<StageDef>, reachable: set<string>, policy: Policy)
      requires resources.Valid() && r < |store.runs| && store.runs[r] == run && DistinctNames(order)
      modifies store, queue
      ensures var db, current := old(View(store, queue)), Ledgers.CurrentsOf(resources.ledger);
              View(store, queue) == Apply(db, r, order, reachable,
                  Judge(run.spec, Records(db.stageRuns, r), order, reachable, policy, current))
    {
      hide ResourceStore.Rep, Conclude, Dispatch, Ledgers.CurrentsOf, DistinctNames, Started, Records, Outputs,
          FailedOf;
      ghost var db, current := View(store, queue), Ledgers.CurrentsOf(resources.ledger);
      var records := store.StageRunsForWorkflowRun(r);
      var started, done, failed := Started(records), Outputs(records), FailedOf(records);
      ghost var v := Judge(run.spec, records, order, reachable, policy, current);
      if failed != [] {
        var failure := failed[0];
        FailedMembers(records, failure);
        RecordsMembers(db.stageRuns, r, failure);
        var fellBack := false;
        if policy == Fallback {
          CurrentAnswers(resources.metadata.View(), resources.blobs.blobs, resources.ledger, failure.row.stage);
          var found := resources.Get(failure.row.stage, None);
          if found.Some? {
            done := done[failure.row.stage := found.value.version];
            fellBack := true;
            MarkedStarted(store.stageRuns, r, failure.id);
            store.MarkStageRunUsedFallback(failure.id);
          }
        }
        if !fellBack {
          store.MarkWorkflowRunFailed(r, StageFailed(failure.row.stage));
          return;
        }
      }
      ConcludeRun(r, run, order, reachable, started, done);
    }

    method ConcludeRun(r: nat, run: Run, order: seq<StageDef>, reachable: set<string>, started: set<string>,
                      done: map<string, nat>)
      requires resources.Valid() && r < |store.runs| && store.runs[r] == run && DistinctNames(order)
      requires started == Started(Records(store.stageRuns, r))
      modifies store, queue
      ensures var db, current := old(View(store, queue)), Ledgers.CurrentsOf(resources.ledger);
              View(store, queue) == Apply(db, r, order, reachable,
                  Verdict(None, Conclude(run.spec, order, reachable, done, current)))
    {
      hide ResourceStore.Rep, ExternalDeps, Ledgers.CurrentsOf, DistinctNames, Started, Records;
      if run.spec.stopAfter.Some? && run.spec.stopAfter.value in done {
        store.MarkWorkflowRunCompleted(r);
        return;
      }
      var pinned := if run.spec.startFrom.Some? then done + run.spec.pins else done;
      var ok, done' := ResolveExternals(order, reachable, pinned);
      if !ok {
        store.MarkWorkflowRunFailed(r, NoCurrentVersion);
        return;
      }
      hide Dispatch;
      DispatchRun(r, run, order, reachable, started, done');
    }

    method DispatchRun(r: nat, run: Run, order: seq<StageDef>, reachable: set<string>, started: set<string>,
                      done: map<string, nat>)
      requires r < |store.runs| && store.runs[r] == run && DistinctNames(order)
      requires started == Started(Records(store.stageRuns, r))
      modifies store, queue
      ensures View(store, queue) == Dispatch(old(View(store, queue)), r, order, reachable, done)
    {
      hide Ready;
      var any := DispatchReady(r, run, order, reachable, started, done);
      if any && run.status == Requested { store.MarkWorkflowRunRunning(r); }
      if reachable <= done.Keys { store.MarkWorkflowRunCompleted(r); }
    }

    method Progress()
      requires resources.Valid()
      modifies store, queue
      ensures var db := old(View(store, queue));
              View(store, queue) == ProgressList(env, Ledgers.CurrentsOf(resources.ledger), db, UpTo(|db.runs|))
    {
      hide ResourceStore.Rep, ProgressRun;
      ghost var db, current := View(store, queue), Ledgers.CurrentsOf(resources.ledger);
      var active := store.ActiveWorkflowRuns();
      assert db.runs[..|db.runs|] == db.runs;
      SnapshotVisits(db, |db.runs|);
      for i := 0 to |active|
        invariant View(store, queue) == ProgressList(env, current, db, Ids(active)[..i])
      {
        assert Ids(active)[..i + 1][..i] == Ids(active)[..i];
        ActiveMembers(db.runs, active[i]);
        SnapshotHolds(env, current, db, active, i);
        ProgressOne(active[i].id, active[i].row);
      }
      assert Ids(active)[..|active|] == Ids(active);
      SnapshotSuffices(env, current, db, |db.runs|);
    }

    /** One poll is one tick of the protocol, with one clock reading. */
    method PollOnce(now: int)
      requires resources.Valid()
      modifies store, queue
      ensures View(store, queue) == Tick(env, Ledgers.CurrentsOf(resources.ledger), now, old(View(store, queue)))
    {
      hide ResourceStore.Rep, IntakeRecurring, Intake, ProgressList;
      IntakeRecurringSchedules(now);
      IntakeSchedules(now);
      Progress();
    }
  }
}
