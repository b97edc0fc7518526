/** Histories that show what the hypotheses of the theorems are for. */
module Examples {
  import opened Stages
  import opened Graphs
  import opened Tables
  import opened Ticks
  import opened Dispatching
  import opened Liveness
  import opened Control
  import opened Ledgers
  import opened ResourceStore
  import opened Runner
  import opened Protocol
  import opened ProtocolSafety
  import Dag

  // ---- building histories --------------------------------------------------

  ghost predicate CanReach(env: Env, contracts: Contracts, w: World) {
    exists ws :: Behavior(env, contracts, ws) && ws[|ws| - 1] == w
  }

  const Empty := World(Db([], [], [], [], []), [], Ledger(map[], 1), {})

  lemma {:induction false} StartHere(env: Env, contracts: Contracts)
    ensures CanReach(env, contracts, Empty)
  {
    assert Behavior(env, contracts, [Empty]);
  }

  lemma {:induction false} GoTo(env: Env, contracts: Contracts, w: World, w': World)
    requires CanReach(env, contracts, w) && Step(env, contracts, w, w')
    ensures CanReach(env, contracts, w')
  {
    hide Step, Init;
    var ws :| Behavior(env, contracts, ws) && ws[|ws| - 1] == w;
    var longer := ws + [w'];
    forall t | 0 <= t < |longer| - 1 ensures Step(env, contracts, longer[t], longer[t + 1]) {
      if t < |ws| - 1 { assert Step(env, contracts, ws[t], ws[t + 1]); }
    }
    assert Behavior(env, contracts, longer);
  }

  lemma {:induction false} GoInject(env: Env, contracts: Contracts, w: World, name: string, value: Value)
    requires CanReach(env, contracts, w) && name in contracts && RefsOf(CurrentsOf(w.ledger)) <= w.known
    ensures CanReach(env, contracts, w.(ledger := Ledgers.Append(w.ledger, name, value, false, contracts[name](value))))
  {
    var w' := w.(ledger := Ledgers.Append(w.ledger, name, value, false, contracts[name](value)));
    assert CurrentsOf(w'.ledger) == CurrentsOf(w.ledger);
    assert InjectStep(contracts, w, w', name, value, false);
    hide TickStep, ClientStep, WorkerStep;
    GoTo(env, contracts, w, w');
  }

  lemma {:induction false} GoPromote(env: Env, contracts: Contracts, w: World, name: string, version: nat)
    requires CanReach(env, contracts, w) && Exists(w.ledger, name, version)
    ensures var l := Promote(w.ledger, name, version);
            CanReach(env, contracts, World(w.db, w.phases, l, w.known + RefsOf(CurrentsOf(l))))
  {
    var l := Promote(w.ledger, name, version);
    var w' := World(w.db, w.phases, l, w.known + RefsOf(CurrentsOf(l)));
    assert RollbackStep(w, w', name, version);
    hide TickStep, ClientStep, WorkerStep;
    GoTo(env, contracts, w, w');
  }

  lemma {:induction false} GoRequest(env: Env, contracts: Contracts, w: World, spec: Spec)
    requires CanReach(env, contracts, w) && RefsOf(CurrentsOf(w.ledger)) <= w.known
    ensures CanReach(env, contracts, w.(db := RequestRun(w.db, spec, None, None)))
  {
    var w' := w.(db := RequestRun(w.db, spec, None, None));
    assert ClientStep(env, w, w');
    assert w'.known == w.known + RefsOf(CurrentsOf(w'.ledger));
    hide TickStep, ClientStep, WorkerStep, RefsOf, CurrentsOf;
    GoTo(env, contracts, w, w');
  }

  lemma {:induction false} GoTick(env: Env, contracts: Contracts, w: World, now: int)
    requires CanReach(env, contracts, w) && RefsOf(CurrentsOf(w.ledger)) <= w.known
    ensures CanReach(env, contracts, w.(db := Tick(env, CurrentsOf(w.ledger), now, w.db)))
  {
    hide Tick;
    var w' := w.(db := Tick(env, CurrentsOf(w.ledger), now, w.db));
    assert TickStep(env, w, w', now);
    assert w'.known == w.known + RefsOf(CurrentsOf(w'.ledger));
    hide TickStep, ClientStep, WorkerStep, RefsOf, CurrentsOf;
    GoTo(env, contracts, w, w');
  }

  lemma {:induction false} GoPop(env: Env, contracts: Contracts, w: World)
    requires CanReach(env, contracts, w) && RefsOf(CurrentsOf(w.ledger)) <= w.known && |w.phases| < |w.db.enqueued|
    ensures CanReach(env, contracts, w.(phases := w.phases + [Popped]))
  {
    var w' := w.(phases := w.phases + [Popped]);
    assert PopStep(w, w');
    assert w'.known == w.known + RefsOf(CurrentsOf(w'.ledger));
    hide TickStep, ClientStep, WorkerStep, RefsOf, CurrentsOf;
    GoTo(env, contracts, w, w');
  }

  lemma {:induction false} GoWork(env: Env, contracts: Contracts, w: World, i: nat, db': Db, l': Ledger, p': Phase)
    requires CanReach(env, contracts, w) && i < |w.phases| && i < |w.db.stageRuns|
    requires RefsOf(CurrentsOf(l')) <= w.known
    requires WorkerEffect(contracts, JobOf(env, w.db, i), i, w.db, w.ledger, w.phases[i], db', l', p')
    ensures CanReach(env, contracts, World(db', w.phases[i := p'], l', w.known))
  {
    var w' := World(db', w.phases[i := p'], l', w.known);
    hide WorkerEffect, JobOf;
    assert WorkerStep(env, contracts, w, w', i);
    assert w'.known == w.known + RefsOf(CurrentsOf(w'.ledger));
    hide TickStep, ClientStep, WorkerStep, RefsOf, CurrentsOf;
    GoTo(env, contracts, w, w');
  }

  lemma {:induction false} SimpleJob(env: Env, db: Db, i: nat)
    requires i < |db.stageRuns| && StageOf(env, db, i) == StageDef(db.stageRuns[i].stage, [], 0)
    ensures var row := db.stageRuns[i];
            JobOf(env, db, i) == Job(row.stage, [], 0, row.promote, !row.promote) == JobOf(env, StartStageRun(db, i), i)
    ensures forall v, n :: CompleteStageRun(StartStageRun(db, i), i, v, n) == CompleteStageRun(db, i, v, n)
    ensures forall n :: FailStageRun(StartStageRun(db, i), i, n) == FailStageRun(db, i, n)
  {
  }

  /** A worker whose stage has no inputs, up to its first attempt. */
  lemma {:induction false} GoAttempt(env: Env, contracts: Contracts, w: World, i: nat)
    requires CanReach(env, contracts, w) && RefsOf(CurrentsOf(w.ledger)) <= w.known
    requires i < |w.phases| && i < |w.db.stageRuns| && w.phases[i] == Popped
    requires StageOf(env, w.db, i) == StageDef(w.db.stageRuns[i].stage, [], 0)
    ensures CanReach(env, contracts, World(StartStageRun(w.db, i), w.phases[i := Attempting(1)], w.ledger, w.known))
  {
    var l, db := w.ledger, StartStageRun(w.db, i);
    SimpleJob(env, w.db, i);
    assert WorkerEffect(contracts, JobOf(env, w.db, i), i, w.db, l, Popped, db, l, Resolving);
    assert WorkerEffect(contracts, JobOf(env, w.db, i), i, db, l, Resolving, db, l, Attempting(1));
    hide CanReach, RefsOf, CurrentsOf, WorkerEffect, JobOf;
    GoWork(env, contracts, w, i, db, l, Resolving);
    var w1 := World(db, w.phases[i := Resolving], l, w.known);
    GoWork(env, contracts, w1, i, db, l, Attempting(1));
    assert w1.phases[i := Attempting(1)] == w.phases[i := Attempting(1)];
  }

  /** Its only attempt fails. */
  lemma {:induction false} GoFail(env: Env, contracts: Contracts, w: World, i: nat)
    requires CanReach(env, contracts, w) && RefsOf(CurrentsOf(w.ledger)) <= w.known
    requires i < |w.phases| && i < |w.db.stageRuns| && w.phases[i] == Popped
    requires StageOf(env, w.db, i) == StageDef(w.db.stageRuns[i].stage, [], 0)
    ensures CanReach(env, contracts, World(FailStageRun(w.db, i, 1), w.phases[i := Reported], w.ledger, w.known))
  {
    var l, db := w.ledger, StartStageRun(w.db, i);
    GoAttempt(env, contracts, w, i);
    SimpleJob(env, w.db, i);
    assert WorkerEffect(contracts, JobOf(env, w.db, i), i, db, l, Attempting(1), db, l, GaveUp(1));
    assert WorkerEffect(contracts, JobOf(env, w.db, i), i, db, l, GaveUp(1), FailStageRun(w.db, i, 1), l, Reported);
    hide CanReach, RefsOf, CurrentsOf, WorkerEffect, JobOf, StageOf;
    var w2 := World(db, w.phases[i := Attempting(1)], l, w.known);
    GoWork(env, contracts, w2, i, db, l, GaveUp(1));
    var w3 := World(db, w2.phases[i := GaveUp(1)], l, w.known);
    GoWork(env, contracts, w3, i, FailStageRun(w.db, i, 1), l, Reported);
    assert w3.phases[i := Reported] == w.phases[i := Reported];
  }

  /** The store effects of a successful attempt of a stage without inputs in a run that does not promote. */
  lemma {:induction false} SuccessEffects(contracts: Contracts, job: Job, i: nat, db: Db, l: Ledger, value: Value)
    requires i < |db.stageRuns| && job.refs == [] && job.retries == 0 && !job.promote && job.isTest
    requires job.stage in contracts && contracts[job.stage](value).None?
    ensures var v := NextVersion(l, job.stage);
            var l1 := Ledgers.Append(l, job.stage, value, true, None);
            && Exists(l1, job.stage, v)
            && WorkerEffect(contracts, job, i, db, l, Attempting(1), db, l1, Stored(1, v))
            && WorkerEffect(contracts, job, i, db, l1, Stored(1, v), db, Link(l1, job.stage, v, []), Linked(1, v))
            && WorkerEffect(contracts, job, i, db, Link(l1, job.stage, v, []), Linked(1, v),
                            db, Link(l1, job.stage, v, []), Succeeded(1, v))
            && CurrentsOf(Link(l1, job.stage, v, [])) == CurrentsOf(l1) == CurrentsOf(l)
  {
    var v, l1 := NextVersion(l, job.stage), Ledgers.Append(l, job.stage, value, true, None);
    AppendAt(l, job.stage, value, true, None, job.stage, v);
    assert UploadStep(contracts, job, value, l, 1, l1, Stored(1, v));
  }

  /** A worker of a run that does not promote, whose stage has no inputs and succeeds at once. */
  lemma {:induction false} GoSucceed(env: Env, contracts: Contracts, w: World, i: nat, value: Value)
                    returns (l2: Ledger)
    requires CanReach(env, contracts, w) && RefsOf(CurrentsOf(w.ledger)) <= w.known
    requires i < |w.phases| && i < |w.db.stageRuns| && w.phases[i] == Popped && !w.db.stageRuns[i].promote
    requires StageOf(env, w.db, i) == StageDef(w.db.stageRuns[i].stage, [], 0)
    requires w.db.stageRuns[i].stage in contracts && contracts[w.db.stageRuns[i].stage](value).None?
    ensures CurrentsOf(l2) == CurrentsOf(w.ledger)
    ensures var v := NextVersion(w.ledger, w.db.stageRuns[i].stage);
            CanReach(env, contracts, World(CompleteStageRun(w.db, i, v, 1), w.phases[i := Reported], l2, w.known))
  {
    var l, db, job := w.ledger, StartStageRun(w.db, i), JobOf(env, w.db, i);
    GoAttempt(env, contracts, w, i);
    SimpleJob(env, w.db, i);
    assert job.stage == w.db.stageRuns[i].stage;
    SuccessEffects(contracts, job, i, db, l, value);
    var v := NextVersion(l, job.stage);
    var l1 := Ledgers.Append(l, job.stage, value, true, None);
    l2 := Link(l1, job.stage, v, []);
    var done := CompleteStageRun(w.db, i, v, 1);
    assert WorkerEffect(contracts, job, i, db, l2, Succeeded(1, v), done, l2, Reported);
    hide CanReach, RefsOf, CurrentsOf, WorkerEffect, JobOf, StageOf, CompleteStageRun;
    var w2 := World(db, w.phases[i := Attempting(1)], l, w.known);
    GoWork(env, contracts, w2, i, db, l1, Stored(1, v));
    var w3 := World(db, w2.phases[i := Stored(1, v)], l1, w.known);
    GoWork(env, contracts, w3, i, db, l2, Linked(1, v));
    var w4 := World(db, w3.phases[i := Linked(1, v)], l2, w.known);
    GoWork(env, contracts, w4, i, db, l2, Succeeded(1, v));
    var w5 := World(db, w4.phases[i := Succeeded(1, v)], l2, w.known);
    GoWork(env, contracts, w5, i, done, l2, Reported);
    assert w5.phases[i := Reported] == w.phases[i := Reported];
  }

  // ---- the first tick of a lone request ------------------------------------

  /** The tables after intake of a lone request. */
  function Alone(spec: Spec): Db {
    Db([Schedule(spec, None, None, false, Some(0))], [], [NewRun(spec, ResolvePromote(None, spec))], [], [])
  }

  lemma {:induction false} LoneTick(env: Env, current: Currents, now: int, spec: Spec)
    ensures Tick(env, current, now, RequestRun(Empty.db, spec, None, None)) == ProgressRun(env, current, Alone(spec), 0)
  {
    hide ProgressRun;
    var db := RequestRun(Empty.db, spec, None, None);
    assert IntakeRecurring(env.cron, now, db) == db;
    assert Intake(now, db) == Alone(spec) by { LoneIntake(now, spec); }
    assert UpTo(1) == [0] && [0][..0] == [];
  }

  lemma {:induction false} LoneIntake(now: int, spec: Spec)
    ensures Intake(now, RequestRun(Empty.db, spec, None, None)) == Alone(spec)
  {
    var s, db := Schedule(spec, None, None, false, None), RequestRun(Empty.db, spec, None, None);
    assert db.schedules == [s] && [s][..0] == [];
    assert Dispatches([], now) == [] && Dispatches([s], now) == [NewRun(spec, ResolvePromote(None, spec))];
    hide ResolvePromote, NewRun, Dispatches;
    assert ScheduleStep([s], now, 0, 0) == s.(dispatchedTo := Some(0));
    var taken := Intake(now, db);
    assert |taken.schedules| == 1 && taken.schedules[0] == ScheduleStep([s], now, 0, 0);
    assert taken.schedules == [s.(dispatchedTo := Some(0))];
  }

  /** What the tick does then: it has no rows to look at, and dispatches what is ready. */
  lemma {:induction false} FirstDispatch(env: Env, current: Currents, spec: Spec, done: map<string, nat>)
    requires Admit(env, spec).Admitted?
    requires Conclude(spec, Admit(env, spec).order, Admit(env, spec).reachable, map[], current) == Go(done)
    ensures ProgressRun(env, current, Alone(spec), 0)
        == Dispatch(Alone(spec), 0, Admit(env, spec).order, Admit(env, spec).reachable, done)
  {
    hide Admit, Conclude, Dispatch;
    assert Records([], 0) == [];
  }

  /** A request to an idle system, and the tick that takes it in. */
  lemma {:induction false} GoFirst(env: Env, contracts: Contracts, l: Ledger, known: set<Ref>, spec: Spec, db: Db)
    requires CanReach(env, contracts, World(Empty.db, [], l, known)) && RefsOf(CurrentsOf(l)) <= known
    requires ProgressRun(env, CurrentsOf(l), Alone(spec), 0) == db
    ensures CanReach(env, contracts, World(db, [], l, known))
  {
    var w := World(Empty.db, [], l, known);
    LoneTick(env, CurrentsOf(l), 0, spec);
    hide *;
    GoRequest(env, contracts, w, spec);
    GoTick(env, contracts, w.(db := RequestRun(w.db, spec, None, None)), 0);
  }

  lemma {:induction false} Idle(env: Env, contracts: Contracts)
    ensures CanReach(env, contracts, World(Empty.db, [], Empty.ledger, {}))
    ensures RefsOf(CurrentsOf(Empty.ledger)) == {}
  {
    StartHere(env, contracts);
    assert CurrentsOf(Empty.ledger) == map[];
    hide CanReach;
  }

  /** A run that may go on from here gets the external inputs added, and nothing else. */
  lemma {:induction false} ConcludeGo(spec: Spec, order: seq<StageDef>, reachable: set<string>, done: map<string, nat>,
                    current: Currents)
    requires spec.stopAfter.Some? ==> spec.stopAfter.value !in done
    requires var pinned := if spec.startFrom.Some? then done + spec.pins else done;
             ExternalDeps(order, reachable, pinned) <= current.Keys
    ensures var c := Conclude(spec, order, reachable, done, current);
            var pinned := if spec.startFrom.Some? then done + spec.pins else done;
            && c.Go? && c.done.Keys == pinned.Keys + ExternalDeps(order, reachable, pinned)
            && forall n <- pinned :: n !in ExternalDeps(order, reachable, pinned) ==> c.done[n] == pinned[n]
  {
  }

  lemma {:induction false} ExternalsOf(order: seq<StageDef>, reachable: set<string>, spec: Spec, current: Currents)
    requires ExternalDeps(order, reachable, map[]) <= current.Keys
    ensures ExternalsCurrent(spec, order, reachable, current)
  {
    forall s, d | s in order && s.name in reachable && d in s.dependsOn && d !in Names(order) && !Pinned(spec, d)
        ensures d in current {
      assert d in ExternalDeps(order, reachable, map[]);
    }
  }

  // ---- two failures --------------------------------------------------------

  /** A workflow with two independent roots and their join, under the fallback policy. */
  const TwoRoots := [StageDef("a", [], 0), StageDef("b", [], 0), StageDef("c", ["a", "b"], 0)]
  const FullSpec := Spec("w", None, None, map[], None)

  ghost predicate HasTwoRoots(env: Env) {
    "w" in env.registries && env.registries["w"] == Registry(TwoRoots, Fallback)
  }

  function RootRow(stage: string, status: Status): StageRun {
    StageRun(0, stage, map[], true, status, 0, 1, false)
  }

  /** The tables of its first run, with the stage runs of the two roots as given. */
  function TwoRootsDb(a: Status, b: Status): Db {
    Db([Schedule(FullSpec, None, None, false, Some(0))], [], [Run(FullSpec, true, Running, None, false)],
       [RootRow("a", a), RootRow("b", b)],
       [Message(0, 0, "w", "a", map[], true), Message(1, 0, "w", "b", map[], true)])
  }

  lemma {:induction false} TwoRootsOrdered()
    ensures IsOrder(TwoRoots) && Names(TwoRoots) == {"a", "b", "c"}
    ensures var g := ByName(TwoRoots);
            g["a"] == StageDef("a", [], 0) && g["b"] == StageDef("b", [], 0) && g["c"] == StageDef("c", ["a", "b"], 0)
  {
    assert TwoRoots[0].name == "a" && TwoRoots[1].name == "b" && TwoRoots[2].name == "c";
    assert TwoRoots[..2] == [TwoRoots[0], TwoRoots[1]];
    assert TwoRoots[0] in TwoRoots[..2] && TwoRoots[1] in TwoRoots[..2];
    assert TwoRoots[0] in TwoRoots && TwoRoots[1] in TwoRoots && TwoRoots[2] in TwoRoots;
    ByNameOfDistinct(TwoRoots);
  }

  lemma {:induction false} TwoRootsAdmitted(env: Env)
    requires HasTwoRoots(env)
    ensures Admit(env, FullSpec) == Admitted(TwoRoots, {"a", "b", "c"}, Fallback)
  {
    TwoRootsOrdered();
    Dag.OrderedIsFixed(TwoRoots);
    hide Dag.TopologicalOrder, IsOrder;
  }

  lemma {:induction false} ReadyWith(order: seq<StageDef>, s: StageDef, reachable: set<string>, done: map<string, nat>)
    ensures Ready(order + [s], reachable, {}, done)
         == Ready(order, reachable, {}, done) + if IsReady(s, reachable, {}, done) then [s] else []
  {
    assert (order + [s])[..|order|] == order;
  }

  lemma {:induction false} TwoRootsReady()
    ensures Ready(TwoRoots, {"a", "b", "c"}, {}, map[]) == [TwoRoots[0], TwoRoots[1]]
  {
    var all := {"a", "b", "c"};
    assert TwoRoots == [] + [TwoRoots[0]] + [TwoRoots[1]] + [TwoRoots[2]];
    assert !IsReady(TwoRoots[2], all, {}, map[]) by { assert "a" in TwoRoots[2].dependsOn; }
    assert IsReady(TwoRoots[0], all, {}, map[]) && IsReady(TwoRoots[1], all, {}, map[]);
    assert Ready([], all, {}, map[]) == [];
    hide Ready, IsReady;
    ReadyWith([], TwoRoots[0], all, map[]);
    ReadyWith([] + [TwoRoots[0]], TwoRoots[1], all, map[]);
    ReadyWith([] + [TwoRoots[0]] + [TwoRoots[1]], TwoRoots[2], all, map[]);
  }

  lemma {:induction false} TwoRootsInternal(done: map<string, nat>)
    ensures ExternalDeps(TwoRoots, {"a", "b", "c"}, done) == {}
  {
    TwoRootsOrdered();
    hide Names, IsOrder;
    forall s, d | s in TwoRoots && d in s.dependsOn ensures d in Names(TwoRoots) {}
  }

  lemma {:induction false} TwoRootsGo(current: Currents)
    ensures Conclude(FullSpec, TwoRoots, {"a", "b", "c"}, map[], current) == Go(map[])
  {
    TwoRootsInternal(map[]);
    ConcludeGo(FullSpec, TwoRoots, {"a", "b", "c"}, map[], current);
    hide ExternalDeps, Conclude;
    assert Conclude(FullSpec, TwoRoots, {"a", "b", "c"}, map[], current).done == map[];
  }

  lemma {:induction false} TwoRootsDispatch(env: Env, current: Currents)
    requires HasTwoRoots(env)
    ensures ProgressRun(env, current, Alone(FullSpec), 0) == TwoRootsDb(Requested, Requested)
  {
    TwoRootsAdmitted(env);
    TwoRootsGo(current);
    TwoRootsReady();
    hide *;
    FirstDispatch(env, current, FullSpec, map[]);
    TwoRootsRows();
  }

  lemma {:induction false} TwoRootsRows()
    requires Ready(TwoRoots, {"a", "b", "c"}, {}, map[]) == [TwoRoots[0], TwoRoots[1]]
    ensures Dispatch(Alone(FullSpec), 0, TwoRoots, {"a", "b", "c"}, map[]) == TwoRootsDb(Requested, Requested)
  {
    hide Ready;
    var db, ready := Alone(FullSpec), [TwoRoots[0], TwoRoots[1]];
    var none: map<string, nat> := map[];
    assert Records(db.stageRuns, 0) == [] && Started([]) == {};
    assert InputsOf(TwoRoots[0], none) == map[] && InputsOf(TwoRoots[1], none) == map[];
    assert NewRows(0, true, ready, none) == [RootRow("a", Requested), RootRow("b", Requested)];
    assert NewMessages(0, 0, db.runs[0], ready, none)
        == [Message(0, 0, "w", "a", map[], true), Message(1, 0, "w", "b", map[], true)];
    assert "a" in {"a", "b", "c"} && "a" !in none;
  }

  lemma {:induction false} RootStage(env: Env, a: Status, b: Status, i: nat)
    requires HasTwoRoots(env) && i < 2
    ensures StageOf(env, TwoRootsDb(a, b), i) == StageDef(TwoRootsDb(a, b).stageRuns[i].stage, [], 0)
  {
    TwoRootsOrdered();
    hide ByName, IsOrder;
  }

  /** An idle system in which the first version of a resource was uploaded and promoted. */
  lemma {:induction false} GoCurrent(env: Env, contracts: Contracts, name: string, value: Value) returns (l: Ledger)
    requires name in contracts
    ensures name in CurrentsOf(l) && CanReach(env, contracts, World(Empty.db, [], l, RefsOf(CurrentsOf(l))))
    ensures HasCurrent(l, name) && Exists(l, name, HistoryOf(l, name).current)
    ensures EntryOf(l, name, HistoryOf(l, name).current).error == contracts[name](value)
  {
    var l1 := Ledgers.Append(Empty.ledger, name, value, false, contracts[name](value));
    assert Exists(l1, name, 1);
    l := Promote(l1, name, 1);
    assert name in CurrentsOf(l);
    Idle(env, contracts);
    hide CanReach, CurrentsOf, RefsOf;
    GoInject(env, contracts, Empty, name, value);
    GoPromote(env, contracts, Empty.(ledger := l1), name, 1);
    assert Empty.known + RefsOf(CurrentsOf(l)) == RefsOf(CurrentsOf(l));
  }

  lemma {:induction false} TwoRootsFail()
    ensures forall a, b :: |TwoRootsDb(a, b).enqueued| == 2 == |TwoRootsDb(a, b).stageRuns|
    ensures FailStageRun(TwoRootsDb(Requested, Requested), 0, 1) == TwoRootsDb(Failed, Requested)
    ensures FailStageRun(TwoRootsDb(Failed, Requested), 1, 1) == TwoRootsDb(Failed, Failed)
  {
  }

  lemma {:induction false} TwoFailuresReached(env: Env, contracts: Contracts, value: Value) returns (w: World)
    requires HasTwoRoots(env) && "a" in contracts
    ensures CanReach(env, contracts, w) && w.db == TwoRootsDb(Failed, Failed) && "a" in CurrentsOf(w.ledger)
  {
    hide *;
    var l := GoCurrent(env, contracts, "a", value);
    var known := RefsOf(CurrentsOf(l));
    TwoRootsDispatch(env, CurrentsOf(l));
    TwoRootsFail();
    RootStage(env, Requested, Requested, 0);
    RootStage(env, Failed, Requested, 1);
    GoFirst(env, contracts, l, known, FullSpec, TwoRootsDb(Requested, Requested));
    w := World(TwoRootsDb(Requested, Requested), [], l, known);
    GoPop(env, contracts, w);
    w := World(w.db, [] + [Popped], l, known);
    GoPop(env, contracts, w);
    w := World(w.db, [] + [Popped] + [Popped], l, known);
    GoFail(env, contracts, w, 0);
    w := World(TwoRootsDb(Failed, Requested), w.phases[0 := Reported], l, known);
    GoFail(env, contracts, w, 1);
    w := World(TwoRootsDb(Failed, Failed), w.phases[1 := Reported], l, known);
  }

  lemma {:induction false} TwoFailuresRows()
    ensures var rows := TwoRootsDb(Failed, Failed).stageRuns;
            && FirstFailed(rows, 0, 0) && FailedAs(rows, 0, 1, "b")
            && HasRow(rows, 0, "a") && HasRow(rows, 0, "b") && !HasRow(rows, 0, "c")
            && Quiet(rows, 0, {"a", "b", "c"})
            && forall s, v :: !CompletedRow(rows, 0, s, v)
  {
    var rows := TwoRootsDb(Failed, Failed).stageRuns;
    assert rows[0].stage == "a" && rows[1].stage == "b" && "a" != "b" && "a" != "c" && "b" != "c";
  }

  lemma {:induction false} TwoFailuresBlocked()
    ensures Blocked(ByName(TwoRoots), FullSpec, {"a", "b", "c"}, TwoRootsDb(Failed, Failed).stageRuns, 0, Some(0), "c")
  {
    var rows := TwoRootsDb(Failed, Failed).stageRuns;
    TwoRootsOrdered();
    TwoFailuresRows();
    hide ByName, IsOrder, TwoRootsDb, FailedAs, HasRow;
    assert OtherFailure(rows, 0, Some(0), "b");
    assert ByName(TwoRoots)["c"].dependsOn[1] == "b";
    assert PathFrom(ByName(TwoRoots), ["c", "b"], "c");
    assert BlockedAlong(ByName(TwoRoots), FullSpec, {"a", "b", "c"}, rows, 0, Some(0), "c", ["c", "b"]);
  }

  lemma {:induction false} TwoFailuresWaiting(env: Env)
    requires HasTwoRoots(env)
    ensures Waiting(env, TwoRootsDb(Failed, Failed), 0)
  {
    TwoRootsAdmitted(env);
    TwoFailuresRows();
    hide Admit, Quiet;
  }

  lemma {:induction false} TwoFailuresLoop(env: Env, current: Currents)
    requires HasTwoRoots(env) && "a" in current && Waiting(env, TwoRootsDb(Failed, Failed), 0)
    ensures LoopReached(env, current, TwoRootsDb(Failed, Failed), 0, Some(0))
  {
    TwoRootsAdmitted(env);
    TwoFailuresRows();
    TwoRootsInternal(map[]);
    ExternalsOf(TwoRoots, {"a", "b", "c"}, FullSpec, current);
    hide Admit, Waiting, ExternalsCurrent, CompletedRow, FirstFailed;
  }

  lemma {:induction false} TwoFailuresLacking()
    ensures Lacking(FullSpec, {"a", "b", "c"}, TwoRootsDb(Failed, Failed).stageRuns, 0, Some(0), "c")
  {
    TwoFailuresRows();
    hide TwoRootsDb, HasRow;
  }

  lemma {:induction false} TwoRootsRequest()
    ensures |TwoRootsDb(Failed, Failed).runs| == 1 && TwoRootsDb(Failed, Failed).runs[0].spec == FullSpec
  {
  }

  lemma {:induction false} TwoFailuresStuck(env: Env, current: Currents)
    requires HasTwoRoots(env) && "a" in current
    ensures Waiting(env, TwoRootsDb(Failed, Failed), 0) && Stuck(env, current, TwoRootsDb(Failed, Failed), 0)
  {
    hide *;
    var db := TwoRootsDb(Failed, Failed);
    TwoRootsRequest();
    TwoFailuresWaiting(env);
    TwoRootsAdmitted(env);
    TwoFailuresRows();
    TwoFailuresBlocked();
    TwoFailuresLacking();
    TwoFailuresLoop(env, current);
    forall s | s in {"a", "b", "c"} && !HasRow(db.stageRuns, 0, s)
      ensures Blocked(ByName(TwoRoots), FullSpec, {"a", "b", "c"}, db.stageRuns, 0, Some(0), s)
    {}
    StuckOnIntro(env, current, db, 0, Some(0), "c");
  }

  /** A history ends with both roots failed, the first one with a current version: its run is stuck. */
  lemma {:induction false} TwoFailuresGetStuck(env: Env, contracts: Contracts, value: Value) returns (w: World)
    requires HasTwoRoots(env) && "a" in contracts
    ensures CanReach(env, contracts, w)
    ensures Waiting(env, w.db, 0) && Stuck(env, CurrentsOf(w.ledger), w.db, 0)
  {
    w := TwoFailuresReached(env, contracts, value);
    hide *;
    TwoFailuresStuck(env, CurrentsOf(w.ledger));
  }

  // ---- a dependency that nobody provides -----------------------------------

  /** The same shape, under the halt policy, started at b although c is neither in range nor pinned. */
  const Joined := [StageDef("b", [], 0), StageDef("c", [], 0), StageDef("d", ["b", "c"], 0)]
  const FromB := Spec("w", Some("b"), None, map[], None)

  ghost predicate HasJoined(env: Env) {
    "w" in env.registries && env.registries["w"] == Registry(Joined, Halt)
  }

  function JoinedDb(status: Status, output: nat): Db {
    Db([Schedule(FromB, None, None, false, Some(0))], [], [Run(FromB, false, Running, None, false)],
       [StageRun(0, "b", map[], false, status, output, 1, false)], [Message(0, 0, "w", "b", map[], false)])
  }

  lemma {:induction false} JoinedOrdered()
    ensures IsOrder(Joined) && Names(Joined) == {"b", "c", "d"}
    ensures var g := ByName(Joined);
            g["b"] == StageDef("b", [], 0) && g["c"] == StageDef("c", [], 0) && g["d"] == StageDef("d", ["b", "c"], 0)
  {
    assert Joined[0].name == "b" && Joined[1].name == "c" && Joined[2].name == "d";
    assert Joined[..2] == [Joined[0], Joined[1]];
    assert Joined[0] in Joined[..2] && Joined[1] in Joined[..2];
    assert Joined[0] in Joined && Joined[1] in Joined && Joined[2] in Joined;
    ByNameOfDistinct(Joined);
  }

  lemma {:induction false} JoinedRange()
    ensures Dag.ReachableFrom(ByName(Joined), "b") == {"b", "d"}
  {
    var g, r := ByName(Joined), Dag.ReachableFrom(ByName(Joined), "b");
    JoinedOrdered();
    Dag.ReachableIsDependents(g, "b");
    assert r <= g.Keys;
    hide ByName, IsOrder, Dag.ReachableFrom;
    assert g["d"].dependsOn[0] == "b";
    assert "b" in g && "c" in g && "d" in g;
  }

  lemma {:induction false} JoinedAdmitted(env: Env)
    requires HasJoined(env)
    ensures Admit(env, FromB) == Admitted(Joined, {"b", "d"}, Halt)
  {
    JoinedOrdered();
    JoinedRange();
    Dag.OrderedIsFixed(Joined);
    hide Dag.TopologicalOrder, IsOrder, Dag.ReachableFrom;
  }

  lemma {:induction false} JoinedInternal(done: map<string, nat>)
    ensures ExternalDeps(Joined, {"b", "d"}, done) == {}
  {
    JoinedOrdered();
    hide Names, IsOrder;
    forall s, d | s in Joined && d in s.dependsOn ensures d in Names(Joined) {}
  }

  lemma {:induction false} JoinedReady()
    ensures Ready(Joined, {"b", "d"}, {}, map[]) == [Joined[0]]
  {
    assert Joined[..2] == [Joined[0], Joined[1]] && Joined[..2][..1] == [Joined[0]] && Joined[..2][..1][..0] == [];
    assert !IsReady(Joined[2], {"b", "d"}, {}, map[]) by { assert "b" in Joined[2].dependsOn; }
    assert IsReady(Joined[0], {"b", "d"}, {}, map[]) && !IsReady(Joined[1], {"b", "d"}, {}, map[]);
    assert Ready([], {"b", "d"}, {}, map[]) == [];
    assert Ready(Joined[..2][..1], {"b", "d"}, {}, map[]) == [Joined[0]];
    assert Ready(Joined[..2], {"b", "d"}, {}, map[]) == [Joined[0]];
  }

  lemma {:induction false} JoinedGo(current: Currents)
    ensures Conclude(FromB, Joined, {"b", "d"}, map[], current) == Go(map[])
  {
    var none: map<string, nat> := map[];
    assert none + FromB.pins == none;
    JoinedInternal(none);
    ConcludeGo(FromB, Joined, {"b", "d"}, map[], current);
    hide ExternalDeps, Conclude;
    assert Conclude(FromB, Joined, {"b", "d"}, map[], current).done == map[];
  }

  lemma {:induction false} JoinedRows()
    requires Ready(Joined, {"b", "d"}, {}, map[]) == [Joined[0]]
    ensures Dispatch(Alone(FromB), 0, Joined, {"b", "d"}, map[]) == JoinedDb(Requested, 0)
  {
    hide Ready;
    var db, ready := Alone(FromB), [Joined[0]];
    var none: map<string, nat> := map[];
    assert Records(db.stageRuns, 0) == [] && Started([]) == {};
    assert InputsOf(Joined[0], none) == map[];
    assert NewRows(0, false, ready, none) == [StageRun(0, "b", map[], false, Requested, 0, 1, false)];
    assert NewMessages(0, 0, db.runs[0], ready, none) == [Message(0, 0, "w", "b", map[], false)];
    assert "b" in {"b", "d"} && "b" !in none;
  }

  lemma {:induction false} JoinedDispatch(env: Env, current: Currents)
    requires HasJoined(env)
    ensures ProgressRun(env, current, Alone(FromB), 0) == JoinedDb(Requested, 0)
  {
    JoinedAdmitted(env);
    JoinedGo(current);
    JoinedReady();
    hide *;
    FirstDispatch(env, current, FromB, map[]);
    JoinedRows();
  }

  lemma {:induction false} JoinedStage(env: Env)
    requires HasJoined(env)
    ensures StageOf(env, JoinedDb(Requested, 0), 0) == StageDef("b", [], 0)
  {
    JoinedOrdered();
    hide ByName, IsOrder;
  }

  lemma {:induction false} JoinedReached(env: Env, contracts: Contracts, value: Value) returns (w: World)
    requires HasJoined(env) && "b" in contracts && contracts["b"](value).None?
    ensures CanReach(env, contracts, w) && w.db == JoinedDb(Completed, 1)
  {
    var l, db := Empty.ledger, JoinedDb(Requested, 0);
    assert NextVersion(l, "b") == 1;
    assert CompleteStageRun(db, 0, 1, 1) == JoinedDb(Completed, 1);
    assert |db.enqueued| == 1 && |db.stageRuns| == 1 && db.stageRuns[0].stage == "b" && !db.stageRuns[0].promote;
    JoinedStage(env);
    JoinedDispatch(env, CurrentsOf(l));
    Idle(env, contracts);
    hide *;
    GoFirst(env, contracts, l, {}, FromB, db);
    GoPop(env, contracts, World(db, [], l, {}));
    w := World(db, [] + [Popped], l, {});
    var l' := GoSucceed(env, contracts, w, 0, value);
    w := World(JoinedDb(Completed, 1), w.phases[0 := Reported], l', {});
  }

  lemma {:induction false} JoinedFacts()
    ensures var rows := JoinedDb(Completed, 1).stageRuns;
            && Quiet(rows, 0, {"b", "d"}) && (forall i: nat :: !IsFailed(rows, 0, i))
            && HasRow(rows, 0, "b") && !HasRow(rows, 0, "d") && !HasRow(rows, 0, "c")
  {
    var rows := JoinedDb(Completed, 1).stageRuns;
    assert rows[0].stage == "b" && "b" != "c" && "b" != "d";
  }

  lemma {:induction false} JoinedBlocked()
    ensures Blocked(ByName(Joined), FromB, {"b", "d"}, JoinedDb(Completed, 1).stageRuns, 0, None, "d")
  {
    var rows := JoinedDb(Completed, 1).stageRuns;
    JoinedOrdered();
    hide ByName, IsOrder, JoinedDb;
    assert DeadEnd(FromB, {"b", "d"}, rows, 0, None, "c");
    assert ByName(Joined)["d"].dependsOn[1] == "c";
    assert PathFrom(ByName(Joined), ["d", "c"], "d");
    assert BlockedAlong(ByName(Joined), FromB, {"b", "d"}, rows, 0, None, "d", ["d", "c"]);
  }

  lemma {:induction false} JoinedWaiting(env: Env)
    requires HasJoined(env)
    ensures Waiting(env, JoinedDb(Completed, 1), 0)
  {
    JoinedAdmitted(env);
    JoinedFacts();
    hide Admit, Quiet;
  }

  lemma {:induction false} JoinedLoop(env: Env, current: Currents)
    requires HasJoined(env) && Waiting(env, JoinedDb(Completed, 1), 0)
    ensures LoopReached(env, current, JoinedDb(Completed, 1), 0, None)
  {
    JoinedAdmitted(env);
    JoinedFacts();
    JoinedInternal(map[]);
    ExternalsOf(Joined, {"b", "d"}, FromB, current);
    hide Admit, Waiting, ExternalsCurrent, CompletedRow, IsFailed;
  }

  lemma {:induction false} JoinedLacking()
    ensures Lacking(FromB, {"b", "d"}, JoinedDb(Completed, 1).stageRuns, 0, None, "d")
  {
    JoinedFacts();
    hide JoinedDb, HasRow;
  }

  lemma {:induction false} JoinedRequest()
    ensures |JoinedDb(Completed, 1).runs| == 1 && JoinedDb(Completed, 1).runs[0].spec == FromB
  {
  }

  lemma {:induction false} JoinedStuck(env: Env, current: Currents)
    requires HasJoined(env)
    ensures Waiting(env, JoinedDb(Completed, 1), 0) && Stuck(env, current, JoinedDb(Completed, 1), 0)
  {
    hide *;
    var db := JoinedDb(Completed, 1);
    JoinedRequest();
    JoinedWaiting(env);
    JoinedAdmitted(env);
    JoinedFacts();
    JoinedBlocked();
    JoinedLacking();
    JoinedLoop(env, current);
    forall s | s in {"b", "d"} && !HasRow(db.stageRuns, 0, s)
      ensures Blocked(ByName(Joined), FromB, {"b", "d"}, db.stageRuns, 0, None, s)
    {}
    StuckOnIntro(env, current, db, 0, None, "d");
  }

  /** A history in which nothing fails ends in a stuck run: its range needs a stage that is neither in it nor pinned. */
  lemma {:induction false} MissingPinGetsStuck(env: Env, contracts: Contracts, value: Value) returns (w: World)
    requires HasJoined(env) && "b" in contracts && contracts["b"](value).None?
    ensures CanReach(env, contracts, w)
    ensures Waiting(env, w.db, 0) && Stuck(env, CurrentsOf(w.ledger), w.db, 0)
    ensures forall i: nat :: !IsFailed(w.db.stageRuns, 0, i)
  {
    w := JoinedReached(env, contracts, value);
    JoinedFacts();
    hide *;
    JoinedStuck(env, CurrentsOf(w.ledger));
  }

  // ---- a pin that hides a stage --------------------------------------------

  /** One stage, started at itself and pinned all the same. */
  const Lonely := [StageDef("b", [], 0)]
  const PinnedB := Spec("w", Some("b"), None, map["b" := 7], None)

  ghost predicate HasLonely(env: Env) {
    "w" in env.registries && env.registries["w"] == Registry(Lonely, Halt)
  }

  function LonelyDb(): Db {
    Db([Schedule(PinnedB, None, None, false, Some(0))], [], [Run(PinnedB, false, Completed, None, false)],
       [StageRun(0, "b", map[], false, Requested, 0, 1, false)], [Message(0, 0, "w", "b", map[], false)])
  }

  lemma {:induction false} LonelyOrdered()
    ensures IsOrder(Lonely) && Names(Lonely) == {"b"} && ByName(Lonely)["b"] == StageDef("b", [], 0)
  {
    assert Lonely[0].name == "b" && Lonely[0] in Lonely;
    ByNameOfDistinct(Lonely);
  }

  lemma {:induction false} LonelyRange()
    ensures Dag.ReachableFrom(ByName(Lonely), "b") == {"b"}
  {
    LonelyOrdered();
    Dag.ReachableIsDependents(ByName(Lonely), "b");
    assert Dag.ReachableFrom(ByName(Lonely), "b") <= ByName(Lonely).Keys;
    hide ByName, IsOrder, Dag.ReachableFrom;
    assert "b" in ByName(Lonely);
  }

  lemma {:induction false} LonelyAdmitted(env: Env)
    requires HasLonely(env)
    ensures Admit(env, PinnedB) == Admitted(Lonely, {"b"}, Halt)
  {
    LonelyOrdered();
    LonelyRange();
    Dag.OrderedIsFixed(Lonely);
    hide Dag.TopologicalOrder, IsOrder, Dag.ReachableFrom;
  }

  lemma {:induction false} LonelyGo(current: Currents)
    ensures Conclude(PinnedB, Lonely, {"b"}, map[], current) == Go(map["b" := 7])
  {
    var none: map<string, nat> := map[];
    assert none + PinnedB.pins == map["b" := 7];
    assert ExternalDeps(Lonely, {"b"}, none + PinnedB.pins) == {};
    ConcludeGo(PinnedB, Lonely, {"b"}, map[], current);
    hide ExternalDeps, Conclude;
    assert Conclude(PinnedB, Lonely, {"b"}, map[], current).done == map["b" := 7];
  }

  lemma {:induction false} LonelyReady()
    ensures Ready(Lonely, {"b"}, {}, map["b" := 7]) == [Lonely[0]]
  {
    var done := map["b" := 7];
    assert Lonely[..0] == [] && Ready([], {"b"}, {}, done) == [];
    assert IsReady(Lonely[0], {"b"}, {}, done);
  }

  lemma {:induction false} LonelyRows()
    ensures Dispatch(Alone(PinnedB), 0, Lonely, {"b"}, map["b" := 7]) == LonelyDb()
  {
    var db, ready, done := Alone(PinnedB), [Lonely[0]], map["b" := 7];
    LonelyReady();
    hide Ready;
    assert Records(db.stageRuns, 0) == [] && Started([]) == {};
    assert InputsOf(Lonely[0], done) == map[];
    hide InputsOf, Records, Started;
    assert NewRows(0, false, ready, done) == [StageRun(0, "b", map[], false, Requested, 0, 1, false)];
    assert NewMessages(0, 0, db.runs[0], ready, done) == [Message(0, 0, "w", "b", map[], false)];
    hide NewRows, NewMessages;
  }

  lemma {:induction false} LonelyDispatch(env: Env, current: Currents)
    requires HasLonely(env)
    ensures ProgressRun(env, current, Alone(PinnedB), 0) == LonelyDb()
  {
    LonelyAdmitted(env);
    LonelyGo(current);
    hide *;
    FirstDispatch(env, current, PinnedB, map["b" := 7]);
    LonelyRows();
  }

  lemma {:induction false} LonelyUnfinished()
    ensures !Finished(LonelyDb().stageRuns, 0, "b")
  {
    assert LonelyDb().stageRuns[0].status == Requested;
  }

  /** A run is called completed although its only stage was merely requested: a pin stands for it. */
  lemma {:induction false} PinHidesStage(env: Env, contracts: Contracts) returns (w: World)
    requires HasLonely(env)
    ensures CanReach(env, contracts, w) && w.db == LonelyDb()
    ensures w.db.runs[0].status == Completed
    ensures "b" in Admit(env, w.db.runs[0].spec).reachable && !Finished(w.db.stageRuns, 0, "b")
  {
    LonelyAdmitted(env);
    LonelyDispatch(env, CurrentsOf(Empty.ledger));
    Idle(env, contracts);
    w := World(LonelyDb(), [], Empty.ledger, {});
    assert w.db.runs[0] == Run(PinnedB, false, Completed, None, false);
    LonelyUnfinished();
    hide *;
    GoFirst(env, contracts, Empty.ledger, {}, PinnedB, LonelyDb());
  }

  // ---- an invalid current version ------------------------------------------

  /** A client uploads a value that breaks its contract, and promotes it all the same. */
  lemma {:induction false} InvalidBecomesCurrent(env: Env, contracts: Contracts, name: string,
                    value: Value) returns (w: World)
    requires name in contracts && contracts[name](value).Some?
    ensures CanReach(env, contracts, w) && HasCurrent(w.ledger, name) && !CurrentsValid(w.ledger)
  {
    hide CanReach, CurrentsOf, RefsOf;
    var l := GoCurrent(env, contracts, name, value);
    w := World(Empty.db, [], l, RefsOf(CurrentsOf(l)));
  }

  // ---- a stage that allows no attempt --------------------------------------

  /** One stage with a negative retry count. */
  const Untried := [StageDef("b", [], -1)]

  ghost predicate HasUntried(env: Env) {
    "w" in env.registries && env.registries["w"] == Registry(Untried, Halt)
  }

  function UntriedDb(status: Status, attempts: int): Db {
    Db([Schedule(FullSpec, None, None, false, Some(0))], [], [Run(FullSpec, true, Running, None, false)],
       [StageRun(0, "b", map[], true, status, 0, attempts, false)], [Message(0, 0, "w", "b", map[], true)])
  }

  lemma {:induction false} UntriedOrdered()
    ensures IsOrder(Untried) && Names(Untried) == {"b"} && ByName(Untried)["b"] == StageDef("b", [], -1)
  {
    assert Untried[0].name == "b" && Untried[0] in Untried;
    ByNameOfDistinct(Untried);
  }

  lemma {:induction false} UntriedAdmitted(env: Env)
    requires HasUntried(env)
    ensures Admit(env, FullSpec) == Admitted(Untried, {"b"}, Halt)
  {
    UntriedOrdered();
    Dag.OrderedIsFixed(Untried);
    hide Dag.TopologicalOrder, IsOrder;
  }

  lemma {:induction false} UntriedGo(current: Currents)
    ensures Conclude(FullSpec, Untried, {"b"}, map[], current) == Go(map[])
  {
    var none: map<string, nat> := map[];
    assert ExternalDeps(Untried, {"b"}, none) == {};
    ConcludeGo(FullSpec, Untried, {"b"}, none, current);
    hide ExternalDeps, Conclude;
    assert Conclude(FullSpec, Untried, {"b"}, none, current).done == none;
  }

  lemma {:induction false} UntriedReady()
    ensures Ready(Untried, {"b"}, {}, map[]) == [Untried[0]]
  {
    var none: map<string, nat> := map[];
    assert Untried[..0] == [] && Ready([], {"b"}, {}, none) == [];
    assert IsReady(Untried[0], {"b"}, {}, none);
  }

  lemma {:induction false} UntriedRows()
    ensures Dispatch(Alone(FullSpec), 0, Untried, {"b"}, map[]) == UntriedDb(Requested, 1)
  {
    var db, ready := Alone(FullSpec), [Untried[0]];
    var none: map<string, nat> := map[];
    UntriedReady();
    hide Ready;
    assert Records(db.stageRuns, 0) == [] && Started([]) == {};
    assert InputsOf(Untried[0], none) == map[];
    hide InputsOf, Records, Started;
    assert NewRows(0, true, ready, none) == [StageRun(0, "b", map[], true, Requested, 0, 1, false)];
    assert NewMessages(0, 0, db.runs[0], ready, none) == [Message(0, 0, "w", "b", map[], true)];
    hide NewRows, NewMessages;
    assert "b" in {"b"} && "b" !in none;
  }

  lemma {:induction false} UntriedDispatch(env: Env, current: Currents)
    requires HasUntried(env)
    ensures ProgressRun(env, current, Alone(FullSpec), 0) == UntriedDb(Requested, 1)
  {
    UntriedAdmitted(env);
    UntriedGo(current);
    hide *;
    FirstDispatch(env, current, FullSpec, map[]);
    UntriedRows();
  }

  lemma {:induction false} UntriedEffects(env: Env, contracts: Contracts, l: Ledger)
    requires HasUntried(env)
    ensures var db, db', job := UntriedDb(Requested, 1), UntriedDb(Running, 1), JobOf(env, UntriedDb(Requested, 1), 0);
            && job == JobOf(env, db', 0)
            && WorkerEffect(contracts, job, 0, db, l, Popped, db', l, Resolving)
            && WorkerEffect(contracts, job, 0, db', l, Resolving, db', l, Skipped(0))
            && WorkerEffect(contracts, job, 0, db', l, Skipped(0), UntriedDb(Completed, 0), l, Reported)
  {
    UntriedOrdered();
    hide ByName, IsOrder;
  }

  lemma {:induction false} UntriedPopped(env: Env, contracts: Contracts)
    requires HasUntried(env)
    ensures CanReach(env, contracts, World(UntriedDb(Requested, 1), [Popped], Empty.ledger, {}))
  {
    var l, db := Empty.ledger, UntriedDb(Requested, 1);
    UntriedDispatch(env, CurrentsOf(l));
    Idle(env, contracts);
    assert |db.enqueued| == 1;
    hide *;
    GoFirst(env, contracts, l, {}, FullSpec, db);
    GoPop(env, contracts, World(db, [], l, {}));
    assert [] + [Popped] == [Popped];
  }

  /** A stage run is reported completed without any attempt and without an output; the store stays empty. */
  lemma {:induction false} CompletedWithoutOutput(env: Env, contracts: Contracts) returns (w: World)
    requires HasUntried(env)
    ensures CanReach(env, contracts, w) && w.ledger == Empty.ledger
    ensures |w.db.stageRuns| == 1 && w.db.stageRuns[0].status == Completed
    ensures w.db.stageRuns[0].output == 0 && w.db.stageRuns[0].attempts == 0
  {
    var l, db, db' := Empty.ledger, UntriedDb(Requested, 1), UntriedDb(Running, 1);
    UntriedPopped(env, contracts);
    UntriedEffects(env, contracts, l);
    Idle(env, contracts);
    assert |db.stageRuns| == 1 == |db'.stageRuns|;
    w := World(UntriedDb(Completed, 0), [Reported], l, {});
    assert w.db.stageRuns == [StageRun(0, "b", map[], true, Completed, 0, 0, false)];
    hide *;
    GoWork(env, contracts, World(db, [Popped], l, {}), 0, db', l, Resolving);
    assert [Popped][0 := Resolving] == [Resolving];
    GoWork(env, contracts, World(db', [Resolving], l, {}), 0, db', l, Skipped(0));
    assert [Resolving][0 := Skipped(0)] == [Skipped(0)];
    GoWork(env, contracts, World(db', [Skipped(0)], l, {}), 0, UntriedDb(Completed, 0), l, Reported);
    assert [Skipped(0)][0 := Reported] == [Reported];
  }
}
