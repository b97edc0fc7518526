/** The scheduler tick as a function on the tables (services/scheduler/src/poller.py). */
module Ticks {
  import opened Stages
  import opened Tables
  import opened Dag

  /** Current versions, as the resource store answers them. */
  type Currents = map<string, nat>

  /** The registry provider (a missing workflow is one that fails to load) and the cron library, with what it parses. */
  datatype Env = Env(registries: map<string, Registry>, cron: (string, int) -> int, parses: string -> bool)

  // ---- intake --------------------------------------------------------------

  function ResolvePromote(promote: Option<bool>, spec: Spec): bool {
    if promote.Some? then promote.value else spec.startFrom.None? && spec.stopAfter.None?
  }

  function NextRunAt(cron: (string, int) -> int, cadence: Cadence, now: int): int {
    match cadence
    case Cron(expression) => cron(expression, now)
    case Interval(seconds) => now + seconds
  }

  /** What a tick does to one recurring rule. */
  function RuleStep(cron: (string, int) -> int, rule: Rule, now: int): Rule {
    if Due(rule, now) then rule.(nextRunAt := NextRunAt(cron, rule.cadence, now)) else rule
  }

  /** The runs that due rules spawn, in id order. */
  function Firings(rules: seq<Rule>, now: int): seq<Run> {
    if rules == [] then []
    else
      var rule := rules[|rules| - 1];
      Firings(rules[..|rules| - 1], now) + if Due(rule, now)
          then [NewRun(rule.spec, ResolvePromote(rule.promote, rule.spec))] else []
  }

  function IntakeRecurring(cron: (string, int) -> int, now: int, db: Db): Db {
    db.(rules := seq(|db.rules|, i requires 0 <= i < |db.rules| => RuleStep(cron, db.rules[i], now)),
        runs := db.runs + Firings(db.rules, now))
  }

  /** The runs that pending schedules become, in id order. */
  function Dispatches(schedules: seq<Schedule>, now: int): seq<Run> {
    if schedules == [] then []
    else
      var s := schedules[|schedules| - 1];
      Dispatches(schedules[..|schedules| - 1], now) + if Pending(s, now)
          then [NewRun(s.spec, ResolvePromote(s.promote, s.spec))] else []
  }

  function ScheduleStep(schedules: seq<Schedule>, now: int, base: nat, i: nat): Schedule
    requires i < |schedules|
  {
    var s := schedules[i];
    if Pending(s, now) then s.(dispatchedTo := Some(base + |Dispatches(schedules[..i], now)|)) else s
  }

  function Intake(now: int, db: Db): Db {
    db.(schedules := seq(|db.schedules|,
        i requires 0 <= i < |db.schedules| => ScheduleStep(db.schedules, now, |db.runs|, i)),
        runs := db.runs + Dispatches(db.schedules, now))
  }

  // ---- progression of one run ---------------------------------------------

  function Started(records: seq<Record>): set<string> {
    set x | x in records :: x.row.stage
  }

  /** `done`: the output of each completed stage, a later row winning. */
  function Outputs(records: seq<Record>): map<string, nat> {
    if records == [] then map[]
    else
      var m, row := Outputs(records[..|records| - 1]), records[|records| - 1].row;
      if row.status == Completed then m[row.stage := row.output] else m
  }

  function FailedOf(records: seq<Record>): seq<Record> {
    if records == [] then []
    else
      var last := records[|records| - 1];
      FailedOf(records[..|records| - 1]) + if last.row.status == Failed then [last] else []
  }

  /** The checks that depend on the request and the workflow alone. */
  datatype Admission = Rejected(error: RunError) | Admitted(order: seq<StageDef>, reachable: set<string>,
      policy: Policy)

  ghost function Admit(env: Env, spec: Spec): Admission {
    if spec.workflow !in env.registries then Rejected(BadDag)
    else
      match TopologicalOrder(env.registries[spec.workflow].stages)
      case None => Rejected(BadDag)
      case Some(order) =>
        AdmitRange(order, spec, if spec.onFailure.Some? then spec.onFailure.value
            else env.registries[spec.workflow].onFailure)
  }

  ghost function AdmitRange(order: seq<StageDef>, spec: Spec, policy: Policy): Admission {
    var g := ByName(order);
    if spec.startFrom.Some? && spec.startFrom.value !in g then Rejected(UnknownStartFrom)
    else
      var reachable := if spec.startFrom.Some? then ReachableFrom(g, spec.startFrom.value) else g.Keys;
      if spec.stopAfter.Some? && spec.stopAfter.value !in g then Rejected(UnknownStopAfter)
      else if spec.stopAfter.Some? && spec.stopAfter.value !in reachable then Rejected(StopAfterUnreachable)
      else if spec.startFrom.Some? && !(forall d <- g[spec.startFrom.value].dependsOn :: d in spec.pins)
          then Rejected(MissingInputs)
      else Admitted(order, reachable, policy)
  }

  /** What one tick concludes about an admitted run, with the failed stage run that it papers over. */
  datatype Verdict = Verdict(fallback: Option<Record>, outcome: Outcome)
  datatype Outcome = Abort(error: RunError) | Stop | Go(done: map<string, nat>)

  function Judge(spec: Spec, records: seq<Record>, order: seq<StageDef>, reachable: set<string>, policy: Policy,
                    current: Currents): Verdict {
    var failed, outputs := FailedOf(records), Outputs(records);
    if failed == [] then Verdict(None, Conclude(spec, order, reachable, outputs, current))
    else if policy == Fallback && failed[0].row.stage in current then
      Verdict(Some(failed[0]),
              Conclude(spec, order, reachable, outputs[failed[0].row.stage := current[failed[0].row.stage]], current))
    else Verdict(None, Abort(StageFailed(failed[0].row.stage)))
  }

  function Conclude(spec: Spec, order: seq<StageDef>, reachable: set<string>, done: map<string, nat>,
                    current: Currents): Outcome {
    if spec.stopAfter.Some? && spec.stopAfter.value in done then Stop
    else
      var pinned := if spec.startFrom.Some? then done + spec.pins else done;
      var external := ExternalDeps(order, reachable, pinned);
      if external <= current.Keys then Go(pinned + map d | d in external :: current[d])
      else Abort(NoCurrentVersion)
  }

  /** Dependencies of reachable stages that nothing registers and nothing provides yet. */
  function ExternalDeps(order: seq<StageDef>, reachable: set<string>, done: map<string, nat>): set<string> {
    set s, d | s in order && s.name in reachable && d in s.dependsOn && d !in Names(order) && d !in done :: d
  }

  predicate IsReady(s: StageDef, reachable: set<string>, started: set<string>, done: map<string, nat>) {
    s.name in reachable && s.name !in started && forall d <- s.dependsOn :: d in done
  }

  /** The stages to dispatch, in topological order. */
  function Ready(order: seq<StageDef>, reachable: set<string>, started: set<string>,
                    done: map<string, nat>): (ready: seq<StageDef>)
    ensures forall s :: s in ready <==> s in order && IsReady(s, reachable, started, done)
  {
    if order == [] then []
    else
      var s := order[|order| - 1];
      assert order == order[..|order| - 1] + [s];
      Ready(order[..|order| - 1], reachable, started, done) + if IsReady(s, reachable, started, done) then [s] else []
  }

  function InputsOf(s: StageDef, done: map<string, nat>): map<string, nat>
    requires forall d <- s.dependsOn :: d in done
  {
    map d | d in s.dependsOn :: done[d]
  }

  predicate AllIn(stages: seq<StageDef>, done: map<string, nat>) {
    forall s <- stages :: forall d <- s.dependsOn :: d in done
  }

  function NewRows(r: nat, promote: bool, ready: seq<StageDef>, done: map<string, nat>): seq<StageRun>
    requires AllIn(ready, done)
  {
    seq(|ready|, i requires 0 <= i < |ready| => NewStageRun(r, ready[i].name, InputsOf(ready[i], done), promote))
  }

  function NewMessages(base: nat, r: nat, run: Run, ready: seq<StageDef>, done: map<string, nat>): seq<Message>
    requires AllIn(ready, done)
  {
    seq(|ready|, i requires 0 <= i < |ready| =>
      Message(base + i, r, run.spec.workflow, ready[i].name, InputsOf(ready[i], done), run.promote))
  }

  function Append(db: Db, r: nat, ready: seq<StageDef>, done: map<string, nat>): Db
    requires r < |db.runs| && AllIn(ready, done)
  {
    db.(stageRuns := db.stageRuns + NewRows(r, db.runs[r].promote, ready, done),
        enqueued := db.enqueued + NewMessages(|db.stageRuns|, r, db.runs[r], ready, done))
  }

  function StatusAfterDispatch(status: Status, dispatched: bool, complete: bool): Status {
    if complete then Completed else if dispatched && status == Requested then Running else status
  }

  function Dispatch(db: Db, r: nat, order: seq<StageDef>, reachable: set<string>, done: map<string, nat>): Db
    requires r < |db.runs|
  {
    var ready := Ready(order, reachable, Started(Records(db.stageRuns, r)), done);
    var db' := Append(db, r, ready, done);
    WithRun(db', r, db'.runs[r].(status := StatusAfterDispatch(db.runs[r].status, ready != [], reachable <= done.Keys)))
  }

  function FailRun(db: Db, r: nat, error: RunError): Db
    requires r < |db.runs|
  {
    WithRun(db, r, db.runs[r].(status := Failed, error := Some(error)))
  }

  function MarkFallback(db: Db, fallback: Option<Record>): Db {
    if fallback.Some? && fallback.value.id < |db.stageRuns|
    then WithStageRun(db, fallback.value.id, db.stageRuns[fallback.value.id].(usedFallback := true))
    else db
  }

  function Apply(db: Db, r: nat, order: seq<StageDef>, reachable: set<string>, v: Verdict): Db
    requires r < |db.runs|
  {
    var db' := MarkFallback(db, v.fallback);
    match v.outcome
    case Abort(error) => FailRun(db', r, error)
    case Stop => WithRun(db', r, db'.runs[r].(status := Completed))
    case Go(done) => Dispatch(db', r, order, reachable, done)
  }

  ghost function ProgressRun(env: Env, current: Currents, db: Db, r: nat): (db': Db)
    requires r < |db.runs|
    ensures |db'.runs| == |db.runs|
  {
    var run := db.runs[r];
    if run.cancelRequested then WithRun(db, r, run.(status := Cancelled))
    else
      match Admit(env, run.spec)
      case Rejected(error) => FailRun(db, r, error)
      case Admitted(order, reachable, policy) =>
        Apply(db, r, order, reachable, Judge(run.spec, Records(db.stageRuns, r), order, reachable, policy, current))
  }

  /** Progression of the active runs among a list of runs, in that order. */
  ghost function ProgressList(env: Env, current: Currents, db: Db, rs: seq<nat>): (db': Db)
    requires forall i :: 0 <= i < |rs| ==> rs[i] < |db.runs|
    ensures |db'.runs| == |db.runs|
    decreases |rs|
  {
    if rs == [] then db
    else
      var r := rs[|rs| - 1];
      var db' := ProgressList(env, current, db, rs[..|rs| - 1]);
      if Active(db'.runs[r].status) then ProgressRun(env, current, db', r) else db'
  }

  function UpTo(n: nat): seq<nat> {
    seq(n, i requires 0 <= i < n => i)
  }

  /** One whole tick, with one clock reading. */
  ghost function Tick(env: Env, current: Currents, now: int, db: Db): Db {
    var taken := Intake(now, IntakeRecurring(env.cron, now, db));
    ProgressList(env, current, taken, UpTo(|taken.runs|))
  }
}
