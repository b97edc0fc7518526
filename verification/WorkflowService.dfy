/** The control plane: client requests and worker callbacks (services/workflow_service/src/service.py). */
module WorkflowServices {
  import opened Stages
  import opened Tables
  import opened TableStore
  import opened IntakeFacts
  import Control

  datatype ServiceError =
    | WorkflowNotFound
    | InvalidOnFailure
    | InvalidRecurrence
    | InvalidCronExpression
    | ScheduleNotFound
    | ScheduleNotCancellable
    | RecurringScheduleNotFound
    | RunNotFound
    | RunNotCancellable
    | StageRunNotFound

  datatype Result<+T> = Ok(value: T) | Err(error: ServiceError)

  function PolicyNamed(name: string): Option<Policy> {
    if name == "halt" then Some(Halt) else if name == "fallback" then Some(Fallback) else None
  }

  /** What a client sends to trigger a run, or to register a rule. */
  datatype Request = Request(workflow: string, startFrom: Option<string>, stopAfter: Option<string>,
                             pins: map<string, nat>, promote: Option<bool>, onFailure: Option<string>)

  /** The request as it is stored, if its workflow exists and its policy is one of the two. */
  function Accepted(workflows: set<string>, q: Request): Result<Spec> {
    if q.workflow !in workflows then Err(WorkflowNotFound)
    else if q.onFailure.Some? && PolicyNamed(q.onFailure.value).None? then Err(InvalidOnFailure)
    else Ok(Spec(q.workflow, q.startFrom, q.stopAfter, q.pins, if q.onFailure.Some? then PolicyNamed(q.onFailure.value)
        else None))
  }

  predicate KnownPolicy(name: Option<string>) {
    name.None? || name.value == "halt" || name.value == "fallback"
  }

  /** The stored request is the one that the client sent. */
  predicate AsksFor(spec: Spec, q: Request) {
    && spec.workflow == q.workflow && spec.startFrom == q.startFrom && spec.stopAfter == q.stopAfter
    && spec.pins == q.pins
    && match q.onFailure
       case None => spec.onFailure.None?
       case Some(name) => name == (if spec.onFailure == Some(Halt) then "halt" else "fallback") && spec.onFailure.Some?
  }

  /** The rule has the cadence asked for, and its first time is one cadence ahead. */
  predicate FirstTime(rule: Rule, cron: (string, int) -> int, expression: Option<string>, seconds: Option<int>,
                      now: int) {
    match rule.cadence
    case Cron(e) => expression == Some(e) && rule.nextRunAt == cron(e, now)
    case Interval(n) => seconds == Some(n) && rule.nextRunAt == now + n
  }

  datatype ScheduleStatus = ScheduleStatus(status: Status, error: Option<RunError>, run: Option<nat>)

  class WorkflowService {
    const store: InMemoryScheduleStore
    ghost const queue: InMemoryRunQueue
    const workflows: set<string>
    const cron: (string, int) -> int
    const parses: string -> bool

    constructor (store: InMemoryScheduleStore, ghost queue: InMemoryRunQueue, workflows: set<string>,
                 cron: (string, int) -> int, parses: string -> bool)
      ensures this.store == store && this.queue == queue && this.workflows == workflows
      ensures this.cron == cron && this.parses == parses
    {
      this.store, this.queue, this.workflows, this.cron, this.parses := store, queue, workflows, cron, parses;
    }

    // ---- clients -----------------------------------------------------------

    method RequestRun(q: Request, runAt: Option<int>) returns (r: Result<nat>)
      modifies store`schedules
      ensures var spec := Accepted(workflows, q);
              if spec.Err? then r == Err(spec.error) && View(store, queue) == old(View(store, queue))
              else r == Ok(|old(store.schedules)|)
                   && View(store, queue) == Control.RequestRun(old(View(store, queue)), spec.value, q.promote, runAt)
      ensures r.Ok? <==> q.workflow in workflows && KnownPolicy(q.onFailure)
      ensures r.Err? ==> r.error == if q.workflow in workflows then InvalidOnFailure else WorkflowNotFound
      ensures r.Ok? ==>
                exists s: Schedule :: store.schedules == old(store.schedules) + [s] && AsksFor(s.spec, q)
                                      && s.promote == q.promote && s.runAt == runAt
                                      && !s.cancelRequested && s.dispatchedTo.None?
      ensures store.rules == old(store.rules) && store.runs == old(store.runs)
      ensures store.stageRuns == old(store.stageRuns)
    {
      var spec := Accepted(workflows, q);
      if spec.Err? { return Err(spec.error); }
      var s := store.CreateSchedule(spec.value, q.promote, runAt);
      assert AsksFor(store.schedules[s].spec, q);
      r := Ok(s);
    }

    method CreateRecurringSchedule(q: Request, expression: Option<string>, seconds: Option<int>,
                      now: int) returns (r: Result<nat>)
      modifies store`rules
      ensures var spec, next := Accepted(workflows, q),
          Control.ComputeNextRunAt(cron, parses, expression, seconds, now);
              if r.Ok? then
                && spec.Ok? && next.Next? && r == Ok(|old(store.rules)|)
                && View(store, queue) == Control.CreateRule(old(View(store, queue)), spec.value, q.promote,
                    next.cadence, next.at)
              else
                && View(store, queue) == old(View(store, queue))
                && r.error == if spec.Err? then spec.error else if next.InvalidCron? then InvalidCronExpression
                    else InvalidRecurrence
      ensures r.Ok? <==>
                && q.workflow in workflows && KnownPolicy(q.onFailure)
                && (expression.Some? <==> seconds.None?)
                && (expression.Some? ==> parses(expression.value)) && (seconds.Some? ==> seconds.value > 0)
      ensures r.Ok? ==>
                exists rule: Rule :: store.rules == old(store.rules) + [rule] && AsksFor(rule.spec, q)
                                     && rule.promote == q.promote && rule.enabled
                                     && FirstTime(rule, cron, expression, seconds, now)
      ensures r.Err? ==> r.error == if q.workflow !in workflows then WorkflowNotFound
                                    else if !KnownPolicy(q.onFailure) then InvalidOnFailure
                                    else if expression.Some? && seconds.None? then InvalidCronExpression
                                    else InvalidRecurrence
      ensures store.schedules == old(store.schedules) && store.runs == old(store.runs)
      ensures store.stageRuns == old(store.stageRuns)
    {
      var spec := Accepted(workflows, q);
      if spec.Err? { return Err(spec.error); }
      match Control.ComputeNextRunAt(cron, parses, expression, seconds, now)
      case InvalidCron => r := Err(InvalidCronExpression);
      case InvalidRecurrence => r := Err(InvalidRecurrence);
      case Next(cadence, at) =>
        var k := store.CreateRecurringSchedule(spec.value, q.promote, cadence, at);
        assert AsksFor(store.rules[k].spec, q) && FirstTime(store.rules[k], cron, expression, seconds, now);
        r := Ok(k);
    }

    method CancelRecurringSchedule(workflow: string, k: nat) returns (r: Result<()>)
      modifies store`rules
      ensures r.Ok? <==> k < |old(store.rules)| && old(store.rules)[k].spec.workflow == workflow
      ensures r.Err? ==> r.error == RecurringScheduleNotFound && View(store, queue) == old(View(store, queue))
      ensures r.Ok? ==> View(store, queue) == Control.DisableRule(old(View(store, queue)), k)
      ensures r.Ok? ==> store.rules == old(store.rules)[k := old(store.rules)[k].(enabled := false)]
      ensures store.schedules == old(store.schedules) && store.runs == old(store.runs)
      ensures store.stageRuns == old(store.stageRuns)
    {
      var rule := store.GetRecurringSchedule(workflow, k);
      if rule.None? { return Err(RecurringScheduleNotFound); }
      store.SetEnabled(k, false);
      r := Ok(());
    }

    method RequestCancel(workflow: string, n: nat) returns (r: Result<()>)
      modifies store`runs
      ensures var known := n < |old(store.runs)| && old(store.runs)[n].spec.workflow == workflow;
              && (!known ==> r == Err(RunNotFound))
              && (known && old(store.runs)[n].status in {Completed, Failed, Cancelled} ==> r == Err(RunNotCancellable))
              && (known && old(store.runs)[n].status in {Requested, Running} ==> r == Ok(()))
      ensures store.runs == if r.Ok? then old(store.runs)[n := old(store.runs)[n].(cancelRequested := true)]
                            else old(store.runs)
      ensures store.schedules == old(store.schedules) && store.rules == old(store.rules)
      ensures store.stageRuns == old(store.stageRuns)
      ensures View(store, queue) == if r.Ok? then Control.RequestCancel(old(View(store, queue)), n)
          else old(View(store, queue))
    {
      var run := store.GetWorkflowRun(workflow, n);
      if run.None? { return Err(RunNotFound); }
      if run.value.status in {Completed, Failed, Cancelled} { return Err(RunNotCancellable); }
      store.MarkCancelRequested(n);
      r := Ok(());
    }

    method RequestScheduleCancel(workflow: string, s: nat) returns (r: Result<()>)
      modifies store`schedules
      ensures var known := s < |old(store.schedules)| && old(store.schedules)[s].spec.workflow == workflow;
              && (!known ==> r == Err(ScheduleNotFound))
              && (known && old(store.schedules)[s].dispatchedTo.Some? ==> r == Err(ScheduleNotCancellable))
              && (known && old(store.schedules)[s].dispatchedTo.None? ==> r == Ok(()))
      ensures View(store, queue) == if r.Ok? then Control.RequestScheduleCancel(old(View(store, queue)), s)
          else old(View(store, queue))
      ensures store.schedules == if r.Ok?
          then old(store.schedules)[s := old(store.schedules)[s].(cancelRequested := true)]
                                 else old(store.schedules)
      ensures store.rules == old(store.rules) && store.runs == old(store.runs)
      ensures store.stageRuns == old(store.stageRuns)
    {
      var schedule := store.GetSchedule(workflow, s);
      if schedule.None? { return Err(ScheduleNotFound); }
      if schedule.value.dispatchedTo.Some? { return Err(ScheduleNotCancellable); }
      store.RequestScheduleCancel(s);
      r := Ok(());
    }

    /**
     * The status of the run that a schedule became. In every reachable state that run is there, so the
     * one way to fail is to ask for a schedule that does not exist.
     */
    method GetScheduleStatus(workflow: string, s: nat) returns (r: Result<ScheduleStatus>)
      ensures SchedulesOk(View(store, queue)) ==>
                (r.Ok? <==> s < |store.schedules| && store.schedules[s].spec.workflow == workflow)
      ensures r.Ok? ==> s < |store.schedules| && r.value.run == store.schedules[s].dispatchedTo
      ensures r.Ok? && r.value.run.Some? ==>
                && r.value.run.value < |store.runs|
                && store.runs[r.value.run.value].status == r.value.status
                && store.runs[r.value.run.value].error == r.value.error
      ensures r.Ok? && r.value.run.None?
          ==> r.value.error == None
              && r.value.status == if store.schedules[s].cancelRequested then Cancelled else Requested
      ensures r.Err? ==> r.error == if s < |store.schedules| && store.schedules[s].spec.workflow == workflow
          then RunNotFound else ScheduleNotFound
    {
      var schedule := store.GetSchedule(workflow, s);
      if schedule.None? { return Err(ScheduleNotFound); }
      assert SchedulesOk(View(store, queue)) ==> ScheduleOk(View(store, queue), s);
      if schedule.value.dispatchedTo.None? {
        return Ok(ScheduleStatus(if schedule.value.cancelRequested then Cancelled else Requested, None, None));
      }
      var run := store.GetWorkflowRun(workflow, schedule.value.dispatchedTo.value);
      if run.None? { return Err(RunNotFound); }
      r := Ok(ScheduleStatus(run.value.status, run.value.error, schedule.value.dispatchedTo));
    }

    // ---- worker callbacks --------------------------------------------------

    method StartStageRun(workflow: string, i: nat) returns (ok: bool)
      modifies store`stageRuns
      ensures ok <==> old(store.OwnsStageRun(workflow, i))
      ensures ok <==> i < |old(store.stageRuns)| && old(store.stageRuns)[i].run < |old(store.runs)|
                      && old(store.runs)[old(store.stageRuns)[i].run].spec.workflow == workflow
      ensures ok ==> View(store, queue) == Control.StartStageRun(old(View(store, queue)), i)
      ensures !ok ==> View(store, queue) == old(View(store, queue))
      ensures ok ==> store.stageRuns
                     == old(store.stageRuns)[i := old(store.stageRuns)[i].(status := Running)]
      ensures !ok ==> store.stageRuns == old(store.stageRuns)
      ensures store.schedules == old(store.schedules) && store.rules == old(store.rules)
      ensures store.runs == old(store.runs)
    {
      var row := store.GetStageRun(workflow, i);
      if row.None? { return false; }
      store.MarkRunning(i);
      ok := true;
    }

    /** An output of None is stored as 0. */
    method CompleteStageRun(workflow: string, i: nat, output: Option<nat>, attempts: int) returns (ok: bool)
      modifies store`stageRuns
      ensures ok <==> old(store.OwnsStageRun(workflow, i))
      ensures ok <==> i < |old(store.stageRuns)| && old(store.stageRuns)[i].run < |old(store.runs)|
                      && old(store.runs)[old(store.stageRuns)[i].run].spec.workflow == workflow
      ensures ok ==> View(store, queue)
                     == Control.CompleteStageRun(old(View(store, queue)), i, if output.Some? then output.value
                         else 0, attempts)
      ensures !ok ==> View(store, queue) == old(View(store, queue))
      ensures ok ==> store.stageRuns
                     == old(store.stageRuns)[i := old(store.stageRuns)[i].(status := Completed, attempts := attempts,
                                                                        output := if output.Some? then output.value
                                                                            else 0)]
      ensures !ok ==> store.stageRuns == old(store.stageRuns)
      ensures store.schedules == old(store.schedules) && store.rules == old(store.rules)
      ensures store.runs == old(store.runs)
    {
      var row := store.GetStageRun(workflow, i);
      if row.None? { return false; }
      store.MarkCompleted(i, if output.Some? then output.value else 0, attempts);
      ok := true;
    }

    method FailStageRun(workflow: string, i: nat, attempts: int) returns (ok: bool)
      modifies store`stageRuns
      ensures ok <==> old(store.OwnsStageRun(workflow, i))
      ensures ok <==> i < |old(store.stageRuns)| && old(store.stageRuns)[i].run < |old(store.runs)|
                      && old(store.runs)[old(store.stageRuns)[i].run].spec.workflow == workflow
      ensures ok ==> View(store, queue) == Control.FailStageRun(old(View(store, queue)), i, attempts)
      ensures !ok ==> View(store, queue) == old(View(store, queue))
      ensures ok ==> store.stageRuns
                     == old(store.stageRuns)[i := old(store.stageRuns)[i].(status := Failed, attempts := attempts)]
      ensures !ok ==> store.stageRuns == old(store.stageRuns)
      ensures store.schedules == old(store.schedules) && store.rules == old(store.rules)
      ensures store.runs == old(store.runs)
    {
      var row := store.GetStageRun(workflow, i);
      if row.None? { return false; }
      store.MarkFailed(i, attempts);
      ok := true;
    }
  }
}
