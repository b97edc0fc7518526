/** What clients and workers change through the workflow service (services/workflow_service/src/service.py). */
module Control {
  import opened Stages
  import opened Tables

  // ---- clients -------------------------------------------------------------

  function RequestRun(db: Db, spec: Spec, promote: Option<bool>, runAt: Option<int>): Db {
    db.(schedules := db.schedules + [Schedule(spec, promote, runAt, false, None)])
  }

  datatype Recurrence = Next(cadence: Cadence, at: int) | InvalidRecurrence | InvalidCron

  /** Exactly one of the two cadences is given, a cron expression parses, and an interval is positive. */
  function ComputeNextRunAt(cron: (string, int) -> int, parses: string -> bool, expression: Option<string>,
                    seconds: Option<int>, now: int): Recurrence {
    match (expression, seconds)
    case (Some(e), None) => if parses(e) then Next(Cron(e), cron(e, now)) else InvalidCron
    case (None, Some(n)) => if n <= 0 then InvalidRecurrence else Next(Interval(n), now + n)
    case _ => InvalidRecurrence
  }

  function CreateRule(db: Db, spec: Spec, promote: Option<bool>, cadence: Cadence, nextRunAt: int): Db {
    db.(rules := db.rules + [Rule(spec, promote, cadence, nextRunAt, true)])
  }

  function DisableRule(db: Db, k: nat): Db
    requires k < |db.rules|
  {
    db.(rules := db.rules[k := db.rules[k].(enabled := false)])
  }

  /** Only an active run can be asked to stop. */
  function RequestCancel(db: Db, r: nat): Db
    requires r < |db.runs|
  {
    if Active(db.runs[r].status) then WithRun(db, r, db.runs[r].(cancelRequested := true)) else db
  }

  /** Only a schedule that was not dispatched yet can be cancelled. */
  function RequestScheduleCancel(db: Db, s: nat): Db
    requires s < |db.schedules|
  {
    if db.schedules[s].dispatchedTo.None?
        then db.(schedules := db.schedules[s := db.schedules[s].(cancelRequested := true)]) else db
  }

  // ---- worker callbacks: none of them looks at the current status ---------

  function StartStageRun(db: Db, i: nat): Db
    requires i < |db.stageRuns|
  {
    WithStageRun(db, i, db.stageRuns[i].(status := Running))
  }

  function CompleteStageRun(db: Db, i: nat, output: nat, attempts: int): Db
    requires i < |db.stageRuns|
  {
    WithStageRun(db, i, db.stageRuns[i].(status := Completed, output := output, attempts := attempts))
  }

  function FailStageRun(db: Db, i: nat, attempts: int): Db
    requires i < |db.stageRuns|
  {
    WithStageRun(db, i, db.stageRuns[i].(status := Failed, attempts := attempts))
  }
}
