/**
 * The shared tables of the scheduler and the workflow service, and the run queue
 * (services/scheduler/src/memory.py, services/workflow_service/src/memory.py).
 * A row's id is its position: rows are only ever appended, never deleted.
 */
module Tables {
  import opened Stages

  datatype Status = Requested | Running | Completed | Failed | Cancelled

  predicate Active(s: Status) { s == Requested || s == Running }

  /** The conditions under which the scheduler fails a run. */
  datatype RunError =
    | BadDag
    | UnknownStartFrom
    | UnknownStopAfter
    | StopAfterUnreachable
    | MissingInputs
    | StageFailed(stage: string)
    | NoCurrentVersion

  /** What a client asks for; an absent `input_versions` is the empty map. */
  datatype Spec = Spec(workflow: string, startFrom: Option<string>, stopAfter: Option<string>,
                       pins: map<string, nat>, onFailure: Option<Policy>)

  datatype Run = Run(spec: Spec, promote: bool, status: Status, error: Option<RunError>, cancelRequested: bool)

  /** `output` is a version number, 0 while there is none. */
  datatype StageRun = StageRun(run: nat, stage: string, inputs: map<string, nat>, promote: bool,
                               status: Status, output: nat, attempts: int, usedFallback: bool)

  datatype Schedule = Schedule(spec: Spec, promote: Option<bool>, runAt: Option<int>,
                               cancelRequested: bool, dispatchedTo: Option<nat>)

  datatype Cadence = Cron(expression: string) | Interval(seconds: int)

  datatype Rule = Rule(spec: Spec, promote: Option<bool>, cadence: Cadence, nextRunAt: int, enabled: bool)

  datatype Message = Message(stageRun: nat, run: nat, workflow: string, stage: string, inputs: map<string, nat>,
      promote: bool)

  datatype Db = Db(schedules: seq<Schedule>, rules: seq<Rule>, runs: seq<Run>, stageRuns: seq<StageRun>,
      enqueued: seq<Message>)

  /** A stage run together with its id. */
  datatype Record = Record(id: nat, row: StageRun)

  // ---- queries -------------------------------------------------------------

  /** The stage runs of one run, in id order. */
  function Records(rows: seq<StageRun>, r: nat): seq<Record> {
    if rows == [] then []
    else
      var last := rows[|rows| - 1];
      Records(rows[..|rows| - 1], r) + if last.run == r then [Record(|rows| - 1, last)] else []
  }

  predicate Pending(s: Schedule, now: int) {
    s.dispatchedTo.None? && (s.runAt.None? || s.runAt.value <= now) && !s.cancelRequested
  }

  predicate Due(rule: Rule, now: int) {
    rule.enabled && rule.nextRunAt <= now
  }

  // ---- updates -------------------------------------------------------------

  function WithRun(db: Db, r: nat, run: Run): Db
    requires r < |db.runs|
  {
    db.(runs := db.runs[r := run])
  }

  function WithStageRun(db: Db, i: nat, row: StageRun): Db
    requires i < |db.stageRuns|
  {
    db.(stageRuns := db.stageRuns[i := row])
  }

  function NewStageRun(r: nat, stage: string, inputs: map<string, nat>, promote: bool): StageRun {
    StageRun(r, stage, inputs, promote, Requested, 0, 1, false)
  }

  function NewRun(spec: Spec, promote: bool): Run {
    Run(spec, promote, Requested, None, false)
  }

  // ---- facts about records -------------------------------------------------

  lemma {:induction false} RecordsMembers(rows: seq<StageRun>, r: nat, x: Record)
    ensures x in Records(rows, r) <==> x.id < |rows| && rows[x.id] == x.row && x.row.run == r
  {
    if rows != [] {
      RecordsMembers(rows[..|rows| - 1], r, x);
    }
  }

  lemma {:induction false} RecordsAscend(rows: seq<StageRun>, r: nat)
    ensures forall i, j :: 0 <= i < j < |Records(rows, r)| ==> Records(rows, r)[i].id < Records(rows, r)[j].id
  {
    if rows != [] {
      var init := rows[..|rows| - 1];
      RecordsAscend(init, r);
      forall x | x in Records(init, r) ensures x.id < |init| { RecordsMembers(init, r, x); }
    }
  }
}
