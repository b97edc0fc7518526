/**
 * The tables and the run queue, updated in place. The scheduler's store and the workflow service's
 * repositories are two views of the same tables, so they are one object here
 * (services/scheduler/src/memory.py, services/workflow_service/src/memory.py).
 */
module TableStore {
  import opened Stages
  import opened Tables

  /** A row together with its id, as the list queries return it. */
  datatype Listed<T> = Listed(id: nat, row: T)

  function PendingOf(schedules: seq<Schedule>, now: int): seq<Listed<Schedule>> {
    if schedules == [] then []
    else
      var n := |schedules| - 1;
      PendingOf(schedules[..n], now) + if Pending(schedules[n], now) then [Listed(n, schedules[n])] else []
  }

  function DueOf(rules: seq<Rule>, now: int): seq<Listed<Rule>> {
    if rules == [] then []
    else
      var n := |rules| - 1;
      DueOf(rules[..n], now) + if Due(rules[n], now) then [Listed(n, rules[n])] else []
  }

  function ActiveOf(runs: seq<Run>): seq<Listed<Run>> {
    if runs == [] then []
    else
      var n := |runs| - 1;
      ActiveOf(runs[..n]) + if Active(runs[n].status) then [Listed(n, runs[n])] else []
  }

  /** The listed rows are exactly the ones asked for, with their own ids. */
  lemma {:induction false} PendingMembers(schedules: seq<Schedule>, now: int, x: Listed<Schedule>)
    ensures x in PendingOf(schedules, now) <==> x.id < |schedules| && schedules[x.id] == x.row && Pending(x.row, now)
  {
    if schedules != [] { PendingMembers(schedules[..|schedules| - 1], now, x); }
  }

  lemma {:induction false} DueMembers(rules: seq<Rule>, now: int, x: Listed<Rule>)
    ensures x in DueOf(rules, now) <==> x.id < |rules| && rules[x.id] == x.row && Due(x.row, now)
  {
    if rules != [] { DueMembers(rules[..|rules| - 1], now, x); }
  }

  lemma {:induction false} ActiveMembers(runs: seq<Run>, x: Listed<Run>)
    ensures x in ActiveOf(runs) <==> x.id < |runs| && runs[x.id] == x.row && Active(x.row.status)
  {
    if runs != [] { ActiveMembers(runs[..|runs| - 1], x); }
  }

  class InMemoryScheduleStore {
    var schedules: seq<Schedule>
    var rules: seq<Rule>
    var runs: seq<Run>
    var stageRuns: seq<StageRun>

    constructor ()
      ensures schedules == [] && rules == [] && runs == [] && stageRuns == []
    {
      schedules, rules, runs, stageRuns := [], [], [], [];
    }

    // ---- the scheduler's queries -------------------------------------------

    method PendingSchedules(now: int) returns (pending: seq<Listed<Schedule>>)
      ensures pending == PendingOf(schedules, now)
    {
      pending := [];
      for i := 0 to |schedules|
        invariant pending == PendingOf(schedules[..i], now)
      {
        assert schedules[..i + 1][..i] == schedules[..i];
        if Pending(schedules[i], now) { pending := pending + [Listed(i, schedules[i])]; }
      }
      assert schedules[..|schedules|] == schedules;
    }

    method DueRecurringSchedules(now: int) returns (due: seq<Listed<Rule>>)
      ensures due == DueOf(rules, now)
    {
      due := [];
      for i := 0 to |rules|
        invariant due == DueOf(rules[..i], now)
      {
        assert rules[..i + 1][..i] == rules[..i];
        if Due(rules[i], now) { due := due + [Listed(i, rules[i])]; }
      }
      assert rules[..|rules|] == rules;
    }

    method ActiveWorkflowRuns() returns (active: seq<Listed<Run>>)
      ensures active == ActiveOf(runs)
    {
      active := [];
      for i := 0 to |runs|
        invariant active == ActiveOf(runs[..i])
      {
        assert runs[..i + 1][..i] == runs[..i];
        if Active(runs[i].status) { active := active + [Listed(i, runs[i])]; }
      }
      assert runs[..|runs|] == runs;
    }

    method StageRunsForWorkflowRun(r: nat) returns (records: seq<Record>)
      ensures records == Records(stageRuns, r)
    {
      records := [];
      for i := 0 to |stageRuns|
        invariant records == Records(stageRuns[..i], r)
      {
        assert stageRuns[..i + 1][..i] == stageRuns[..i];
        if stageRuns[i].run == r { records := records + [Record(i, stageRuns[i])]; }
      }
      assert stageRuns[..|stageRuns|] == stageRuns;
    }

    // ---- the scheduler's updates -------------------------------------------

    method MarkScheduleDispatched(s: nat, r: nat)
      requires s < |schedules|
      modifies this`schedules
      ensures schedules == old(schedules)[s := old(schedules)[s].(dispatchedTo := Some(r))]
    {
      schedules := schedules[s := schedules[s].(dispatchedTo := Some(r))];
    }

    method AdvanceRecurringSchedule(k: nat, nextRunAt: int)
      requires k < |rules|
      modifies this`rules
      ensures rules == old(rules)[k := old(rules)[k].(nextRunAt := nextRunAt)]
    {
      rules := rules[k := rules[k].(nextRunAt := nextRunAt)];
    }

    method CreateWorkflowRun(spec: Spec, promote: bool) returns (r: nat)
      modifies this`runs
      ensures r == |old(runs)| && runs == old(runs) + [NewRun(spec, promote)]
    {
      r := |runs|;
      runs := runs + [NewRun(spec, promote)];
    }

    method CreateStageRun(r: nat, stage: string, inputs: map<string, nat>, promote: bool) returns (i: nat)
      modifies this`stageRuns
      ensures i == |old(stageRuns)| && stageRuns == old(stageRuns) + [NewStageRun(r, stage, inputs, promote)]
    {
      i := |stageRuns|;
      stageRuns := stageRuns + [NewStageRun(r, stage, inputs, promote)];
    }

    method MarkStageRunUsedFallback(i: nat)
      requires i < |stageRuns|
      modifies this`stageRuns
      ensures stageRuns == old(stageRuns)[i := old(stageRuns)[i].(usedFallback := true)]
    {
      stageRuns := stageRuns[i := stageRuns[i].(usedFallback := true)];
    }

    method MarkWorkflowRunRunning(r: nat)
      requires r < |runs|
      modifies this`runs
      ensures runs == old(runs)[r := old(runs)[r].(status := Running)]
    {
      runs := runs[r := runs[r].(status := Running)];
    }

    method MarkWorkflowRunCompleted(r: nat)
      requires r < |runs|
      modifies this`runs
      ensures runs == old(runs)[r := old(runs)[r].(status := Completed)]
    {
      runs := runs[r := runs[r].(status := Completed)];
    }

    method MarkWorkflowRunFailed(r: nat, error: RunError)
      requires r < |runs|
      modifies this`runs
      ensures runs == old(runs)[r := old(runs)[r].(status := Failed, error := Some(error))]
    {
      runs := runs[r := runs[r].(status := Failed, error := Some(error))];
    }

    method MarkWorkflowRunCancelled(r: nat)
      requires r < |runs|
      modifies this`runs
      ensures runs == old(runs)[r := old(runs)[r].(status := Cancelled)]
    {
      runs := runs[r := runs[r].(status := Cancelled)];
    }

    // ---- the workflow service's repositories -------------------------------

    method CreateSchedule(spec: Spec, promote: Option<bool>, runAt: Option<int>) returns (s: nat)
      modifies this`schedules
      ensures s == |old(schedules)| && schedules == old(schedules) + [Schedule(spec, promote, runAt, false, None)]
    {
      s := |schedules|;
      schedules := schedules + [Schedule(spec, promote, runAt, false, None)];
    }

    method CreateRecurringSchedule(spec: Spec, promote: Option<bool>, cadence: Cadence, nextRunAt: int) returns (k: nat)
      modifies this`rules
      ensures k == |old(rules)| && rules == old(rules) + [Rule(spec, promote, cadence, nextRunAt, true)]
    {
      k := |rules|;
      rules := rules + [Rule(spec, promote, cadence, nextRunAt, true)];
    }

    /** A row is found only under the workflow it belongs to. */
    method GetSchedule(workflow: string, s: nat) returns (row: Option<Schedule>)
      ensures row == if s < |schedules| && schedules[s].spec.workflow == workflow then Some(schedules[s]) else None
    {
      row := if s < |schedules| && schedules[s].spec.workflow == workflow then Some(schedules[s]) else None;
    }

    method GetRecurringSchedule(workflow: string, k: nat) returns (row: Option<Rule>)
      ensures row == if k < |rules| && rules[k].spec.workflow == workflow then Some(rules[k]) else None
    {
      row := if k < |rules| && rules[k].spec.workflow == workflow then Some(rules[k]) else None;
    }

    method GetWorkflowRun(workflow: string, r: nat) returns (row: Option<Run>)
      ensures row == if r < |runs| && runs[r].spec.workflow == workflow then Some(runs[r]) else None
    {
      row := if r < |runs| && runs[r].spec.workflow == workflow then Some(runs[r]) else None;
    }

    /** The workflow of a stage run is that of its run. */
    predicate OwnsStageRun(workflow: string, i: nat)
      reads this
    {
      i < |stageRuns| && stageRuns[i].run < |runs| && runs[stageRuns[i].run].spec.workflow == workflow
    }

    method GetStageRun(workflow: string, i: nat) returns (row: Option<StageRun>)
      ensures row == if OwnsStageRun(workflow, i) then Some(stageRuns[i]) else None
    {
      row := if OwnsStageRun(workflow, i) then Some(stageRuns[i]) else None;
    }

    method RequestScheduleCancel(s: nat)
      requires s < |schedules|
      modifies this`schedules
      ensures schedules == old(schedules)[s := old(schedules)[s].(cancelRequested := true)]
    {
      schedules := schedules[s := schedules[s].(cancelRequested := true)];
    }

    method SetEnabled(k: nat, enabled: bool)
      requires k < |rules|
      modifies this`rules
      ensures rules == old(rules)[k := old(rules)[k].(enabled := enabled)]
    {
      rules := rules[k := rules[k].(enabled := enabled)];
    }

    method MarkCancelRequested(r: nat)
      requires r < |runs|
      modifies this`runs
      ensures runs == old(runs)[r := old(runs)[r].(cancelRequested := true)]
    {
      runs := runs[r := runs[r].(cancelRequested := true)];
    }

    method MarkRunning(i: nat)
      requires i < |stageRuns|
      modifies this`stageRuns
      ensures stageRuns == old(stageRuns)[i := old(stageRuns)[i].(status := Running)]
    {
      stageRuns := stageRuns[i := stageRuns[i].(status := Running)];
    }

    method MarkCompleted(i: nat, output: nat, attempts: int)
      requires i < |stageRuns|
      modifies this`stageRuns
      ensures stageRuns == old(stageRuns)[i :=
          old(stageRuns)[i].(status := Completed, output := output, attempts := attempts)]
    {
      stageRuns := stageRuns[i := stageRuns[i].(status := Completed, output := output, attempts := attempts)];
    }

    method MarkFailed(i: nat, attempts: int)
      requires i < |stageRuns|
      modifies this`stageRuns
      ensures stageRuns == old(stageRuns)[i := old(stageRuns)[i].(status := Failed, attempts := attempts)]
    {
      stageRuns := stageRuns[i := stageRuns[i].(status := Failed, attempts := attempts)];
    }
  }

  class InMemoryRunQueue {
    var enqueued: seq<Message>

    constructor ()
      ensures enqueued == []
    {
      enqueued := [];
    }

    method EnqueueStageRun(m: Message)
      modifies this
      ensures enqueued == old(enqueued) + [m]
    {
      enqueued := enqueued + [m];
    }
  }

  /** The tables and the queue as one value. */
  ghost function View(store: InMemoryScheduleStore, queue: InMemoryRunQueue): Db
    reads store, queue
  {
    Db(store.schedules, store.rules, store.runs, store.stageRuns, queue.enqueued)
  }
}
