/** When a tick moves a quiet run on, and exactly when it leaves the run stuck. */
module Liveness {
  import opened Stages
  import opened Graphs
  import opened Tables
  import opened Ticks
  import opened Evolution
  import opened Dispatching
  import opened RunInvariants
  import opened Completion

  // ---- the situation -------------------------------------------------------

  /** Every stage run of run r has ended, and belongs to a distinct stage of the range. */
  ghost predicate Quiet(rows: seq<StageRun>, r: nat, reachable: set<string>) {
    && (forall i, j :: 0 <= i < j < |rows| && rows[i].run == r && rows[j].run == r ==> rows[i].stage != rows[j].stage)
    && forall i :: 0 <= i < |rows| && rows[i].run == r ==>
         rows[i].stage in reachable && (rows[i].status == Completed || rows[i].status == Failed)
  }

  /** An active, uncancelled, admitted run between two waves of work. */
  ghost predicate Waiting(env: Env, db: Db, r: nat) {
    r < |db.runs| &&
    var run := db.runs[r];
    var a := Admit(env, run.spec);
    Active(run.status) && !run.cancelRequested && a.Admitted? && Quiet(db.stageRuns, r, a.reachable)
  }

  /** The tick dispatched something for the run or ended it. */
  ghost predicate MovesOn(db: Db, db': Db, r: nat)
    requires r < |db'.runs|
  {
    |db.stageRuns| < |db'.stageRuns| || !Active(db'.runs[r].status)
  }

  ghost predicate IsFailed(rows: seq<StageRun>, r: nat, i: nat) {
    i < |rows| && rows[i].run == r && rows[i].status == Failed
  }

  ghost predicate FirstFailed(rows: seq<StageRun>, r: nat, i: nat) {
    IsFailed(rows, r, i) && forall k: nat :: IsFailed(rows, r, k) ==> i <= k
  }

  ghost predicate FailedAs(rows: seq<StageRun>, r: nat, k: nat, s: string) {
    IsFailed(rows, r, k) && rows[k].stage == s
  }

  /** The failure that this tick papers over: the first one, or none if nothing failed. */
  ghost predicate Papered(rows: seq<StageRun>, r: nat, policy: Policy, current: Currents, papered: Option<nat>) {
    match papered
    case None => forall i: nat :: !IsFailed(rows, r, i)
    case Some(i) => FirstFailed(rows, r, i) && policy == Fallback && rows[i].stage in current
  }

  /** A stage that failed and is not papered over. */
  ghost predicate OtherFailure(rows: seq<StageRun>, r: nat, papered: Option<nat>, s: string) {
    exists k: nat :: FailedAs(rows, r, k, s) && papered != Some(k)
  }

  /** What this run will never provide: another failure, or a stage out of range, that nobody pinned. */
  ghost predicate DeadEnd(spec: Spec, reachable: set<string>, rows: seq<StageRun>, r: nat, papered: Option<nat>,
                    s: string) {
    !Pinned(spec, s) && (s !in reachable || OtherFailure(rows, r, papered, s))
  }

  /** A stage that has not started and that nobody pinned. */
  ghost predicate Unstarted(spec: Spec, rows: seq<StageRun>, r: nat, s: string) {
    !HasRow(rows, r, s) && !Pinned(spec, s)
  }

  /** A dependency path from s, through stages that never started, down to a dead end. */
  ghost predicate BlockedAlong(g: Graph, spec: Spec, reachable: set<string>, rows: seq<StageRun>, r: nat,
                    papered: Option<nat>,
                               s: string, p: seq<string>) {
    && PathFrom(g, p, s) && |p| >= 2
    && (forall i :: 0 < i < |p| - 1 ==> Unstarted(spec, rows, r, p[i]))
    && DeadEnd(spec, reachable, rows, r, papered, p[|p| - 1])
  }

  ghost predicate Blocked(g: Graph, spec: Spec, reachable: set<string>, rows: seq<StageRun>, r: nat,
                    papered: Option<nat>, s: string) {
    exists p :: BlockedAlong(g, spec, reachable, rows, r, papered, s, p)
  }

  /** A reachable stage that the run still lacks. */
  ghost predicate Lacking(spec: Spec, reachable: set<string>, rows: seq<StageRun>, r: nat, papered: Option<nat>,
                    n: string) {
    n in reachable && !Pinned(spec, n) && (HasRow(rows, r, n) ==> OtherFailure(rows, r, papered, n))
  }

  ghost predicate ExternalsCurrent(spec: Spec, order: seq<StageDef>, reachable: set<string>, current: Currents) {
    forall s, d :: s in order && s.name in reachable && d in s.dependsOn && d !in Names(order) && !Pinned(spec, d)
                   ==> d in current
  }

  /**
   * The tick gets as far as the dispatch loop: failures are papered over, stop_after is not reached, no external
   * input is missing.
   */
  ghost predicate LoopReached(env: Env, current: Currents, db: Db, r: nat, papered: Option<nat>)
    requires Waiting(env, db, r)
  {
    var spec, rows := db.runs[r].spec, db.stageRuns;
    var a := Admit(env, spec);
    && Papered(rows, r, a.policy, current, papered)
    && (spec.stopAfter.Some? ==>
          && (papered.Some? ==> papered.value < |rows| && rows[papered.value].stage != spec.stopAfter.value)
          && forall v :: !CompletedRow(rows, r, spec.stopAfter.value, v))
    && ExternalsCurrent(spec, a.order, a.reachable, current)
  }

  /**
   * The guard of a stuck run: the dispatch loop is reached, some stage is lacking, and every stage that did
   * not start is blocked by a dead end.
   */
  ghost predicate StuckOn(env: Env, current: Currents, db: Db, r: nat, papered: Option<nat>)
    requires Waiting(env, db, r)
  {
    var spec, rows := db.runs[r].spec, db.stageRuns;
    var a := Admit(env, spec);
    && LoopReached(env, current, db, r, papered)
    && (exists n :: Lacking(spec, a.reachable, rows, r, papered, n))
    && forall s :: s in a.reachable && !HasRow(rows, r, s)
                   ==> Blocked(ByName(a.order), spec, a.reachable, rows, r, papered, s)
  }

  ghost predicate Stuck(env: Env, current: Currents, db: Db, r: nat)
    requires Waiting(env, db, r)
  {
    exists papered :: StuckOn(env, current, db, r, papered)
  }

  // ---- the first failure ---------------------------------------------------

  lemma {:induction false} FailedAscend(records: seq<Record>)
    requires forall i, j :: 0 <= i < j < |records| ==> records[i].id < records[j].id
    ensures forall i, j :: 0 <= i < j < |FailedOf(records)| ==> FailedOf(records)[i].id < FailedOf(records)[j].id
  {
    if records != [] {
      var init := records[..|records| - 1];
      FailedAscend(init);
      forall x | x in FailedOf(init) ensures x.id < records[|records| - 1].id { FailedMembers(init, x); }
    }
  }

  lemma {:induction false} FirstOfFailed(rows: seq<StageRun>, r: nat)
    ensures var failed := FailedOf(Records(rows, r));
            if failed == [] then forall i: nat :: !IsFailed(rows, r, i)
            else FirstFailed(rows, r, failed[0].id) && failed[0].row == rows[failed[0].id]
  {
    var records := Records(rows, r);
    var failed := FailedOf(records);
    RecordsAscend(rows, r);
    FailedAscend(records);
    forall i: nat | IsFailed(rows, r, i) ensures failed != [] && failed[0].id <= i {
      RecordsMembers(rows, r, Record(i, rows[i]));
      FailedMembers(records, Record(i, rows[i]));
      var k :| 0 <= k < |failed| && failed[k] == Record(i, rows[i]);
    }
    if failed != [] {
      FailedMembers(records, failed[0]);
      RecordsMembers(rows, r, failed[0]);
    }
  }

  // ---- which stages are done -----------------------------------------------

  function PaperedId(fallback: Option<Record>): Option<nat> {
    if fallback.Some? then Some(fallback.value.id) else None
  }

  lemma {:induction false} DoneOfStage(env: Env, current: Currents, db: Db, r: nat, fallback: Option<Record>,
                    done: map<string, nat>, n: string)
    requires Waiting(env, db, r)
    requires var a := Admit(env, db.runs[r].spec);
        GoesOn(env, current, db, r, a.order, a.reachable, fallback, done) && n in Names(a.order)
    ensures n in done <==> || Pinned(db.runs[r].spec, n)
                           || (exists v :: CompletedRow(db.stageRuns, r, n, v))
                           || (fallback.Some? && fallback.value.row.stage == n)
  {
    var spec := db.runs[r].spec;
    var a := Admit(env, spec);
    hide Admit, Judge, Quiet, CompletedRow;
    DoneSources(spec, db.stageRuns, r, a.order, a.reachable, a.policy, current, n);
    DoneContains(spec, db.stageRuns, r, a.order, a.reachable, a.policy, current, n);
  }

  lemma {:induction false} FallbackIsFirst(env: Env, current: Currents, db: Db, r: nat, fallback: Option<Record>,
                    done: map<string, nat>)
    requires Waiting(env, db, r)
    requires var a := Admit(env, db.runs[r].spec); GoesOn(env, current, db, r, a.order, a.reachable, fallback, done)
    ensures Papered(db.stageRuns, r, Admit(env, db.runs[r].spec).policy, current, PaperedId(fallback))
    ensures fallback.Some? ==> fallback.value.id < |db.stageRuns|
                               && fallback.value.row == db.stageRuns[fallback.value.id]
  {
    hide Admit, Waiting;
    FirstOfFailed(db.stageRuns, r);
  }

  /** Rows of the run that concern stage n. */
  lemma {:induction false} RowsOfStage(rows: seq<StageRun>, r: nat, reachable: set<string>, n: string)
    requires Quiet(rows, r, reachable)
    ensures n !in reachable ==> !HasRow(rows, r, n)
    ensures forall k: nat, v :: FailedAs(rows, r, k, n) ==> !CompletedRow(rows, r, n, v)
    ensures forall k: nat, j: nat :: FailedAs(rows, r, k, n) && FailedAs(rows, r, j, n) ==> j == k
    ensures HasRow(rows, r, n)
        ==> (exists v :: CompletedRow(rows, r, n, v)) || (exists k: nat :: FailedAs(rows, r, k, n))
    ensures forall v :: CompletedRow(rows, r, n, v) ==> HasRow(rows, r, n)
  {
    if HasRow(rows, r, n) {
      var i :| 0 <= i < |rows| && rows[i].run == r && rows[i].stage == n;
      assert rows[i].status == Completed ==> CompletedRow(rows, r, n, rows[i].output);
      assert rows[i].status == Failed ==> FailedAs(rows, r, i, n);
    }
  }

  /** Which registered names are not done: dead ends, and stages that did not start. */
  lemma {:induction false} NotDoneIff(env: Env, current: Currents, db: Db, r: nat, fallback: Option<Record>,
                    done: map<string, nat>, n: string)
    requires Waiting(env, db, r)
    requires var a := Admit(env, db.runs[r].spec);
        GoesOn(env, current, db, r, a.order, a.reachable, fallback, done) && n in Names(a.order)
    ensures var spec, rows := db.runs[r].spec, db.stageRuns;
            n !in done <==> DeadEnd(spec, Admit(env, spec).reachable, rows, r, PaperedId(fallback), n)
                            || Unstarted(spec, rows, r, n)
  {
    var spec, rows := db.runs[r].spec, db.stageRuns;
    DoneOfStage(env, current, db, r, fallback, done, n);
    FallbackIsFirst(env, current, db, r, fallback, done);
    RowsOfStage(rows, r, Admit(env, spec).reachable, n);
    hide Admit, GoesOn, Waiting, CompletedRow, Quiet;
    NotDoneCases(spec, Admit(env, spec).reachable, rows, r, Admit(env, spec).policy, current, fallback, n);
  }

  lemma {:induction false} NotDoneCases(spec: Spec, reachable: set<string>, rows: seq<StageRun>, r: nat, policy: Policy,
                    current: Currents,
                                        fallback: Option<Record>, n: string)
    requires Papered(rows, r, policy, current, PaperedId(fallback))
    requires fallback.Some? ==> fallback.value.id < |rows| && fallback.value.row == rows[fallback.value.id]
    requires n !in reachable ==> !HasRow(rows, r, n)
    requires forall k: nat, v :: FailedAs(rows, r, k, n) ==> !CompletedRow(rows, r, n, v)
    requires forall k: nat, j: nat :: FailedAs(rows, r, k, n) && FailedAs(rows, r, j, n) ==> j == k
    requires HasRow(rows, r, n)
        ==> (exists v :: CompletedRow(rows, r, n, v)) || (exists k: nat :: FailedAs(rows, r, k, n))
    requires forall v :: CompletedRow(rows, r, n, v) ==> HasRow(rows, r, n)
    ensures !(|| Pinned(spec, n) || (exists v :: CompletedRow(rows, r, n, v))
        || (fallback.Some? && fallback.value.row.stage == n))
       <==> DeadEnd(spec, reachable, rows, r, PaperedId(fallback), n) || Unstarted(spec, rows, r, n)
  {
    if fallback.Some? && fallback.value.row.stage == n {
      assert FailedAs(rows, r, fallback.value.id, n);
      FailedHasRow(rows, r, fallback.value.id, n);
    }
    if k: nat :| FailedAs(rows, r, k, n) { FailedHasRow(rows, r, k, n); }
    hide CompletedRow, HasRow, FailedAs, FirstFailed;
    if HasRow(rows, r, n) && !exists v :: CompletedRow(rows, r, n, v) {
      var k: nat :| FailedAs(rows, r, k, n);
      assert PaperedId(fallback) != Some(k) ==> OtherFailure(rows, r, PaperedId(fallback), n);
      assert PaperedId(fallback) == Some(k) ==> fallback.value.row.stage == n by { PaperedStage(rows, r, k, n); }
    }
  }

  lemma {:induction false} FailedHasRow(rows: seq<StageRun>, r: nat, k: nat, n: string)
    requires FailedAs(rows, r, k, n)
    ensures HasRow(rows, r, n)
  {
  }

  lemma {:induction false} PaperedStage(rows: seq<StageRun>, r: nat, k: nat, n: string)
    requires FailedAs(rows, r, k, n)
    ensures k < |rows| && rows[k].stage == n
  {
  }

  // ---- no ready stage: everything missing is blocked ----------------------

  /** With nothing ready, a stage that did not start is blocked. */
  lemma {:induction false} TraceBlock(env: Env, current: Currents, db: Db, r: nat, fallback: Option<Record>,
                    done: map<string, nat>, n: string)
    requires Waiting(env, db, r)
    requires var a := Admit(env, db.runs[r].spec);
        GoesOn(env, current, db, r, a.order, a.reachable, fallback, done) && n in a.reachable
    requires var a := Admit(env, db.runs[r].spec);
        Ready(a.order, a.reachable, Started(Records(db.stageRuns, r)), done) == []
    requires !HasRow(db.stageRuns, r, n) && n in Names(Admit(env, db.runs[r].spec).order)
        && IsOrder(Admit(env, db.runs[r].spec).order)
    ensures var a := Admit(env, db.runs[r].spec);
            Blocked(ByName(a.order), db.runs[r].spec, a.reachable, db.stageRuns, r, PaperedId(fallback), n)
    decreases Rank(Admit(env, db.runs[r].spec).order, n)
  {
    var spec, rows := db.runs[r].spec, db.stageRuns;
    var a := Admit(env, spec);
    hide Admit, GoesOn, Judge, Quiet, DeadEnd;
    var d := MissingDependency(env, current, db, r, fallback, done, n);
    NotDoneIff(env, current, db, r, fallback, done, d);
    if !DeadEnd(spec, a.reachable, rows, r, PaperedId(fallback), d) {
      StartsOrDead(spec, a.reachable, rows, r, PaperedId(fallback), d);
      EdgeDecreasesRank(a.order, n, d);
      TraceBlock(env, current, db, r, fallback, done, d);
    }
    ExtendBlock(ByName(a.order), spec, a.reachable, rows, r, PaperedId(fallback), n, d);
  }

  lemma {:induction false} StartsOrDead(spec: Spec, reachable: set<string>, rows: seq<StageRun>, r: nat,
                    papered: Option<nat>, d: string)
    requires !DeadEnd(spec, reachable, rows, r, papered, d) && Unstarted(spec, rows, r, d)
    ensures d in reachable && !HasRow(rows, r, d)
  {
  }

  lemma {:induction false} ExtendBlock(g: Graph, spec: Spec, reachable: set<string>, rows: seq<StageRun>, r: nat,
                    papered: Option<nat>, n: string, d: string)
    requires Edge(g, n, d)
    requires DeadEnd(spec, reachable, rows, r, papered, d)
        || (Unstarted(spec, rows, r, d) && Blocked(g, spec, reachable, rows, r, papered, d))
    ensures Blocked(g, spec, reachable, rows, r, papered, n)
  {
    hide Unstarted, DeadEnd;
    var p := [d];
    if !DeadEnd(spec, reachable, rows, r, papered, d) {
      p :| BlockedAlong(g, spec, reachable, rows, r, papered, d, p);
    }
    PathExtendsLeft(g, n, p);
    var q := [n] + p;
    assert forall i :: 0 < i < |q| ==> q[i] == p[i - 1];
    assert BlockedAlong(g, spec, reachable, rows, r, papered, n, q);
  }

  /** A stage that is neither started nor ready lacks a registered dependency. */
  lemma {:induction false} MissingDependency(env: Env, current: Currents, db: Db, r: nat, fallback: Option<Record>,
                    done: map<string, nat>, n: string) returns (d: string)
    requires Waiting(env, db, r)
    requires var a := Admit(env, db.runs[r].spec);
        GoesOn(env, current, db, r, a.order, a.reachable, fallback, done) && n in a.reachable
    requires var a := Admit(env, db.runs[r].spec);
        Ready(a.order, a.reachable, Started(Records(db.stageRuns, r)), done) == []
    requires !HasRow(db.stageRuns, r, n)
    ensures var a := Admit(env, db.runs[r].spec); Edge(ByName(a.order), n, d) && d in Names(a.order) && d !in done
  {
    var spec := db.runs[r].spec;
    var a := Admit(env, spec);
    hide Admit, Judge, Quiet;
    AdmittedOrder(env, spec);
    ByNameOfDistinct(a.order);
    var i :| 0 <= i < |a.order| && a.order[i].name == n;
    var s := a.order[i];
    StartedIsHasRow(db.stageRuns, r, n);
    assert s in a.order && s !in Ready(a.order, a.reachable, Started(Records(db.stageRuns, r)), done);
    d :| d in s.dependsOn && d !in done;
    DoneContains(spec, db.stageRuns, r, a.order, a.reachable, a.policy, current, d);
  }

  // ---- the characterisation ------------------------------------------------

  lemma {:induction false} GoingOn(env: Env, current: Currents, db: Db, r: nat) returns (fallback: Option<Record>,
                    done: map<string, nat>)
    requires Waiting(env, db, r) && Active(ProgressRun(env, current, db, r).runs[r].status)
    ensures var a := Admit(env, db.runs[r].spec); GoesOn(env, current, db, r, a.order, a.reachable, fallback, done)
  {
    hide Judge, Quiet;
    var a := Admit(env, db.runs[r].spec);
    var v := Judge(db.runs[r].spec, Records(db.stageRuns, r), a.order, a.reachable, a.policy, current);
    fallback := v.fallback;
    done := if v.outcome.Go? then v.outcome.done else map[];
  }

  /** What the checks before the dispatch loop have established when it is reached. */
  lemma {:induction false} ConcludesGo(spec: Spec, order: seq<StageDef>, reachable: set<string>,
                    before: map<string, nat>, current: Currents, s: StageDef, d: string)
    requires Conclude(spec, order, reachable, before, current).Go?
    ensures spec.stopAfter.Some? ==> spec.stopAfter.value !in before
    ensures s in order && s.name in reachable && d in s.dependsOn && d !in Names(order)
            && !Pinned(spec, d) && d !in before
            ==> d in current
  {
    var pinned := if spec.startFrom.Some? then before + spec.pins else before;
    assert s in order && s.name in reachable && d in s.dependsOn && d !in Names(order) && d !in pinned ==>
             d in ExternalDeps(order, reachable, pinned);
  }

  /** `done` as it stands right after the fallback. */
  lemma {:induction false} JudgedGo(spec: Spec, rows: seq<StageRun>, r: nat, order: seq<StageDef>,
                    reachable: set<string>, policy: Policy, current: Currents)
    returns (before: map<string, nat>)
    requires Judge(spec, Records(rows, r), order, reachable, policy, current).outcome.Go?
    ensures Conclude(spec, order, reachable, before, current).Go?
    ensures var fallback, outputs :=
        Judge(spec, Records(rows, r), order, reachable, policy, current).fallback, Outputs(Records(rows, r));
            before.Keys == outputs.Keys + if fallback.Some? then {fallback.value.row.stage} else {}
  {
    hide Conclude, Outputs;
    var v, outputs := Judge(spec, Records(rows, r), order, reachable, policy, current), Outputs(Records(rows, r));
    before := if v.fallback.Some? then outputs[v.fallback.value.row.stage := current[v.fallback.value.row.stage]]
        else outputs;
  }

  lemma {:induction false} GoExternals(env: Env, current: Currents, db: Db, r: nat, fallback: Option<Record>,
                    done: map<string, nat>, before: map<string, nat>)
    requires Waiting(env, db, r)
    requires var a := Admit(env, db.runs[r].spec);
             && GoesOn(env, current, db, r, a.order, a.reachable, fallback, done)
             && Conclude(db.runs[r].spec, a.order, a.reachable, before, current).Go?
             && before.Keys == Outputs(Records(db.stageRuns, r)).Keys + if fallback.Some?
                 then {fallback.value.row.stage} else {}
    ensures ExternalsCurrent(db.runs[r].spec, Admit(env, db.runs[r].spec).order, Admit(env, db.runs[r].spec).reachable,
        current)
  {
    var spec, rows := db.runs[r].spec, db.stageRuns;
    var a := Admit(env, spec);
    FallbackRecord(spec, rows, r, a.order, a.reachable, a.policy, current);
    AdmittedOrder(env, spec);
    hide Admit, Judge, Conclude, WellFormedRange, Outputs, OncePerStage, IsOrder;
    assert fallback.Some? ==> fallback.value.row.stage in a.reachable;
    forall s, d | s in a.order && s.name in a.reachable && d in s.dependsOn && d !in Names(a.order) && !Pinned(spec, d)
      ensures d in current
    {
      ExternalNotDone(env, db, r, d);
      ConcludesGo(spec, a.order, a.reachable, before, current, s, d);
    }
  }

  /** What holds besides when the dispatch loop is reached. */
  lemma {:induction false} GoFacts(env: Env, current: Currents, db: Db, r: nat, fallback: Option<Record>,
                    done: map<string, nat>)
    requires Waiting(env, db, r)
    requires var a := Admit(env, db.runs[r].spec); GoesOn(env, current, db, r, a.order, a.reachable, fallback, done)
    ensures var spec := db.runs[r].spec;
            && ExternalsCurrent(spec, Admit(env, spec).order, Admit(env, spec).reachable, current)
            && (spec.stopAfter.Some? && fallback.Some? ==> fallback.value.row.stage != spec.stopAfter.value)
            && (spec.stopAfter.Some? ==> forall v :: !CompletedRow(db.stageRuns, r, spec.stopAfter.value, v))
  {
    var spec, rows := db.runs[r].spec, db.stageRuns;
    var a := Admit(env, spec);
    hide Admit, Judge, Conclude, Waiting, Outputs, ExternalsCurrent, CompletedRow;
    var before := JudgedGo(spec, rows, r, a.order, a.reachable, a.policy, current);
    GoExternals(env, current, db, r, fallback, done, before);
    hide GoesOn;
    if spec.stopAfter.Some? {
      var stop := spec.stopAfter.value;
      ConcludesGo(spec, a.order, a.reachable, before, current, StageDef("", [], 0), "");
      forall v ensures !CompletedRow(rows, r, stop, v) {
        if CompletedRow(rows, r, stop, v) { CompletedIsOutput(rows, r, stop, v); }
      }
    }
  }

  lemma {:induction false} CompletedIsOutput(rows: seq<StageRun>, r: nat, n: string, v: nat)
    requires CompletedRow(rows, r, n, v)
    ensures n in Outputs(Records(rows, r))
  {
    var i :| 0 <= i < |rows| && rows[i].run == r && rows[i].stage == n && rows[i].status == Completed
        && rows[i].output == v;
    RecordsMembers(rows, r, Record(i, rows[i]));
    OutputsMembers(Records(rows, r), n);
  }

  lemma {:induction false} ExternalNotDone(env: Env, db: Db, r: nat, d: string)
    requires Waiting(env, db, r) && d !in Names(Admit(env, db.runs[r].spec).order)
    ensures d !in Outputs(Records(db.stageRuns, r))
  {
    hide Admit;
    AdmittedOrder(env, db.runs[r].spec);
    OutputIsCompleted(db.stageRuns, r, d);
  }

  lemma {:induction false} NothingReady(db: Db, db': Db, r: nat, fallback: Option<Record>, ready: seq<StageDef>,
                    done: map<string, nat>, complete: bool)
    requires r < |db.runs| && r < |db'.runs| && AllIn(ready, done) && !MovesOn(db, db', r)
    requires db'.stageRuns == MarkFallback(db, fallback).stageRuns + NewRows(r, db.runs[r].promote, ready, done)
    requires db'.runs[r].status == StatusAfterDispatch(db.runs[r].status, ready != [], complete)
    ensures ready == [] && !complete
  {
  }

  /** A tick that leaves a run where it is found nothing ready and something not done. */
  lemma {:induction false} NotMoving(env: Env, current: Currents, db: Db, r: nat) returns (fallback: Option<Record>,
                    done: map<string, nat>, n: string)
    requires Waiting(env, db, r) && !MovesOn(db, ProgressRun(env, current, db, r), r)
    ensures var a := Admit(env, db.runs[r].spec);
            && IsOrder(a.order) && a.reachable <= Names(a.order)
            && GoesOn(env, current, db, r, a.order, a.reachable, fallback, done)
            && Ready(a.order, a.reachable, Started(Records(db.stageRuns, r)), done) == []
            && n in a.reachable && n !in done
  {
    var a := Admit(env, db.runs[r].spec);
    fallback, done := GoingOn(env, current, db, r);
    assert a.Admitted? && Active(db.runs[r].status);
    hide *;
    DispatchExactly(env, current, db, r, a.order, a.reachable, fallback, done);
    AdmittedOrder(env, db.runs[r].spec);
    NothingReady(db, ProgressRun(env, current, db, r), r, fallback,
        Ready(a.order, a.reachable, Started(Records(db.stageRuns, r)), done), done, a.reachable <= done.Keys);
    n :| n in a.reachable && n !in done;
  }

  lemma {:induction false} LacksWhatIsNotDone(env: Env, current: Currents, db: Db, r: nat, fallback: Option<Record>,
                    done: map<string, nat>, n: string)
    requires Waiting(env, db, r)
    requires var a := Admit(env, db.runs[r].spec);
             GoesOn(env, current, db, r, a.order, a.reachable, fallback, done) && n in a.reachable
                 && n in Names(a.order)
    ensures n !in done <==> Lacking(db.runs[r].spec, Admit(env, db.runs[r].spec).reachable, db.stageRuns, r,
        PaperedId(fallback), n)
  {
    hide Admit, GoesOn, Waiting, HasRow, OtherFailure;
    NotDoneIff(env, current, db, r, fallback, done, n);
    OtherHasRow(db.stageRuns, r, PaperedId(fallback), n);
  }

  lemma {:induction false} OtherHasRow(rows: seq<StageRun>, r: nat, papered: Option<nat>, n: string)
    ensures OtherFailure(rows, r, papered, n) ==> HasRow(rows, r, n)
  {
  }

  /** A tick that neither dispatches nor ends the run has met the guard. */
  lemma {:induction false} NotMovingIsStuck(env: Env, current: Currents, db: Db, r: nat)
    requires Waiting(env, db, r) && !MovesOn(db, ProgressRun(env, current, db, r), r)
    ensures Stuck(env, current, db, r)
  {
    var spec, rows := db.runs[r].spec, db.stageRuns;
    var a := Admit(env, spec);
    var fallback, done, n := NotMoving(env, current, db, r);
    assert a.Admitted?;
    hide *;
    LacksWhatIsNotDone(env, current, db, r, fallback, done, n);
    forall s | s in a.reachable && !HasRow(rows, r, s)
      ensures Blocked(ByName(a.order), spec, a.reachable, rows, r, PaperedId(fallback), s)
    {
      TraceBlock(env, current, db, r, fallback, done, s);
    }
    GoReachesLoop(env, current, db, r, fallback, done);
    StuckOnIntro(env, current, db, r, PaperedId(fallback), n);
  }

  lemma {:induction false} GoReachesLoop(env: Env, current: Currents, db: Db, r: nat, fallback: Option<Record>,
                    done: map<string, nat>)
    requires Waiting(env, db, r)
    requires var a := Admit(env, db.runs[r].spec); GoesOn(env, current, db, r, a.order, a.reachable, fallback, done)
    ensures LoopReached(env, current, db, r, PaperedId(fallback))
  {
    hide Admit, GoesOn, Waiting, Papered;
    FallbackIsFirst(env, current, db, r, fallback, done);
    GoFacts(env, current, db, r, fallback, done);
  }

  lemma {:induction false} StuckOnIntro(env: Env, current: Currents, db: Db, r: nat, papered: Option<nat>, n: string)
    requires Waiting(env, db, r) && LoopReached(env, current, db, r, papered)
    requires var a := Admit(env, db.runs[r].spec);
             && Lacking(db.runs[r].spec, a.reachable, db.stageRuns, r, papered, n)
             && forall s :: s in a.reachable && !HasRow(db.stageRuns, r, s) ==>
                  Blocked(ByName(a.order), db.runs[r].spec, a.reachable, db.stageRuns, r, papered, s)
    ensures Stuck(env, current, db, r)
  {
    hide Admit, Waiting, LoopReached, Blocked, HasRow, Lacking;
    assert StuckOn(env, current, db, r, papered);
  }

  lemma {:induction false} StuckGoesOn(env: Env, current: Currents, db: Db, r: nat, papered: Option<nat>)
    returns (fallback: Option<Record>, done: map<string, nat>)
    requires Waiting(env, db, r) && LoopReached(env, current, db, r, papered)
    ensures var a := Admit(env, db.runs[r].spec); GoesOn(env, current, db, r, a.order, a.reachable, fallback, done)
    ensures PaperedId(fallback) == papered
  {
    var spec, rows, records := db.runs[r].spec, db.stageRuns, Records(db.stageRuns, r);
    var a := Admit(env, spec);
    hide Admit, Quiet;
    FirstOfFailed(rows, r);
    if papered.Some? {
      assert FailedOf(records) != [] && FailedOf(records)[0].id == papered.value;
    } else {
      assert FailedOf(records) == [];
    }
    if spec.stopAfter.Some? { OutputIsCompleted(rows, r, spec.stopAfter.value); }
    var v := Judge(spec, records, a.order, a.reachable, a.policy, current);
    assert v.outcome.Go?;
    fallback, done := v.fallback, v.outcome.done;
  }

  /** A blocked stage has a dependency that is a dead end or did not start. */
  lemma {:induction false} BlockedDependency(g: Graph, spec: Spec, reachable: set<string>, rows: seq<StageRun>, r: nat,
                    papered: Option<nat>, s: string)
    returns (d: string)
    requires Blocked(g, spec, reachable, rows, r, papered, s)
    ensures Edge(g, s, d) && (DeadEnd(spec, reachable, rows, r, papered, d) || Unstarted(spec, rows, r, d))
  {
    hide DeadEnd, Unstarted;
    var p :| BlockedAlong(g, spec, reachable, rows, r, papered, s, p);
    assert Edge(g, p[0], p[0 + 1]);
    d := p[1];
  }

  lemma {:induction false} BlockedNotReady(env: Env, current: Currents, db: Db, r: nat, fallback: Option<Record>,
                    done: map<string, nat>, s: StageDef)
    requires Waiting(env, db, r)
    requires var a := Admit(env, db.runs[r].spec);
             && GoesOn(env, current, db, r, a.order, a.reachable, fallback, done) && s in a.order
                 && DistinctNames(a.order)
             && Blocked(ByName(a.order), db.runs[r].spec, a.reachable, db.stageRuns, r, PaperedId(fallback), s.name)
    ensures exists d :: d in s.dependsOn && d !in done
  {
    var a := Admit(env, db.runs[r].spec);
    var d := BlockedDependency(ByName(a.order), db.runs[r].spec, a.reachable, db.stageRuns, r, PaperedId(fallback),
        s.name);
    EdgeOf(a.order, s, d);
    hide *;
    NotDoneIff(env, current, db, r, fallback, done, d);
  }

  lemma {:induction false} EdgeOf(order: seq<StageDef>, s: StageDef, d: string)
    requires DistinctNames(order) && s in order && Edge(ByName(order), s.name, d)
    ensures d in s.dependsOn && d in Names(order)
  {
    ByNameOfDistinct(order);
    var i :| 0 <= i < |order| && order[i] == s;
  }

  /** Hence a stuck run has nothing ready. */
  lemma {:induction false} StuckNotReady(env: Env, current: Currents, db: Db, r: nat, fallback: Option<Record>,
                    done: map<string, nat>)
    requires Waiting(env, db, r) && StuckOn(env, current, db, r, PaperedId(fallback))
    requires var a := Admit(env, db.runs[r].spec);
        GoesOn(env, current, db, r, a.order, a.reachable, fallback, done) && DistinctNames(a.order)
    ensures var a := Admit(env, db.runs[r].spec);
        Ready(a.order, a.reachable, Started(Records(db.stageRuns, r)), done) == []
  {
    var rows := db.stageRuns;
    var a := Admit(env, db.runs[r].spec);
    hide Admit, Waiting, GoesOn, Blocked, LoopReached, Lacking, DistinctNames;
    var ready := Ready(a.order, a.reachable, Started(Records(rows, r)), done);
    if ready != [] {
      var s := ready[0];
      assert s in ready;
      StartedIsHasRow(rows, r, s.name);
      BlockedNotReady(env, current, db, r, fallback, done, s);
      assert false;
    }
  }

  lemma {:induction false} StuckDoesNotMove(env: Env, current: Currents, db: Db, r: nat)
    requires Waiting(env, db, r) && Stuck(env, current, db, r)
    ensures !MovesOn(db, ProgressRun(env, current, db, r), r)
  {
    var spec, rows := db.runs[r].spec, db.stageRuns;
    var a := Admit(env, spec);
    assert Active(db.runs[r].status) && a.Admitted?;
    var papered :| StuckOn(env, current, db, r, papered);
    var n :| Lacking(spec, a.reachable, rows, r, papered, n);
    hide Admit, Waiting, GoesOn, StuckOn, ProgressRun, LoopReached, Lacking;
    AdmittedOrder(env, spec);
    var fallback, done := StuckGoesOn(env, current, db, r, papered);
    StuckNotReady(env, current, db, r, fallback, done);
    DispatchExactly(env, current, db, r, a.order, a.reachable, fallback, done);
    LackingReachable(spec, a.reachable, rows, r, papered, n);
    LacksWhatIsNotDone(env, current, db, r, fallback, done, n);
    assert |MarkFallback(db, fallback).stageRuns| == |db.stageRuns|;
  }

  lemma {:induction false} LackingReachable(spec: Spec, reachable: set<string>, rows: seq<StageRun>, r: nat,
                    papered: Option<nat>, n: string)
    requires Lacking(spec, reachable, rows, r, papered, n)
    ensures n in reachable
  {
  }

  /** Exactly when a tick leaves a quiet run where it is, whatever was requested. */
  lemma {:induction false} StuckExactly(env: Env, current: Currents, db: Db, r: nat)
    requires Waiting(env, db, r)
    ensures MovesOn(db, ProgressRun(env, current, db, r), r) <==> !Stuck(env, current, db, r)
  {
    if MovesOn(db, ProgressRun(env, current, db, r), r) {
      if Stuck(env, current, db, r) { StuckDoesNotMove(env, current, db, r); }
    } else {
      NotMovingIsStuck(env, current, db, r);
    }
  }

  // ---- what cannot be stuck ------------------------------------------------

  /** A sensible request with at most one failed stage run. */
  ghost predicate Sensible(env: Env, db: Db, r: nat)
    requires Waiting(env, db, r)
  {
    && WellFormedRange(Admit(env, db.runs[r].spec).order, Admit(env, db.runs[r].spec).reachable, db.runs[r].spec)
    && forall i: nat, k: nat :: IsFailed(db.stageRuns, r, i) && IsFailed(db.stageRuns, r, k) ==> i == k
  }

  lemma {:induction false} NoOtherFailure(rows: seq<StageRun>, r: nat, policy: Policy, current: Currents,
                    papered: Option<nat>, s: string)
    requires Papered(rows, r, policy, current, papered)
    requires forall i: nat, k: nat :: IsFailed(rows, r, i) && IsFailed(rows, r, k) ==> i == k
    ensures !OtherFailure(rows, r, papered, s)
  {
    assert forall k: nat :: IsFailed(rows, r, k) ==> papered == Some(k);
  }

  lemma {:induction false} BlockedEndsOutside(order: seq<StageDef>, spec: Spec, reachable: set<string>,
                    rows: seq<StageRun>, r: nat,
                                              papered: Option<nat>, s: string, p: seq<string>)
    requires DistinctNames(order) && WellFormedRange(order, reachable, spec) && s in reachable
    requires BlockedAlong(ByName(order), spec, reachable, rows, r, papered, s, p)
    ensures forall i :: 0 <= i < |p| ==> p[i] in reachable
  {
    hide DeadEnd, HasRow, ByName;
    ByNameOfDistinct(order);
    for k := 0 to |p|
      invariant forall i :: 0 <= i < k ==> p[i] in reachable
    {
      if k > 0 {
        assert Edge(ByName(order), p[k - 1], p[k - 1 + 1]);
        assert !Pinned(spec, p[k]) by { LastUnpinned(spec, reachable, rows, r, papered, p[|p| - 1]); }
        EdgeStays(order, spec, reachable, p[k - 1], p[k]);
      }
    }
  }

  lemma {:induction false} LastUnpinned(spec: Spec, reachable: set<string>, rows: seq<StageRun>, r: nat,
                    papered: Option<nat>, s: string)
    ensures DeadEnd(spec, reachable, rows, r, papered, s) ==> !Pinned(spec, s)
  {
  }

  lemma {:induction false} EdgeStays(order: seq<StageDef>, spec: Spec, reachable: set<string>, a: string, b: string)
    requires DistinctNames(order) && WellFormedRange(order, reachable, spec) && a in reachable
    requires Edge(ByName(order), a, b) && !Pinned(spec, b)
    ensures b in reachable
  {
    ByNameOfDistinct(order);
    var i :| 0 <= i < |order| && order[i].name == a;
    assert order[i] in order;
  }

  lemma {:induction false} SensibleNotStuck(env: Env, current: Currents, db: Db, r: nat, papered: Option<nat>)
    requires Waiting(env, db, r) && Sensible(env, db, r)
    ensures !StuckOn(env, current, db, r, papered)
  {
    var spec, rows := db.runs[r].spec, db.stageRuns;
    var a := Admit(env, spec);
    AdmittedOrder(env, spec);
    if StuckOn(env, current, db, r, papered) {
      assert Papered(rows, r, a.policy, current, papered);
      hide Admit, Waiting, Papered, WellFormedRange, LoopReached;
      var n :| Lacking(spec, a.reachable, rows, r, papered, n);
      NoOtherFailure(rows, r, a.policy, current, papered, n);
      var p :| BlockedAlong(ByName(a.order), spec, a.reachable, rows, r, papered, n, p);
      BlockedEndsOutside(a.order, spec, a.reachable, rows, r, papered, n, p);
      NoOtherFailure(rows, r, a.policy, current, papered, p[|p| - 1]);
      assert false;
    }
  }

  /**
   * No stuck run: with a sensible range and at most one failed stage run, a quiet run is taken further or ended by
   * every tick.
   */
  lemma {:induction false} NoStuckRun(env: Env, current: Currents, db: Db, r: nat)
    requires Waiting(env, db, r) && Sensible(env, db, r)
    ensures MovesOn(db, ProgressRun(env, current, db, r), r)
  {
    StuckExactly(env, current, db, r);
    hide Waiting, Sensible, StuckOn, MovesOn;
    forall papered ensures !StuckOn(env, current, db, r, papered) { SensibleNotStuck(env, current, db, r, papered); }
  }

  // ---- a stuck run stays stuck --------------------------------------------

  /** For run r nothing differs but fallback marks; other runs may have done anything. */
  ghost predicate SameButMarks(db: Db, db': Db, r: nat) {
    && r < |db.runs| && r < |db'.runs| && Active(db'.runs[r].status) && !db'.runs[r].cancelRequested
    && db'.runs[r].spec == db.runs[r].spec
    && |db.stageRuns| <= |db'.stageRuns|
    && (forall i :: 0 <= i < |db.stageRuns| ==> db'.stageRuns[i].run == db.stageRuns[i].run)
    && (forall i :: 0 <= i < |db.stageRuns| && db.stageRuns[i].run == r
                    ==> MarkedRow(db.stageRuns[i], db'.stageRuns[i]))
    && forall i :: |db.stageRuns| <= i < |db'.stageRuns| ==> db'.stageRuns[i].run != r
  }

  lemma {:induction false} SameWaiting(env: Env, db: Db, db': Db, r: nat)
    requires Waiting(env, db, r) && SameButMarks(db, db', r)
    ensures Waiting(env, db', r)
  {
    hide Admit;
    var rows, rows', reachable := db.stageRuns, db'.stageRuns, Admit(env, db.runs[r].spec).reachable;
    forall i | 0 <= i < |rows'| && rows'[i].run == r
      ensures i < |rows| && rows'[i].stage == rows[i].stage && rows'[i].status == rows[i].status
    {}
  }

  lemma {:induction false} SameFailures(db: Db, db': Db, r: nat, k: nat, s: string, v: nat)
    requires SameButMarks(db, db', r)
    ensures IsFailed(db'.stageRuns, r, k) == IsFailed(db.stageRuns, r, k)
    ensures IsFailed(db.stageRuns, r, k) ==> db'.stageRuns[k].stage == db.stageRuns[k].stage
    ensures FailedAs(db'.stageRuns, r, k, s) == FailedAs(db.stageRuns, r, k, s)
    ensures HasRow(db'.stageRuns, r, s) == HasRow(db.stageRuns, r, s)
    ensures CompletedRow(db'.stageRuns, r, s, v) == CompletedRow(db.stageRuns, r, s, v)
  {
    var rows, rows' := db.stageRuns, db'.stageRuns;
    forall i ensures 0 <= i < |rows'| && rows'[i].run == r ==>
                       i < |rows| && rows[i].run == r && rows'[i].stage == rows[i].stage
                           && rows'[i].status == rows[i].status && rows'[i].output == rows[i].output
    {}
    if HasRow(rows, r, s) {
      var i :| 0 <= i < |rows| && rows[i].run == r && rows[i].stage == s;
      assert rows'[i].run == r && rows'[i].stage == s;
    }
    if CompletedRow(rows, r, s, v) {
      var i :| 0 <= i < |rows| && rows[i].run == r && rows[i].stage == s && rows[i].status == Completed
          && rows[i].output == v;
      assert rows'[i].run == r && rows'[i].stage == s && rows'[i].status == Completed;
    }
  }

  lemma {:induction false} SameOtherFailure(db: Db, db': Db, r: nat, papered: Option<nat>, s: string)
    requires SameButMarks(db, db', r)
    ensures OtherFailure(db'.stageRuns, r, papered, s) == OtherFailure(db.stageRuns, r, papered, s)
    ensures HasRow(db'.stageRuns, r, s) == HasRow(db.stageRuns, r, s)
  {
    hide SameButMarks, HasRow, FailedAs;
    SameFailures(db, db', r, 0, s, 0);
    forall k: nat ensures FailedAs(db'.stageRuns, r, k, s) == FailedAs(db.stageRuns, r, k, s) {
      SameFailures(db, db', r, k, s, 0);
    }
  }

  lemma {:induction false} SameBlocked(g: Graph, spec: Spec, reachable: set<string>, db: Db, db': Db, r: nat,
                    papered: Option<nat>, s: string)
    requires SameButMarks(db, db', r) && Blocked(g, spec, reachable, db.stageRuns, r, papered, s)
    ensures Blocked(g, spec, reachable, db'.stageRuns, r, papered, s)
  {
    hide SameButMarks, HasRow, OtherFailure;
    var p :| BlockedAlong(g, spec, reachable, db.stageRuns, r, papered, s, p);
    forall x { SameOtherFailure(db, db', r, papered, x); }
    assert BlockedAlong(g, spec, reachable, db'.stageRuns, r, papered, s, p);
  }

  lemma {:induction false} AllStillBlocked(g: Graph, spec: Spec, reachable: set<string>, db: Db, db': Db, r: nat,
                    papered: Option<nat>)
    requires SameButMarks(db, db', r)
    requires forall s :: s in reachable && !HasRow(db.stageRuns, r, s)
                         ==> Blocked(g, spec, reachable, db.stageRuns, r, papered, s)
    ensures forall s :: s in reachable && !HasRow(db'.stageRuns, r, s)
                        ==> Blocked(g, spec, reachable, db'.stageRuns, r, papered, s)
  {
    hide *;
    forall s | s in reachable && !HasRow(db'.stageRuns, r, s)
        ensures Blocked(g, spec, reachable, db'.stageRuns, r, papered, s) {
      SameOtherFailure(db, db', r, papered, s);
      SameBlocked(g, spec, reachable, db, db', r, papered, s);
    }
  }

  lemma {:induction false} SamePapered(db: Db, db': Db, r: nat, policy: Policy, current: Currents, current': Currents,
                    papered: Option<nat>)
    requires SameButMarks(db, db', r) && current.Keys <= current'.Keys
        && Papered(db.stageRuns, r, policy, current, papered)
    ensures Papered(db'.stageRuns, r, policy, current', papered)
    ensures papered.Some? ==> papered.value < |db.stageRuns| <= |db'.stageRuns|
                              && db'.stageRuns[papered.value].stage == db.stageRuns[papered.value].stage
  {
    forall k: nat ensures IsFailed(db'.stageRuns, r, k) == IsFailed(db.stageRuns, r, k) {
      SameFailures(db, db', r, k, "", 0);
    }
    if papered.Some? { SameFailures(db, db', r, papered.value, "", 0); }
  }

  lemma {:induction false} SameLoopReached(env: Env, current: Currents, current': Currents, db: Db, db': Db, r: nat,
                    papered: Option<nat>)
    requires Waiting(env, db, r) && Waiting(env, db', r) && SameButMarks(db, db', r) && current.Keys <= current'.Keys
    requires LoopReached(env, current, db, r, papered)
    ensures LoopReached(env, current', db', r, papered)
  {
    var spec := db.runs[r].spec;
    hide Admit, CompletedRow, Papered, HasRow;
    SameSpec(db, db', r);
    SamePapered(db, db', r, Admit(env, spec).policy, current, current', papered);
    if spec.stopAfter.Some? {
      forall v ensures !CompletedRow(db'.stageRuns, r, spec.stopAfter.value, v) {
        SameFailures(db, db', r, 0, spec.stopAfter.value, v);
      }
    }
  }

  lemma {:induction false} SameSpec(db: Db, db': Db, r: nat)
    requires SameButMarks(db, db', r)
    ensures db'.runs[r].spec == db.runs[r].spec
  {
  }

  lemma {:induction false} SameStuckOn(env: Env, current: Currents, current': Currents, db: Db, db': Db, r: nat,
                    papered: Option<nat>)
    requires Waiting(env, db, r) && Waiting(env, db', r) && SameButMarks(db, db', r) && current.Keys <= current'.Keys
    requires StuckOn(env, current, db, r, papered)
    ensures StuckOn(env, current', db', r, papered)
  {
    SameSpec(db, db', r);
    var spec := db.runs[r].spec;
    var a := Admit(env, spec);
    assert a.Admitted?;
    hide Admit, Waiting, SameButMarks, HasRow, LoopReached, Blocked, OtherFailure;
    SameLoopReached(env, current, current', db, db', r, papered);
    var n :| Lacking(spec, a.reachable, db.stageRuns, r, papered, n);
    SameOtherFailure(db, db', r, papered, n);
    assert Lacking(spec, a.reachable, db'.stageRuns, r, papered, n);
    AllStillBlocked(ByName(a.order), spec, a.reachable, db, db', r, papered);
  }

  lemma {:induction false} SameStuck(env: Env, current: Currents, current': Currents, db: Db, db': Db, r: nat)
    requires Waiting(env, db, r) && SameButMarks(db, db', r) && current.Keys <= current'.Keys
    requires Stuck(env, current, db, r)
    ensures Waiting(env, db', r) && Stuck(env, current', db', r)
  {
    SameWaiting(env, db, db', r);
    var papered :| StuckOn(env, current, db, r, papered);
    hide Waiting, StuckOn;
    SameStuckOn(env, current, current', db, db', r, papered);
  }

  /** Progression leaves a stuck run as it is, but for the fallback mark. */
  lemma {:induction false} StuckIsSame(env: Env, current: Currents, db: Db, r: nat)
    requires Waiting(env, db, r) && Stuck(env, current, db, r)
    ensures SameButMarks(db, ProgressRun(env, current, db, r), r)
  {
    StuckDoesNotMove(env, current, db, r);
    ProgressRunProgressed(env, current, db, r);
    ProgressKeepsRequest(env, current, db, r);
    hide Admit, Stuck, ProgressRun, Quiet;
    assert LaterRun(db.runs[r], ProgressRun(env, current, db, r).runs[r]);
  }

  lemma {:induction false} ProgressKeepsRequest(env: Env, current: Currents, db: Db, r: nat)
    requires r < |db.runs|
    ensures ProgressRun(env, current, db, r).runs[r].cancelRequested == db.runs[r].cancelRequested
  {
    hide Admit, Judge;
  }

  /** A tick leaves a stuck run stuck, and later ticks do too: current versions may change but never vanish. */
  lemma {:induction false} StuckForever(env: Env, current: Currents, current': Currents, db: Db, r: nat)
    requires Waiting(env, db, r) && Stuck(env, current, db, r) && current.Keys <= current'.Keys
    ensures Waiting(env, ProgressRun(env, current, db, r), r)
    ensures Stuck(env, current', ProgressRun(env, current, db, r), r)
  {
    StuckIsSame(env, current, db, r);
    hide *;
    SameStuck(env, current, current', db, ProgressRun(env, current, db, r), r);
  }
}
