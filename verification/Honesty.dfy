/** For which requests "completed" means finished: the exact condition, which a client can check beforehand. */
module Honesty {
  import opened Stages
  import opened Graphs
  import opened Tables
  import opened Ticks
  import opened Evolution
  import opened Dispatching
  import opened RunInvariants
  import opened Completion
  import opened TickInvariants
  import opened Ledgers

  // ---- the condition -------------------------------------------------------

  /** Stage n waits, over unpinned stages, for a registered stage that is neither in the range nor pinned. */
  ghost predicate Starved(g: Graph, reachable: set<string>, spec: Spec, n: string) {
    exists d :: d in g && d !in reachable && ReachesUnpinned(g, spec, n, d)
  }

  /** Every stage of the range is pinned or can be executed. */
  ghost predicate Servable(g: Graph, reachable: set<string>, spec: Spec) {
    forall n <- reachable :: !Pinned(spec, n) ==> !Starved(g, reachable, spec, n)
  }

  /**
   * Without a last stage: no stage of the range is pinned. With a last stage: neither it nor anything in the range
   * that it depends on is pinned. A run that cannot end at all is harmless too: one that cannot end with its whole
   * range provided if some unpinned stage is starved, one that cannot end with its last stage if that is starved.
   */
  ghost predicate Harmless(g: Graph, reachable: set<string>, spec: Spec) {
    match spec.stopAfter
    case None => Servable(g, reachable, spec) ==> forall n <- reachable :: !Pinned(spec, n)
    case Some(s) =>
      && (Servable(g, reachable, spec) ==> !Pinned(spec, s))
      && (!Starved(g, reachable, spec, s) ==> forall n <- reachable :: n != s && Reaches(g, s, n) ==> !Pinned(spec, n))
  }

  /** Every registered dependency of a stage in the range is in the range or pinned. */
  ghost predicate Provided(g: Graph, reachable: set<string>, spec: Spec) {
    forall n, d :: n in reachable && Edge(g, n, d) ==> d in reachable || Pinned(spec, d)
  }

  lemma {:induction false} ProvidedPath(g: Graph, reachable: set<string>, spec: Spec, p: seq<string>)
    requires Provided(g, reachable, spec) && Path(g, p) && UnpinnedTail(spec, p) && p[0] in reachable
    ensures p[|p| - 1] in reachable
  {
    if |p| > 1 {
      PathTail(g, p);
      assert p[1] in reachable;
      var q := p[1..];
      forall k | 0 < k < |q| ensures !Pinned(spec, q[k]) { assert q[k] == p[k + 1]; }
      ProvidedPath(g, reachable, spec, q);
    }
  }

  /** When nothing is missing the condition is simply about the pins. */
  lemma {:induction false} HarmlessWhenProvided(g: Graph, reachable: set<string>, spec: Spec)
    requires Provided(g, reachable, spec) && reachable <= g.Keys
    requires spec.stopAfter.Some? ==> spec.stopAfter.value in reachable
    ensures Harmless(g, reachable, spec) <==> PinsHarmless(g, reachable, spec)
  {
    forall n | n in reachable ensures !Starved(g, reachable, spec, n) {
      if d :| d in g && d !in reachable && ReachesUnpinned(g, spec, n, d) {
        var p :| PathBetween(g, p, n, d) && UnpinnedTail(spec, p);
        ProvidedPath(g, reachable, spec, p);
      }
    }
    if spec.stopAfter.Some? { ReachesSelf(g, spec.stopAfter.value); }
  }

  // ---- harmless requests ---------------------------------------------------

  lemma {:induction false} FinishedInRange(env: Env, db: Db, known: set<Ref>, r: nat, d: string)
    requires Sourced(env, db, known) && r < |db.runs| && Finished(db.stageRuns, r, d)
    ensures Admit(env, db.runs[r].spec).Admitted? && d in Admit(env, db.runs[r].spec).reachable
  {
    var i := FinishedRow(db.stageRuns, r, d);
    hide Admit, Finished, Source;
    assert RowSourced(env, db.runs, db.stageRuns, known, i);
  }

  /** What waits for something outside the range never gets finished. */
  lemma {:induction false} StarvedNeverFinished(env: Env, db: Db, known: set<Ref>, r: nat, n: string)
    requires Sourced(env, db, known) && r < |db.runs| && Admit(env, db.runs[r].spec).Admitted?
    requires Finished(db.stageRuns, r, n)
    ensures var a := Admit(env, db.runs[r].spec); !Starved(ByName(a.order), a.reachable, db.runs[r].spec, n)
  {
    hide Admit, Finished, Sourced;
    var spec := db.runs[r].spec;
    var g, reachable := ByName(Admit(env, spec).order), Admit(env, spec).reachable;
    forall d | d in g && ReachesUnpinned(g, spec, n, d) ensures d in reachable {
      var p :| PathBetween(g, p, n, d) && UnpinnedTail(spec, p);
      AncestorFinished(env, db, known, r, p);
      FinishedInRange(env, db, known, r, d);
    }
  }

  /** In tables with the usual provenance a settled range of a harmless request is finished. */
  lemma {:induction false} HarmlessIsFinished(env: Env, db: Db, known: set<Ref>, r: nat)
    requires Sourced(env, db, known) && r < |db.runs| && Admit(env, db.runs[r].spec).Admitted?
    requires var a, spec := Admit(env, db.runs[r].spec), db.runs[r].spec;
             && Harmless(ByName(a.order), a.reachable, spec)
             && RangeSettled(db.stageRuns, r, ByName(a.order), a.reachable, spec)
    ensures var a, spec := Admit(env, db.runs[r].spec), db.runs[r].spec;
            RangeFinished(db.stageRuns, r, ByName(a.order), a.reachable, spec)
  {
    var rows, spec := db.stageRuns, db.runs[r].spec;
    var g, reachable := ByName(Admit(env, spec).order), Admit(env, spec).reachable;
    AdmittedOrder(env, spec);
    hide Admit, Finished, Sourced, IsOrder, Reaches, ReachesUnpinned, Starved;
    forall n ensures Starved(g, reachable, spec, n) ==> !Finished(rows, r, n) {
      if Finished(rows, r, n) { StarvedNeverFinished(env, db, known, r, n); }
    }
    if spec.stopAfter.Some? {
      var s := spec.stopAfter.value;
      SettledStop(env, spec, rows, r);
      if Finished(rows, r, s) {
        forall n | n in reachable && Reaches(g, s, n) ensures Finished(rows, r, n) {
          if n != s { SettledAncestor(env, spec, rows, r, n); }
        }
      }
    }
  }

  /** In a settled range the last stage is finished, or everything else is settled around it. */
  lemma {:induction false} SettledStop(env: Env, spec: Spec, rows: seq<StageRun>, r: nat)
    requires Admit(env, spec).Admitted? && spec.stopAfter.Some?
    requires RangeSettled(rows, r, ByName(Admit(env, spec).order), Admit(env, spec).reachable, spec)
    ensures || Finished(rows, r, spec.stopAfter.value)
            || (Pinned(spec, spec.stopAfter.value)
                && forall n <- Admit(env, spec).reachable :: Finished(rows, r, n) || Pinned(spec, n))
  {
    AdmittedOrder(env, spec);
    hide Admit, Finished, IsOrder;
    var g, s := ByName(Admit(env, spec).order), spec.stopAfter.value;
    assert PathBetween(g, [s], s, s) && UnpinnedTail(spec, [s]);
  }

  /** What the last stage depends on is finished in a settled range if nothing of it is pinned. */
  lemma {:induction false} SettledAncestor(env: Env, spec: Spec, rows: seq<StageRun>, r: nat, n: string)
    requires Admit(env, spec).Admitted? && spec.stopAfter.Some? && n in Admit(env, spec).reachable
    requires var g, s := ByName(Admit(env, spec).order), spec.stopAfter.value;
             && n != s && Reaches(g, s, n)
             && forall m <- Admit(env, spec).reachable :: m != s && Reaches(g, s, m) ==> !Pinned(spec, m)
    requires RangeSettled(rows, r, ByName(Admit(env, spec).order), Admit(env, spec).reachable, spec)
    ensures Finished(rows, r, n)
  {
    hide Admit, Finished, Reaches;
    ReachesThrough(env, spec, spec.stopAfter.value, n);
  }

  // ---- requests whose pins do harm -----------------------------------------

  /** The stages `only` may have been executed: each has its unpinned registered dependencies among them. */
  ghost predicate Closed(g: Graph, spec: Spec, only: set<string>) {
    forall n, d :: n in only && Edge(g, n, d) && !Pinned(spec, d) ==> d in only
  }

  /** Everything that any stage depends on, at its pinned version or at version 1. */
  function Inputs(order: seq<StageDef>, spec: Spec): map<string, nat> {
    map s, d | s in order && d in s.dependsOn :: d := if Pinned(spec, d) then spec.pins[d] else 1
  }

  /** Version 1 of everything is current. */
  function Ones(order: seq<StageDef>): Currents {
    map s, d | s in order && d in s.dependsOn :: d := 1
  }

  function Chosen(order: seq<StageDef>, spec: Spec, only: set<string>): seq<StageDef> {
    Ready(order, only, {}, Inputs(order, spec))
  }

  lemma {:induction false} ChosenMembers(order: seq<StageDef>, spec: Spec, only: set<string>)
    ensures forall s :: s in Chosen(order, spec, only) <==> s in order && s.name in only
    ensures AllIn(Chosen(order, spec, only), Inputs(order, spec))
  {
  }

  function DoneRows(stages: seq<StageDef>, done: map<string, nat>): seq<StageRun>
    requires AllIn(stages, done)
  {
    seq(|stages|, i requires 0 <= i < |stages| =>
      NewStageRun(0, stages[i].name, InputsOf(stages[i], done), false).(status := Completed, output := 1))
  }

  /** The tables of a run in which exactly the stages `only` were executed, all with output 1. */
  function Partly(order: seq<StageDef>, spec: Spec, only: set<string>): (db: Db)
    ensures |db.runs| == 1
  {
    var stages, done, run := Chosen(order, spec, only), Inputs(order, spec), NewRun(spec, false);
    ChosenMembers(order, spec, only);
    Db([], [], [run], DoneRows(stages, done), NewMessages(0, 0, run, stages, done))
  }

  lemma {:induction false} PartlyRow(order: seq<StageDef>, spec: Spec, only: set<string>, i: nat) returns (s: StageDef)
    requires i < |Partly(order, spec, only).stageRuns|
    ensures s == Chosen(order, spec, only)[i] && s in order && s.name in only
    ensures forall d <- s.dependsOn :: d in Inputs(order, spec)
    ensures Partly(order, spec, only).stageRuns[i]
         == StageRun(0, s.name, InputsOf(s, Inputs(order, spec)), false, Completed, 1, 1, false)
  {
    ChosenMembers(order, spec, only);
    s := Chosen(order, spec, only)[i];
    assert s in Chosen(order, spec, only);
    hide Chosen, Inputs;
  }

  lemma {:induction false} PartlyCompleted(order: seq<StageDef>, spec: Spec, only: set<string>, n: string)
    ensures n in only && n in Names(order) ==> CompletedRow(Partly(order, spec, only).stageRuns, 0, n, 1)
  {
    if n in only && n in Names(order) {
      ChosenMembers(order, spec, only);
      var s :| s in order && s.name == n;
      var i :| 0 <= i < |Chosen(order, spec, only)| && Chosen(order, spec, only)[i] == s;
      var s' := PartlyRow(order, spec, only, i);
    }
  }

  lemma {:induction false} PartlySource(order: seq<StageDef>, spec: Spec, only: set<string>, s: StageDef, d: string)
    requires DistinctNames(order) && Closed(ByName(order), spec, only)
    requires s in order && s.name in only && d in s.dependsOn
    ensures d in Inputs(order, spec)
    ensures Source(Partly(order, spec, only).stageRuns, spec, 0, Names(order), RefsOf(Ones(order)), d,
                   Inputs(order, spec)[d])
  {
    PartlyCompleted(order, spec, only, d);
    InputIsOne(order, spec, s, d);
    OneIsKnown(order, s, d);
    ByNameOfDistinct(order);
    assert d in Names(order) ==> Edge(ByName(order), s.name, d);
    assert d in Names(order) && !Pinned(spec, d) ==> d in only;
    hide Partly, CompletedRow, RefsOf, ByName, Names, Closed, Inputs, Ones, DistinctNames;
  }

  lemma {:induction false} SourcedIntro(env: Env, spec: Spec, rows: seq<StageRun>, known: set<Ref>, i: nat, s: StageDef,
                    done: map<string, nat>)
    requires Admit(env, spec).Admitted? && s.name in Admit(env, spec).reachable
    requires s.name in ByName(Admit(env, spec).order) && ByName(Admit(env, spec).order)[s.name] == s
    requires i < |rows| && rows[i].run == 0 && rows[i].stage == s.name && (forall d <- s.dependsOn :: d in done)
    requires rows[i].inputs == InputsOf(s, done)
    requires forall d <- s.dependsOn :: Source(rows, spec, 0, Names(Admit(env, spec).order), known, d, done[d])
    ensures RowSourced(env, [NewRun(spec, false)], rows, known, i)
  {
    hide Admit, Source, ByName;
  }

  lemma {:induction false} PartlySourced(env: Env, spec: Spec, only: set<string>, i: nat)
    requires Admit(env, spec).Admitted? && only <= Admit(env, spec).reachable
    requires Closed(ByName(Admit(env, spec).order), spec, only)
    requires i < |Partly(Admit(env, spec).order, spec, only).stageRuns|
    ensures var order := Admit(env, spec).order;
            RowSourced(env, [NewRun(spec, false)], Partly(order, spec, only).stageRuns, RefsOf(Ones(order)), i)
  {
    var order := Admit(env, spec).order;
    var db := Partly(order, spec, only);
    AdmittedOrder(env, spec);
    assert DistinctNames(order);
    hide *;
    ByNameOfDistinct(order);
    var s := PartlyRow(order, spec, only, i);
    var k :| 0 <= k < |order| && order[k] == s;
    forall d | d in s.dependsOn
      ensures Source(db.stageRuns, spec, 0, Names(order), RefsOf(Ones(order)), d, Inputs(order, spec)[d])
    {
      PartlySource(order, spec, only, s, d);
    }
    SourcedIntro(env, spec, db.stageRuns, RefsOf(Ones(order)), i, s, Inputs(order, spec));
  }

  lemma {:induction false} InputIsOne(order: seq<StageDef>, spec: Spec, s: StageDef, d: string)
    requires s in order && d in s.dependsOn
    ensures d in Inputs(order, spec) && Inputs(order, spec)[d] == if Pinned(spec, d) then spec.pins[d] else 1
  {
  }

  lemma {:induction false} OneIsKnown(order: seq<StageDef>, s: StageDef, d: string)
    requires s in order && d in s.dependsOn
    ensures Ref(d, 1) in RefsOf(Ones(order))
  {
    assert d in Ones(order);
  }

  /** These tables satisfy every invariant. */
  lemma {:induction false} PartlyInv(env: Env, spec: Spec, only: set<string>)
    requires Admit(env, spec).Admitted? && only <= Admit(env, spec).reachable
    requires Closed(ByName(Admit(env, spec).order), spec, only)
    ensures DbInv(env, Partly(Admit(env, spec).order, spec, only), RefsOf(Ones(Admit(env, spec).order)))
  {
    var order := Admit(env, spec).order;
    var db := Partly(order, spec, only);
    AdmittedOrder(env, spec);
    PartlyTables(order, spec, only);
    assert db.runs == [NewRun(spec, false)];
    forall i | 0 <= i < |db.stageRuns| ensures RowSourced(env, db.runs, db.stageRuns, RefsOf(Ones(order)), i) {
      PartlySourced(env, spec, only, i);
    }
    hide Admit, Partly, RowSourced;
  }

  lemma {:induction false} PartlyTables(order: seq<StageDef>, spec: Spec, only: set<string>)
    requires IsOrder(order)
    ensures var db := Partly(order, spec, only);
            && OneMessageEach(db) && OncePerStage(db.stageRuns)
            && forall i :: 0 <= i < |db.stageRuns| ==> !db.stageRuns[i].usedFallback
  {
    var db := Partly(order, spec, only);
    ReadyDistinct(order, only, {}, Inputs(order, spec));
    assert DistinctNames(Chosen(order, spec, only));
    hide IsOrder;
    forall i | 0 <= i < |db.stageRuns|
      ensures MessageFor(db, i) && !db.stageRuns[i].usedFallback
      ensures db.stageRuns[i].stage == Chosen(order, spec, only)[i].name
    {
      var s := PartlyRow(order, spec, only, i);
    }
  }

  lemma {:induction false} PartlyJudged(order: seq<StageDef>, spec: Spec, only: set<string>)
    requires only <= Names(order)
    ensures var records := Records(Partly(order, spec, only).stageRuns, 0);
            FailedOf(records) == [] && Outputs(records).Keys == only
  {
    var rows := Partly(order, spec, only).stageRuns;
    var records := Records(rows, 0);
    hide Partly;
    if FailedOf(records) != [] {
      var x := FailedOf(records)[0];
      FailedMembers(records, x);
      RecordsMembers(rows, 0, x);
      var s := PartlyRow(order, spec, only, x.id);
    }
    forall n ensures n in Outputs(records) <==> n in only {
      OutputsMembers(records, n);
      if n in only {
        PartlyCompleted(order, spec, only, n);
        var i :| 0 <= i < |rows| && rows[i].run == 0 && rows[i].stage == n && rows[i].status == Completed;
        RecordsMembers(rows, 0, Record(i, rows[i]));
      }
      if n in Outputs(records) {
        var x :| x in records && x.row.status == Completed && x.row.stage == n;
        RecordsMembers(rows, 0, x);
        var s := PartlyRow(order, spec, only, x.id);
      }
    }
  }

  /** What the executed stages have to cover so that the next tick calls the run completed. */
  ghost predicate Concludes(reachable: set<string>, spec: Spec, only: set<string>) {
    || (spec.stopAfter.Some? && spec.stopAfter.value in only)
    || forall n <- reachable :: n in only || Pinned(spec, n)
  }

  ghost predicate Covers(v: Verdict, reachable: set<string>) {
    v.outcome.Stop? || (v.outcome.Go? && reachable <= v.outcome.done.Keys)
  }

  lemma {:induction false} CoveredCompletes(env: Env, current: Currents, db: Db, r: nat)
    requires r < |db.runs| && !db.runs[r].cancelRequested && Admit(env, db.runs[r].spec).Admitted?
    requires var a, spec := Admit(env, db.runs[r].spec), db.runs[r].spec;
             Covers(Judge(spec, Records(db.stageRuns, r), a.order, a.reachable, a.policy, current), a.reachable)
    ensures ProgressRun(env, current, db, r).runs[r].status == Completed
  {
    hide Admit, Judge, Records, Ready;
  }

  lemma {:induction false} PartlyCompletes(env: Env, spec: Spec, only: set<string>)
    requires Admit(env, spec).Admitted? && only <= Admit(env, spec).reachable
    requires Concludes(Admit(env, spec).reachable, spec, only)
    ensures var order := Admit(env, spec).order;
            ProgressRun(env, Ones(order), Partly(order, spec, only), 0).runs[0].status == Completed
  {
    var a := Admit(env, spec);
    AdmittedOrder(env, spec);
    PartlyVerdict(a.order, a.reachable, a.policy, spec, only);
    var db, current := Partly(a.order, spec, only), Ones(a.order);
    assert db.runs == [NewRun(spec, false)] && db.runs[0].spec == spec && !db.runs[0].cancelRequested;
    hide *;
    CoveredCompletes(env, current, db, 0);
  }

  lemma {:induction false} PartlyVerdict(order: seq<StageDef>, reachable: set<string>, policy: Policy, spec: Spec,
                    only: set<string>)
    requires Concludes(reachable, spec, only) && only <= Names(order)
    ensures var v := Judge(spec, Records(Partly(order, spec, only).stageRuns, 0), order, reachable, policy,
        Ones(order));
            Covers(v, reachable)
  {
    PartlyJudged(order, spec, only);
    PartlyConcludes(order, reachable, spec, only, Outputs(Records(Partly(order, spec, only).stageRuns, 0)));
    hide Partly, Records, Outputs, Conclude, Concludes, Ones;
  }

  lemma {:induction false} PartlyConcludes(order: seq<StageDef>, reachable: set<string>, spec: Spec,
                    only: set<string>, outputs: map<string, nat>)
    requires Concludes(reachable, spec, only) && outputs.Keys == only
    ensures var c := Conclude(spec, order, reachable, outputs, Ones(order));
            c.Stop? || (c.Go? && reachable <= c.done.Keys)
  {
  }

  /** A stage that was not executed before the tick is not finished after it. */
  lemma {:induction false} PartlyUnfinished(env: Env, spec: Spec, only: set<string>, n: string)
    requires Admit(env, spec).Admitted? && n !in only
    ensures var order := Admit(env, spec).order;
            !Finished(ProgressRun(env, Ones(order), Partly(order, spec, only), 0).stageRuns, 0, n)
  {
    var order := Admit(env, spec).order;
    var db := Partly(order, spec, only);
    assert db.runs == [NewRun(spec, false)];
    hide Admit, Partly;
    var db' := ProgressRun(env, Ones(order), db, 0);
    ProgressRunProgressed(env, Ones(order), db, 0);
    hide ProgressRun;
    forall i | 0 <= i < |db'.stageRuns|
      ensures db'.stageRuns[i].stage == n ==> db'.stageRuns[i].status == Requested && !db'.stageRuns[i].usedFallback
    {
      if i < |db.stageRuns| {
        var s := PartlyRow(order, spec, only, i);
        assert MarkedRow(db.stageRuns[i], db'.stageRuns[i]);
      } else {
        assert FreshRow(db'.stageRuns[i]);
      }
    }
  }

  // ---- the exact condition -------------------------------------------------

  /** If this tick completes run r of this request, it leaves the range finished. */
  ghost predicate CompletesFinished(env: Env, spec: Spec, db: Db, current: Currents, known: set<Ref>, r: nat)
    requires Admit(env, spec).Admitted?
  {
    && r < |db.runs| && db.runs[r].spec == spec && Active(db.runs[r].status)
    && DbInv(env, db, known) && RefsOf(current) <= known
    && ProgressRun(env, current, db, r).runs[r].status == Completed
    ==> RangeFinished(ProgressRun(env, current, db, r).stageRuns, r, ByName(Admit(env, spec).order),
                      Admit(env, spec).reachable, spec)
  }

  /** No tick ever completes a run of this request with unfinished stages in its range. */
  ghost predicate AlwaysHonest(env: Env, spec: Spec)
    requires Admit(env, spec).Admitted?
  {
    forall db, current, known, r :: CompletesFinished(env, spec, db, current, known, r)
  }

  lemma {:induction false} HarmlessCompletes(env: Env, spec: Spec, db: Db, current: Currents, known: set<Ref>, r: nat)
    requires Admit(env, spec).Admitted? && Harmless(ByName(Admit(env, spec).order), Admit(env, spec).reachable, spec)
    ensures CompletesFinished(env, spec, db, current, known, r)
  {
    if r < |db.runs| && db.runs[r].spec == spec && Active(db.runs[r].status) && DbInv(env, db, known)
       && RefsOf(current) <= known && ProgressRun(env, current, db, r).runs[r].status == Completed {
      hide ProgressRun, Admit, Harmless, RangeFinished, RangeSettled, Honest, OneMessageEach, Sourced;
      ProgressSourced(env, current, db, r, known);
      NewlyCompleted(env, current, db, r, known);
      ProgressRunProgressed(env, current, db, r);
      SpecKept(db, ProgressRun(env, current, db, r), r);
      HarmlessIsFinished(env, ProgressRun(env, current, db, r), known, r);
    }
  }

  /** A stage of the range that the tick would have had to finish. */
  ghost predicate Needed(g: Graph, reachable: set<string>, spec: Spec, n: string) {
    n in reachable && (spec.stopAfter.Some? ==> Reaches(g, spec.stopAfter.value, n))
  }

  lemma {:induction false} NeededUnfinished(rows: seq<StageRun>, r: nat, g: Graph, reachable: set<string>, spec: Spec,
                    n: string)
    requires Needed(g, reachable, spec, n) && !Finished(rows, r, n)
    ensures !RangeFinished(rows, r, g, reachable, spec)
  {
  }

  /** Executing only some of the stages is enough to be called completed. */
  lemma {:induction false} HarmDone(env: Env, spec: Spec, only: set<string>, n: string)
    requires Admit(env, spec).Admitted? && only <= Admit(env, spec).reachable
    requires Closed(ByName(Admit(env, spec).order), spec, only) && Concludes(Admit(env, spec).reachable, spec, only)
    requires Needed(ByName(Admit(env, spec).order), Admit(env, spec).reachable, spec, n) && n !in only
    ensures !AlwaysHonest(env, spec)
  {
    var order := Admit(env, spec).order;
    var db, current := Partly(order, spec, only), Ones(order);
    PartlyInv(env, spec, only);
    PartlyCompletes(env, spec, only);
    PartlyUnfinished(env, spec, only, n);
    assert db.runs == [NewRun(spec, false)];
    assert db.runs[0].spec == spec && Active(db.runs[0].status);
    NeededUnfinished(ProgressRun(env, current, db, 0).stageRuns, 0, ByName(order), Admit(env, spec).reachable, spec, n);
    hide Admit, Partly, Ones, DbInv, ProgressRun, Closed, Concludes, Finished, RangeFinished, Needed, ByName, RefsOf;
    assert !CompletesFinished(env, spec, db, current, RefsOf(current), 0);
  }

  /** All unpinned stages of the range. */
  ghost function Unpinned(reachable: set<string>, spec: Spec): set<string> {
    set n | n in reachable && !Pinned(spec, n)
  }

  lemma {:induction false} UnpinnedClosed(g: Graph, reachable: set<string>, spec: Spec)
    requires Servable(g, reachable, spec)
    ensures Closed(g, spec, Unpinned(reachable, spec))
    ensures Concludes(reachable, spec, Unpinned(reachable, spec))
  {
    forall n, d | n in Unpinned(reachable, spec) && Edge(g, n, d) && !Pinned(spec, d) ensures d in reachable {
      assert PathBetween(g, [n, d], n, d) && UnpinnedTail(spec, [n, d]);
      assert ReachesUnpinned(g, spec, n, d);
    }
  }

  /** The last stage and everything of the range that it reaches over unpinned stages. */
  ghost function Upstream(g: Graph, reachable: set<string>, spec: Spec, s: string): set<string> {
    set n | n in reachable && ReachesUnpinned(g, spec, s, n)
  }

  lemma {:induction false} UpstreamClosed(g: Graph, reachable: set<string>, spec: Spec, s: string)
    requires !Starved(g, reachable, spec, s) && s in reachable && s in g
    ensures Closed(g, spec, Upstream(g, reachable, spec, s)) && s in Upstream(g, reachable, spec, s)
    ensures forall n <- Upstream(g, reachable, spec, s) :: n == s || !Pinned(spec, n)
  {
    assert PathBetween(g, [s], s, s) && UnpinnedTail(spec, [s]);
    forall n, d | n in Upstream(g, reachable, spec, s) && Edge(g, n, d) && !Pinned(spec, d)
      ensures d in Upstream(g, reachable, spec, s)
    {
      var p :| PathBetween(g, p, s, n) && UnpinnedTail(spec, p);
      PathExtendsRight(g, p, d);
      assert PathBetween(g, p + [d], s, d) && UnpinnedTail(spec, p + [d]);
      assert ReachesUnpinned(g, spec, s, d);
    }
    forall n | n in Upstream(g, reachable, spec, s) ensures n == s || !Pinned(spec, n) {
      var p :| PathBetween(g, p, s, n) && UnpinnedTail(spec, p);
      assert p[|p| - 1] == n;
    }
  }

  lemma {:induction false} HarmIsDone(env: Env, spec: Spec)
    requires Admit(env, spec).Admitted? && !Harmless(ByName(Admit(env, spec).order), Admit(env, spec).reachable, spec)
    ensures !AlwaysHonest(env, spec)
  {
    AdmittedOrder(env, spec);
    hide Admit, IsOrder, AlwaysHonest, Starved, Closed, Servable;
    var g, reachable := ByName(Admit(env, spec).order), Admit(env, spec).reachable;
    if Servable(g, reachable, spec) && (spec.stopAfter.None? || Pinned(spec, spec.stopAfter.value)) {
      UnpinnedClosed(g, reachable, spec);
      var n :| n in reachable && Pinned(spec, n) && (spec.stopAfter.Some? ==> n == spec.stopAfter.value);
      if spec.stopAfter.Some? { ReachesSelf(g, n); }
      HarmDone(env, spec, Unpinned(reachable, spec), n);
    } else {
      var s := spec.stopAfter.value;
      UpstreamClosed(g, reachable, spec, s);
      var n :| n in reachable && n != s && Reaches(g, s, n) && Pinned(spec, n);
      HarmDone(env, spec, Upstream(g, reachable, spec, s), n);
    }
  }

  /**
   * For every admitted request: a tick that completes a run of it always leaves its range finished, whatever the
   * tables, if and only if the pins are harmless.
   */
  lemma {:induction false} HonestExactly(env: Env, spec: Spec)
    requires Admit(env, spec).Admitted?
    ensures AlwaysHonest(env, spec) <==> Harmless(ByName(Admit(env, spec).order), Admit(env, spec).reachable, spec)
  {
    hide Admit, Harmless, CompletesFinished;
    if Harmless(ByName(Admit(env, spec).order), Admit(env, spec).reachable, spec) {
      forall db, current, known, r: nat ensures CompletesFinished(env, spec, db, current, known, r) {
        HarmlessCompletes(env, spec, db, current, known, r);
      }
    } else {
      HarmIsDone(env, spec);
    }
  }

  /** When every dependency is provided: if and only if no pin stands for a stage that the last stage depends on. */
  lemma {:induction false} HonestIffPinsHarmless(env: Env, spec: Spec)
    requires Admit(env, spec).Admitted? && Provided(ByName(Admit(env, spec).order), Admit(env, spec).reachable, spec)
    ensures AlwaysHonest(env, spec)
       <==> PinsHarmless(ByName(Admit(env, spec).order), Admit(env, spec).reachable, spec)
  {
    AdmittedOrder(env, spec);
    hide Admit, AlwaysHonest, Harmless, PinsHarmless, Provided, IsOrder;
    HonestExactly(env, spec);
    HarmlessWhenProvided(ByName(Admit(env, spec).order), Admit(env, spec).reachable, spec);
  }
}
