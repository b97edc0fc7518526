/** When a run is called completed, it really is: downward closure and honest completion. */
module Completion {
  import opened Stages
  import opened Graphs
  import opened Tables
  import opened Ticks
  import opened Evolution
  import opened Dispatching
  import opened RunInvariants
  import opened Ledgers
  import Dag

  /**
   * A sensible request: no pin overrides a stage that the run itself executes, and every registered
   * dependency of an executed stage is executed too or pinned.
   */
  ghost predicate WellFormedRange(order: seq<StageDef>, reachable: set<string>, spec: Spec) {
    && (forall n <- reachable :: !Pinned(spec, n))
    && forall s, d :: s in order && s.name in reachable && d in s.dependsOn && d in Names(order)
                      ==> d in reachable || Pinned(spec, d)
  }

  /** All reachable stages are finished, or at least the requested last one with all its reachable ancestors. */
  ghost predicate RangeFinished(rows: seq<StageRun>, r: nat, g: Graph, reachable: set<string>, spec: Spec) {
    || (forall n <- reachable :: Finished(rows, r, n))
    || (spec.stopAfter.Some? && forall n <- reachable :: Reaches(g, spec.stopAfter.value, n) ==> Finished(rows, r, n))
  }

  /** `from` leads to `to` through dependencies that the run did not have pinned for it. */
  ghost predicate ReachesUnpinned(g: Graph, spec: Spec, from: string, to: string) {
    exists p :: PathBetween(g, p, from, to) && UnpinnedTail(spec, p)
  }

  ghost predicate UnpinnedTail(spec: Spec, p: seq<string>) {
    forall i :: 0 < i < |p| ==> !Pinned(spec, p[i])
  }

  /**
   * What a completed run has behind it, whatever the request: every reachable stage finished or pinned, or at
   * least the requested last stage with everything that it needs and nobody pinned.
   */
  ghost predicate RangeSettled(rows: seq<StageRun>, r: nat, g: Graph, reachable: set<string>, spec: Spec) {
    || (forall n <- reachable :: Finished(rows, r, n) || Pinned(spec, n))
    || (spec.stopAfter.Some? && forall n :: ReachesUnpinned(g, spec, spec.stopAfter.value, n) ==> Finished(rows, r, n))
  }

  ghost predicate HonestRun(env: Env, run: Run, rows: seq<StageRun>, r: nat) {
    run.status == Completed ==>
      && Admit(env, run.spec).Admitted?
      && RangeSettled(rows, r, ByName(Admit(env, run.spec).order), Admit(env, run.spec).reachable, run.spec)
  }

  ghost predicate Honest(env: Env, db: Db) {
    forall r :: 0 <= r < |db.runs| ==> HonestRun(env, db.runs[r], db.stageRuns, r)
  }

  // ---- downward closure ----------------------------------------------------

  /** Whatever lies on a path down to a reachable stage is reachable. */
  lemma {:induction false} PathReachable(env: Env, spec: Spec, p: seq<string>)
    requires Admit(env, spec).Admitted?
    requires Path(ByName(Admit(env, spec).order), p) && p[|p| - 1] in Admit(env, spec).reachable
    ensures p[0] in Admit(env, spec).reachable
  {
    hide Admit;
    AdmittedOrder(env, spec);
    var g, reachable := ByName(Admit(env, spec).order), Admit(env, spec).reachable;
    if |p| > 1 {
      PathTail(g, p);
      PathReachable(env, spec, p[1..]);
      if spec.startFrom.Some? { Dag.ReachableIsClosed(g, spec.startFrom.value, p[0], p[1]); }
    }
  }

  lemma {:induction false} FinishedRow(rows: seq<StageRun>, r: nat, s: string) returns (i: nat)
    requires Finished(rows, r, s)
    ensures i < |rows| && rows[i].run == r && rows[i].stage == s
  {
    if FallbackRow(rows, r, s) {
      i :| 0 <= i < |rows| && rows[i].run == r && rows[i].stage == s && rows[i].status == Failed
          && rows[i].usedFallback;
    } else {
      var v :| CompletedRow(rows, r, s, v);
      i :| 0 <= i < |rows| && rows[i].run == r && rows[i].stage == s && rows[i].status == Completed
          && rows[i].output == v;
    }
  }

  /** A stage run exists only if each registered dependency of its stage was pinned, or had completed or fallen back. */
  lemma {:induction false} DependencyFinished(env: Env, db: Db, known: set<Ref>, i: nat, d: string)
    requires i < |db.stageRuns| && RowSourced(env, db.runs, db.stageRuns, known, i)
    requires var spec := db.runs[db.stageRuns[i].run].spec;
             !Pinned(spec, d) && Edge(ByName(Admit(env, spec).order), db.stageRuns[i].stage, d)
    ensures Finished(db.stageRuns, db.stageRuns[i].run, d)
  {
    hide Admit, CompletedRow, FallbackRow;
    var row := db.stageRuns[i];
    var spec := db.runs[row.run].spec;
    assert Source(db.stageRuns, spec, row.run, ByName(Admit(env, spec).order).Keys, known, d, row.inputs[d]);
  }

  /** Hence everything above a finished stage is finished, as far as nothing was pinned on the way. */
  lemma {:induction false} AncestorFinished(env: Env, db: Db, known: set<Ref>, r: nat, p: seq<string>)
    requires Sourced(env, db, known) && r < |db.runs| && Admit(env, db.runs[r].spec).Admitted?
    requires Path(ByName(Admit(env, db.runs[r].spec).order), p) && UnpinnedTail(db.runs[r].spec, p)
    requires Finished(db.stageRuns, r, p[0])
    ensures Finished(db.stageRuns, r, p[|p| - 1])
  {
    hide Admit, Finished, RowSourced;
    if |p| > 1 {
      var g, q := ByName(Admit(env, db.runs[r].spec).order), p[1..];
      var i := FinishedRow(db.stageRuns, r, p[0]);
      PathTail(g, p);
      DependencyFinished(env, db, known, i, p[1]);
      forall k | 0 < k < |q| ensures !Pinned(db.runs[r].spec, q[k]) { assert q[k] == p[k + 1]; }
      AncestorFinished(env, db, known, r, q);
    }
  }

  lemma {:induction false} WholePathReachable(env: Env, spec: Spec, p: seq<string>)
    requires Admit(env, spec).Admitted?
    requires Path(ByName(Admit(env, spec).order), p) && p[|p| - 1] in Admit(env, spec).reachable
    ensures forall i :: 0 <= i < |p| ==> p[i] in Admit(env, spec).reachable
  {
    hide Admit;
    PathReachable(env, spec, p);
    if |p| > 1 {
      PathTail(ByName(Admit(env, spec).order), p);
      WholePathReachable(env, spec, p[1..]);
      forall i | 0 <= i < |p| ensures p[i] in Admit(env, spec).reachable { assert i > 0 ==> p[i] == p[1..][i - 1]; }
    }
  }

  /** A pin on a stage of the range may only stand for one that the requested last stage does not depend on. */
  ghost predicate PinsHarmless(g: Graph, reachable: set<string>, spec: Spec) {
    forall n <- reachable :: Pinned(spec, n) ==> spec.stopAfter.Some? && !Reaches(g, spec.stopAfter.value, n)
  }

  /** Then a settled range is a finished one. */
  lemma {:induction false} SettledIsFinished(env: Env, rows: seq<StageRun>, r: nat, spec: Spec)
    requires Admit(env, spec).Admitted?
    requires PinsHarmless(ByName(Admit(env, spec).order), Admit(env, spec).reachable, spec)
    requires RangeSettled(rows, r, ByName(Admit(env, spec).order), Admit(env, spec).reachable, spec)
    ensures RangeFinished(rows, r, ByName(Admit(env, spec).order), Admit(env, spec).reachable, spec)
  {
    hide Admit, Finished;
    var g, reachable := ByName(Admit(env, spec).order), Admit(env, spec).reachable;
    if spec.stopAfter.Some? {
      forall n | n in reachable && Reaches(g, spec.stopAfter.value, n) ensures Finished(rows, r, n) {
        ReachesThrough(env, spec, spec.stopAfter.value, n);
      }
    }
  }

  /** A vertex on the way is reached too, and differs from the start in an acyclic graph. */
  lemma {:induction false} OnTheWay(g: Graph, p: seq<string>, i: nat)
    requires Path(g, p) && 0 < i < |p| && !HasCycle(g)
    ensures Reaches(g, p[0], p[i]) && p[i] != p[0]
  {
    PathHead(g, p, i);
    var q := p[..i + 1];
    assert PathBetween(g, q, p[0], p[i]);
    assert |q| >= 2 && q[0] == p[0] && q[|q| - 1] == p[i];
  }

  /** If nothing of the range that `from` depends on is pinned, then pins cut none of its paths within the range. */
  lemma {:induction false} ReachesThrough(env: Env, spec: Spec, from: string, n: string)
    requires Admit(env, spec).Admitted? && n in Admit(env, spec).reachable
    requires Reaches(ByName(Admit(env, spec).order), from, n)
    requires forall m <- Admit(env, spec).reachable ::
               m != from && Reaches(ByName(Admit(env, spec).order), from, m) ==> !Pinned(spec, m)
    ensures ReachesUnpinned(ByName(Admit(env, spec).order), spec, from, n)
  {
    AdmittedOrder(env, spec);
    OrderedIsAcyclic(Admit(env, spec).order);
    var g := ByName(Admit(env, spec).order);
    var p :| PathBetween(g, p, from, n);
    WholePathReachable(env, spec, p);
    hide Admit, IsOrder, HasCycle, Reaches;
    forall i | 0 < i < |p| ensures !Pinned(spec, p[i]) {
      OnTheWay(g, p, i);
    }
  }

  // ---- what makes a run completed -----------------------------------------

  ghost predicate Stops(env: Env, current: Currents, db: Db, r: nat, fallback: Option<Record>)
    requires r < |db.runs|
  {
    var run := db.runs[r];
    && !run.cancelRequested && Admit(env, run.spec).Admitted?
    && Judge(run.spec, Records(db.stageRuns, r), Admit(env, run.spec).order, Admit(env, run.spec).reachable,
             Admit(env, run.spec).policy, current) == Verdict(fallback, Stop)
  }

  lemma {:induction false} CompletedHow(env: Env, current: Currents, db: Db, r: nat)
    requires r < |db.runs| && Active(db.runs[r].status) && ProgressRun(env, current, db, r).runs[r].status == Completed
    ensures Admit(env, db.runs[r].spec).Admitted?
    ensures (exists fallback :: Stops(env, current, db, r, fallback))
         || (exists fallback, done ::
             GoesOn(env, current, db, r, Admit(env, db.runs[r].spec).order, Admit(env, db.runs[r].spec).reachable,
                 fallback, done)
                                      && Admit(env, db.runs[r].spec).reachable <= done.Keys)
  {
    hide Admit, Judge;
    var run := db.runs[r];
    var a := Admit(env, run.spec);
    var v := Judge(run.spec, Records(db.stageRuns, r), a.order, a.reachable, a.policy, current);
    if v.outcome.Stop? {
      assert Stops(env, current, db, r, v.fallback);
    } else {
      assert GoesOn(env, current, db, r, a.order, a.reachable, v.fallback, v.outcome.done);
    }
  }

  /** The stage named by stop_after is finished when the tick stops the run there. */
  lemma {:induction false} StopFinished(env: Env, current: Currents, db: Db, r: nat, fallback: Option<Record>)
    requires r < |db.runs| && Stops(env, current, db, r, fallback)
    ensures db.runs[r].spec.stopAfter.Some?
    ensures Finished(ProgressRun(env, current, db, r).stageRuns, r, db.runs[r].spec.stopAfter.value)
  {
    hide Admit;
    var spec, db' := db.runs[r].spec, ProgressRun(env, current, db, r);
    var records, s := Records(db.stageRuns, r), spec.stopAfter.value;
    var a := Admit(env, spec);
    FallbackRecord(spec, db.stageRuns, r, a.order, a.reachable, a.policy, current);
    assert db'.stageRuns == MarkFallback(db, fallback).stageRuns;
    if fallback.Some? && fallback.value.row.stage == s {
      assert db'.stageRuns[fallback.value.id] == db.stageRuns[fallback.value.id].(usedFallback := true);
      assert FallbackRow(db'.stageRuns, r, s);
    } else {
      OutputsMembers(records, s);
      var x :| x in records && x.row.status == Completed && x.row.stage == s;
      RecordsMembers(db.stageRuns, r, x);
      assert db'.stageRuns[x.id] == x.row;
      assert CompletedRow(db'.stageRuns, r, s, x.row.output);
    }
  }

  /** Honest completion: a run is completed only with its range settled. */
  lemma {:induction false} NewlyCompleted(env: Env, current: Currents, db: Db, r: nat, known: set<Ref>)
    requires r < |db.runs| && Active(db.runs[r].status) && RefsOf(current) <= known && Sourced(env, db, known)
    ensures HonestRun(env, ProgressRun(env, current, db, r).runs[r], ProgressRun(env, current, db, r).stageRuns, r)
  {
    hide Judge, Admit, ProgressRun, Progressed, Finished, Sourced, GoesOn;
    var spec, db' := db.runs[r].spec, ProgressRun(env, current, db, r);
    var a := Admit(env, spec);
    ProgressRunProgressed(env, current, db, r);
    SpecKept(db, db', r);
    if db'.runs[r].status == Completed {
      CompletedHow(env, current, db, r);
      ProgressSourced(env, current, db, r, known);
      if fallback :| Stops(env, current, db, r, fallback) {
        StopFinished(env, current, db, r, fallback);
        forall n | ReachesUnpinned(ByName(a.order), spec, spec.stopAfter.value, n)
            ensures Finished(db'.stageRuns, r, n) {
          var p :| PathBetween(ByName(a.order), p, spec.stopAfter.value, n) && UnpinnedTail(spec, p);
          AncestorFinished(env, db', known, r, p);
        }
      } else {
        var fallback, done :| GoesOn(env, current, db, r, a.order, a.reachable, fallback, done)
            && a.reachable <= done.Keys;
        AdmittedOrder(env, spec);
        forall n | n in a.reachable ensures Finished(db'.stageRuns, r, n) || Pinned(spec, n) {
          NewSource(env, current, db, r, a.order, a.reachable, fallback, done, known, n);
          SourceOfOwnStage(db'.stageRuns, spec, r, a.order, known, n, done[n]);
        }
      }
    }
  }

  lemma {:induction false} SpecKept(db: Db, db': Db, r: nat)
    requires r < |db.runs| && Progressed(db, db')
    ensures |db'.runs| == |db.runs| && db'.runs[r].spec == db.runs[r].spec
  {
    assert LaterRun(db.runs[r], db'.runs[r]);
  }

  lemma {:induction false} SourceOfOwnStage(rows: seq<StageRun>, spec: Spec, r: nat, order: seq<StageDef>,
                    known: set<Ref>, n: string, v: nat)
    requires Source(rows, spec, r, Names(order), known, n, v) && n in Names(order)
    ensures Finished(rows, r, n) || Pinned(spec, n)
  {
  }

  lemma {:induction false} KeepsHonestRun(env: Env, run: Run, run': Run, rows: seq<StageRun>, rows': seq<StageRun>,
                    r: nat)
    requires HonestRun(env, run, rows, r) && KeepsDone(rows, rows')
    requires run'.spec == run.spec && (run'.status == Completed ==> run.status == Completed)
    ensures HonestRun(env, run', rows', r)
  {
    hide Admit, Finished, KeepsDone;
    forall n | Finished(rows, r, n) ensures Finished(rows', r, n) {
      KeepsFinished(rows, rows', r, n);
    }
  }

  lemma {:induction false} ProgressHonest(env: Env, current: Currents, db: Db, r: nat, known: set<Ref>)
    requires r < |db.runs| && Active(db.runs[r].status) && RefsOf(current) <= known
    requires Sourced(env, db, known) && Honest(env, db)
    ensures Honest(env, ProgressRun(env, current, db, r))
  {
    hide HonestRun, ProgressRun, KeepsDone, Sourced;
    var db' := ProgressRun(env, current, db, r);
    ProgressRunProgressed(env, current, db, r);
    ProgressedKeepsDone(db, db');
    NewlyCompleted(env, current, db, r, known);
    forall q | 0 <= q < |db.runs| && q != r ensures HonestRun(env, db'.runs[q], db'.stageRuns, q) {
      KeepsHonestRun(env, db.runs[q], db'.runs[q], db.stageRuns, db'.stageRuns, q);
    }
  }
}
