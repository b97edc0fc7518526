/** Where every pinned input version comes from, at the very tick that dispatched it. */
module Provenance {
  import opened Stages
  import opened Tables
  import opened Ticks
  import opened Evolution
  import opened Dispatching
  import opened RunInvariants
  import opened TickInvariants
  import opened Completion
  import opened Ledgers
  import opened ResourceStore
  import opened Protocol
  import opened ProtocolSafety
  import opened Guarantees

  /**
   * Version v of dependency d of run r when a tick dispatches a stage: the run's own pin, an output the run
   * had completed before the tick, or else the version that is current at this tick, for a stage that the
   * tick papers over or for a name that no stage produces.
   */
  ghost predicate InputAt(rows: seq<StageRun>, rows': seq<StageRun>, spec: Spec, r: nat, registered: set<string>,
                          current: Currents, d: string, v: nat) {
    if spec.startFrom.Some? && d in spec.pins then v == spec.pins[d]
    else
      || CompletedRow(rows, r, d, v)
      || (d in current && v == current[d] && (d !in registered || FallbackRow(rows', r, d)))
  }

  /**
   * The tick from `db` to `db'` created stage run i with exactly its dependencies as inputs, each from one of
   * these sources.
   */
  ghost predicate DispatchedWith(env: Env, db: Db, db': Db, current: Currents, i: nat)
    requires i < |db'.stageRuns|
  {
    var row := db'.stageRuns[i];
    row.run < |db'.runs| &&
    var spec := db'.runs[row.run].spec;
    Admit(env, spec).Admitted? &&
    var g := ByName(Admit(env, spec).order);
    && row.stage in g && row.stage in Admit(env, spec).reachable
    && row.inputs.Keys == (set d | d in g[row.stage].dependsOn)
    && forall d :: d in g[row.stage].dependsOn ==>
         InputAt(db.stageRuns, db'.stageRuns, spec, row.run, g.Keys, current, d, row.inputs[d])
  }

  // ---- one tick ------------------------------------------------------------

  ghost predicate NewSourced(env: Env, base: nat, db: Db, known: set<Ref>) {
    forall i :: base <= i < |db.stageRuns| ==> RowSourced(env, db.runs, db.stageRuns, known, i)
  }

  lemma {:induction false} ProgressListSources(env: Env, current: Currents, db: Db, rs: seq<nat>)
    requires forall i :: 0 <= i < |rs| ==> rs[i] < |db.runs|
    ensures NewSourced(env, |db.stageRuns|, ProgressList(env, current, db, rs), RefsOf(current))
    decreases |rs|
  {
    hide ProgressRun, NewSourced, RefsOf;
    if rs == [] {
      NothingNew(env, db, RefsOf(current));
    } else {
      var init, r := rs[..|rs| - 1], rs[|rs| - 1];
      ProgressListSources(env, current, db, init);
      var mid := ProgressList(env, current, db, init);
      if Active(mid.runs[r].status) { ProgressSources(env, current, |db.stageRuns|, mid, r); }
    }
  }

  lemma {:induction false} NothingNew(env: Env, db: Db, known: set<Ref>)
    ensures NewSourced(env, |db.stageRuns|, db, known)
  {
  }

  lemma {:induction false} ProgressSources(env: Env, current: Currents, base: nat, mid: Db, r: nat)
    requires r < |mid.runs| && Active(mid.runs[r].status)
    requires NewSourced(env, base, mid, RefsOf(current))
    ensures NewSourced(env, base, ProgressRun(env, current, mid, r), RefsOf(current))
  {
    hide ProgressRun, RowSourced, RefsOf, Progressed, KeepsDone;
    var db', known := ProgressRun(env, current, mid, r), RefsOf(current);
    ProgressRunProgressed(env, current, mid, r);
    ProgressedKeepsDone(mid, db');
    forall i | base <= i < |db'.stageRuns| ensures RowSourced(env, db'.runs, db'.stageRuns, known, i) {
      if i < |mid.stageRuns| {
        KeepsRowSourced(env, mid.runs, db'.runs, mid.stageRuns, db'.stageRuns, known, known, i);
      } else {
        NewRowSourced(env, current, mid, r, known, i);
      }
    }
  }

  /** A tick completes nothing, so what is completed after it was completed before. */
  lemma {:induction false} CompletedBefore(db: Db, db': Db, r: nat, d: string, v: nat)
    requires Ticked(db, db') && CompletedRow(db'.stageRuns, r, d, v)
    ensures CompletedRow(db.stageRuns, r, d, v)
  {
    var i :| 0 <= i < |db'.stageRuns| && db'.stageRuns[i].run == r && db'.stageRuns[i].stage == d
             && db'.stageRuns[i].status == Completed && db'.stageRuns[i].output == v;
    assert i < |db.stageRuns| ==> MarkedRow(db.stageRuns[i], db'.stageRuns[i]);
    assert i >= |db.stageRuns| ==> FreshRow(db'.stageRuns[i]);
  }

  lemma {:induction false} RefIsCurrent(current: Currents, d: string, v: nat)
    requires Ref(d, v) in RefsOf(current)
    ensures d in current && v == current[d]
  {
  }

  lemma {:induction false} SourceIsInput(db: Db, db': Db, spec: Spec, r: nat, registered: set<string>,
                    current: Currents, d: string, v: nat)
    requires Ticked(db, db') && Source(db'.stageRuns, spec, r, registered, RefsOf(current), d, v)
    ensures InputAt(db.stageRuns, db'.stageRuns, spec, r, registered, current, d, v)
  {
    hide Ticked, CompletedRow, FallbackRow, RefsOf;
    if !Pinned(spec, d) {
      if CompletedRow(db'.stageRuns, r, d, v) {
        CompletedBefore(db, db', r, d, v);
      } else {
        RefIsCurrent(current, d, v);
      }
    }
  }

  lemma {:induction false} TickDispatchesWith(env: Env, current: Currents, now: int, db: Db, i: nat)
    requires |db.stageRuns| <= i < |Tick(env, current, now, db).stageRuns|
    ensures DispatchedWith(env, db, Tick(env, current, now, db), current, i)
  {
    var taken, db' := Taken(env, now, db), Tick(env, current, now, db);
    TakenOnlyNewRuns(env, now, db);
    TickTicked(env, current, now, db);
    assert db' == ProgressList(env, current, taken, UpTo(|taken.runs|));
    hide Tick, Taken, ProgressList, Ticked, Admit, Source, InputAt;
    ProgressListSources(env, current, taken, UpTo(|taken.runs|));
    assert RowSourced(env, db'.runs, db'.stageRuns, RefsOf(current), i);
    var row := db'.stageRuns[i];
    var spec := db'.runs[row.run].spec;
    var g := ByName(Admit(env, spec).order);
    forall d | d in g[row.stage].dependsOn
      ensures InputAt(db.stageRuns, db'.stageRuns, spec, row.run, g.Keys, current, d, row.inputs[d])
    {
      SourceIsInput(db, db', spec, row.run, g.Keys, current, d, row.inputs[d]);
    }
  }

  // ---- every history -------------------------------------------------------

  /** A stage run appears only in a tick, with inputs from that tick. */
  lemma {:induction false} StepDispatchesWith(env: Env, contracts: Contracts, w: World, w': World, i: nat)
    requires Step(env, contracts, w, w') && |w.db.stageRuns| <= i < |w'.db.stageRuns|
    ensures IsTick(env, w, w')
    ensures DispatchedWith(env, w.db, w'.db, CurrentsOf(w.ledger), i)
  {
    hide Step, DispatchedWith;
    if now :| TickStep(env, w, w', now) {
      hide Tick;
      TickDispatchesWith(env, CurrentsOf(w.ledger), now, w.db, i);
    } else {
      NoTickAddsNothing(env, contracts, w, w');
    }
  }

  lemma {:induction false} OriginStays(w: World, w': World, i: nat)
    requires WorldMoves(w, w') && i < |w.db.stageRuns|
    ensures i < |w'.db.stageRuns| && w'.db.stageRuns[i].run == w.db.stageRuns[i].run
    ensures w'.db.stageRuns[i].stage == w.db.stageRuns[i].stage && w'.db.stageRuns[i].inputs == w.db.stageRuns[i].inputs
  {
    assert RowMoves(w.db.stageRuns[i], w'.db.stageRuns[i]);
  }

  /**
   * Pin provenance: each stage run was created by one tick, and ever since has had the inputs it got there:
   * exactly its dependencies, each from one of the four sources as they stood at that tick.
   */
  lemma {:induction false} PinProvenance(env: Env, contracts: Contracts, ws: seq<World>, t: nat, i: nat)
                    returns (u: nat)
    requires Behavior(env, contracts, ws) && t < |ws| && i < |ws[t].db.stageRuns|
    ensures u < t && |ws[u].db.stageRuns| <= i < |ws[u + 1].db.stageRuns|
    ensures IsTick(env, ws[u], ws[u + 1])
    ensures DispatchedWith(env, ws[u].db, ws[u + 1].db, CurrentsOf(ws[u].ledger), i)
    ensures var row, row' := ws[u + 1].db.stageRuns[i], ws[t].db.stageRuns[i];
            row'.run == row.run && row'.stage == row.stage && row'.inputs == row.inputs
    decreases t
  {
    hide Step, Inv, WorldMoves, IsTick, DispatchedWith;
    if t > 0 { assert Step(env, contracts, ws[t - 1], ws[t - 1 + 1]); }
    if t > 0 && i < |ws[t - 1].db.stageRuns| {
      u := PinProvenance(env, contracts, ws, t - 1, i);
      Reachable(env, contracts, ws, t - 1);
      StepMoves(env, contracts, ws[t - 1], ws[t]);
      OriginStays(ws[t - 1], ws[t], i);
    } else {
      assert t > 0;
      u := t - 1;
      StepDispatchesWith(env, contracts, ws[u], ws[u + 1], i);
    }
  }

  /** Whatever was current when it was pinned still exists, at every later time. */
  lemma {:induction false} PinnedVersionsExist(env: Env, contracts: Contracts, ws: seq<World>, t: nat, i: nat)
    requires Behavior(env, contracts, ws) && t < |ws| && i < |ws[t].db.stageRuns|
    ensures RowSourced(env, ws[t].db.runs, ws[t].db.stageRuns, ws[t].known, i)
    ensures forall x <- ws[t].known :: Exists(ws[t].ledger, x.name, x.version)
  {
    Reachable(env, contracts, ws, t);
    hide RowSourced, Honest, Behavior, Jobs, Lifecycle, OwnVersions, IdsOrdered, LineageDescends;
  }
}
