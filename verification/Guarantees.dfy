/** What the protocol guarantees over every history of the system. */
module Guarantees {
  import opened Stages
  import opened Tables
  import opened Ticks
  import opened Evolution
  import opened Dispatching
  import opened RunInvariants
  import opened Completion
  import opened Honesty
  import opened TickInvariants
  import opened Ledgers
  import opened ResourceStore
  import opened Runner
  import opened Protocol
  import opened ProtocolSafety
  import Dag

  // ---- end-to-end lineage --------------------------------------------------

  lemma {:induction false} AdmittedGraph(env: Env, spec: Spec)
    requires Admit(env, spec).Admitted?
    ensures spec.workflow in env.registries
    ensures ByName(Admit(env, spec).order) == ByName(env.registries[spec.workflow].stages)
  {
    Dag.TopologicalOrderCorrect(env.registries[spec.workflow].stages);
  }

  lemma {:induction false} StageIsDeclared(env: Env, db: Db, known: set<Ref>, i: nat)
    requires Sourced(env, db, known) && i < |db.stageRuns|
    ensures StageOf(env, db, i).name == db.stageRuns[i].stage
    ensures db.stageRuns[i].inputs.Keys == set d | d in StageOf(env, db, i).dependsOn
  {
    hide Admit, Source;
    assert RowSourced(env, db.runs, db.stageRuns, known, i);
    AdmittedGraph(env, db.runs[db.stageRuns[i].run].spec);
  }

  /**
   * Each completed stage run has exactly its dependencies pinned. Its output version exists, passed its
   * contract and records as its dependencies exactly those pins, in `depends_on` order, if and only if
   * the stage allows an attempt: with a negative retry count it completes without any version.
   */
  lemma {:induction false} EndToEndLineage(env: Env, contracts: Contracts, ws: seq<World>, t: nat, i: nat)
    requires Behavior(env, contracts, ws) && t < |ws| && i < |ws[t].db.stageRuns|
        && ws[t].db.stageRuns[i].status == Completed
    ensures var l, row, deps := ws[t].ledger, ws[t].db.stageRuns[i], StageOf(env, ws[t].db, i).dependsOn;
            && row.inputs.Keys == (set d | d in deps)
            && (StageOf(env, ws[t].db, i).retries < 0 ==> row.output == 0 && !Exists(l, row.stage, row.output))
            && (StageOf(env, ws[t].db, i).retries >= 0 ==>
                  && Exists(l, row.stage, row.output)
                  && var e := EntryOf(l, row.stage, row.output);
                     && e.error.None? && e.isTest == !row.promote
                     && e.deps == seq(|deps|, k requires 0 <= k < |deps| => Ref(deps[k], row.inputs[deps[k]])))
  {
    Reachable(env, contracts, ws, t);
    hide Sourced, Honest, Behavior, LedgerInv;
    var w := ws[t];
    StageIsDeclared(env, w.db, w.known, i);
    assert StatusFits(w.db.stageRuns[i], PhaseOf(w, i))
        && JobFits(w.ledger, JobOf(env, w.db, i), w.db.stageRuns[i], PhaseOf(w, i));
  }

  /** Recorded lineage leads to ever smaller version ids. */
  ghost predicate LineageChain(l: Ledger, chain: seq<Ref>) {
    && (forall k :: 0 <= k < |chain| ==> Exists(l, chain[k].name, chain[k].version))
    && forall k :: 0 <= k < |chain| - 1 ==> chain[k + 1] in EntryOf(l, chain[k].name, chain[k].version).deps
  }

  lemma {:induction false} ChainDescends(l: Ledger, chain: seq<Ref>, k: nat)
    requires LineageDescends(l) && LineageChain(l, chain) && 0 < k < |chain|
    ensures EntryOf(l, chain[k].name, chain[k].version).id < EntryOf(l, chain[0].name, chain[0].version).id
  {
    if k > 1 { ChainDescends(l, chain, k - 1); }
    var e := EntryOf(l, chain[k - 1].name, chain[k - 1].version);
    assert chain[k - 1 + 1] in e.deps;
    var i :| 0 <= i < |e.deps| && e.deps[i] == chain[k];
    assert Descends(l, e, e.deps[i]);
  }

  /** No sequence of runs can make recorded lineage cyclic. */
  lemma {:induction false} LineageAcyclic(env: Env, contracts: Contracts, ws: seq<World>, t: nat, chain: seq<Ref>)
    requires Behavior(env, contracts, ws) && t < |ws| && LineageChain(ws[t].ledger, chain) && |chain| >= 2
    ensures chain[0] != chain[|chain| - 1]
  {
    Reachable(env, contracts, ws, t);
    hide DbInv, Lifecycle, Jobs, OwnVersions, Behavior;
    ChainDescends(ws[t].ledger, chain, |chain| - 1);
  }

  // ---- versions are forever ------------------------------------------------

  lemma {:induction false} AttemptKeeps(contracts: Contracts, job: Job, l: Ledger, p: Phase, l': Ledger,
                    p': Phase) returns (n0: string, v0: nat)
    requires AttemptStep(contracts, job, l, p, l', p')
    ensures Keeps(l, l', n0, v0)
  {
    n0, v0 := "", 0;
    SameLedgerKeeps(l);
    if l' != l {
      match p {
        case Attempting(n) =>
          var value :| UploadStep(contracts, job, value, l, n, l', p');
          n0, v0 := job.stage, NextVersion(l, job.stage);
          AppendKeeps(l, job.stage, value, job.isTest, contracts[job.stage](value));
        case Stored(n, v) =>
          n0, v0 := job.stage, v;
          LinkKeeps(l, job.stage, v, job.refs);
        case Linked(n, v) =>
          n0, v0 := job.stage, 0;
          PromoteKeeps(l, job.stage, v);
        case _ =>
      }
    }
  }

  lemma {:induction false} StepKeepsLedger(env: Env, contracts: Contracts, w: World, w': World) returns (n0: string,
                    v0: nat)
    requires Step(env, contracts, w, w')
    ensures Keeps(w.ledger, w'.ledger, n0, v0)
  {
    n0, v0 := "", 0;
    SameLedgerKeeps(w.ledger);
    hide Keeps, Tick, JobOf, ClientStep, AttemptStep;
    if w'.ledger != w.ledger {
      if name, value, isTest :| InjectStep(contracts, w, w', name, value, isTest) {
        n0, v0 := name, NextVersion(w.ledger, name);
        AppendKeeps(w.ledger, name, value, isTest, contracts[name](value));
      } else if name, version :| RollbackStep(w, w', name, version) {
        n0, v0 := name, 0;
        PromoteKeeps(w.ledger, name, version);
      } else {
        ClientKeepsLedger(env, w, w');
        var i: nat :| WorkerStep(env, contracts, w, w', i);
        n0, v0 := AttemptKeeps(contracts, JobOf(env, w.db, i), w.ledger, w.phases[i], w'.ledger, w'.phases[i]);
      }
    }
  }

  lemma {:induction false} ClientKeepsLedger(env: Env, w: World, w': World)
    ensures ClientStep(env, w, w') ==> w'.ledger == w.ledger
  {
  }

  /**
   * An uploaded version keeps its value, flags, verdict and id for ever, and a resource once current stays
   * resolvable.
   */
  lemma {:induction false} VersionsAreForever(env: Env, contracts: Contracts, ws: seq<World>, t: nat, u: nat,
                    n: string, v: nat)
    requires Behavior(env, contracts, ws) && t <= u < |ws|
    ensures Exists(ws[t].ledger, n, v) ==>
              Exists(ws[u].ledger, n, v)
                  && EntryOf(ws[u].ledger, n, v).(deps := []) == EntryOf(ws[t].ledger, n, v).(deps := [])
    ensures HasCurrent(ws[t].ledger, n) ==> HasCurrent(ws[u].ledger, n)
    decreases u
  {
    hide Step, Init;
    if t < u {
      VersionsAreForever(env, contracts, ws, t, u - 1, n, v);
      assert Step(env, contracts, ws[u - 1], ws[u - 1 + 1]);
      var n0, v0 := StepKeepsLedger(env, contracts, ws[u - 1], ws[u]);
    }
  }

  // ---- exactly-once dispatch and write-once lifecycle ---------------------

  /** Each (run, stage) has at most one stage run, and each stage run exactly one message, ever. */
  lemma {:induction false} ExactlyOnce(env: Env, contracts: Contracts, ws: seq<World>, t: nat, i: nat, j: nat)
    requires Behavior(env, contracts, ws) && t < |ws| && i < j < |ws[t].db.stageRuns|
    ensures var db := ws[t].db;
            && !(db.stageRuns[i].run == db.stageRuns[j].run && db.stageRuns[i].stage == db.stageRuns[j].stage)
            && |db.enqueued| == |db.stageRuns|
            && db.enqueued[i].stageRun == i && db.enqueued[j].stageRun == j
            && db.enqueued[i].inputs == db.stageRuns[i].inputs && db.enqueued[i].stage == db.stageRuns[i].stage
  {
    Reachable(env, contracts, ws, t);
    hide Sourced, Honest, Behavior, LedgerInv, Jobs, Lifecycle, OwnVersions;
    assert MessageFor(ws[t].db, i) && MessageFor(ws[t].db, j);
  }

  /** requested -> running -> completed or failed; a finished stage run never changes, save for the fallback mark. */
  predicate RowMoves(row: StageRun, row': StageRun) {
    && row'.run == row.run && row'.stage == row.stage && row'.inputs == row.inputs && row'.promote == row.promote
    && (|| MarkedRow(row, row')
        || (row.status == Requested && row' == row.(status := Running))
        || (row.status == Running && (row'.status == Completed || row'.status == Failed)
            && row'.usedFallback == row.usedFallback))
  }

  ghost predicate WorldMoves(w: World, w': World) {
    && |w.db.runs| <= |w'.db.runs| && (forall r :: 0 <= r < |w.db.runs| ==> LaterRun(w.db.runs[r], w'.db.runs[r]))
    && |w.db.stageRuns| <= |w'.db.stageRuns|
    && (forall i :: 0 <= i < |w.db.stageRuns| ==> RowMoves(w.db.stageRuns[i], w'.db.stageRuns[i]))
    && w.db.enqueued <= w'.db.enqueued
    && |w.phases| <= |w'.phases|
  }

  lemma {:induction false} TickMoves(env: Env, w: World, w': World, now: int)
    requires TickStep(env, w, w', now)
    ensures WorldMoves(w, w')
  {
    TickTicked(env, CurrentsOf(w.ledger), now, w.db);
    hide Tick;
    forall i | 0 <= i < |w.db.stageRuns| ensures MarkedRow(w.db.stageRuns[i], w'.db.stageRuns[i]) {}
  }

  lemma {:induction false} WorkerMoves(env: Env, contracts: Contracts, w: World, w': World, i: nat)
    requires Lifecycle(w) && WorkerStep(env, contracts, w, w', i)
    ensures WorldMoves(w, w')
  {
    hide JobOf, AttemptStep;
    assert StatusFits(w.db.stageRuns[i], PhaseOf(w, i));
  }

  lemma {:induction false} ClientMoves(env: Env, w: World, w': World)
    requires ClientStep(env, w, w')
    ensures WorldMoves(w, w')
  {
  }

  /** Although the callbacks check no status, every step of the protocol moves every status forwards only. */
  lemma {:induction false} StepMoves(env: Env, contracts: Contracts, w: World, w': World)
    requires Inv(env, w) && Step(env, contracts, w, w')
    ensures WorldMoves(w, w')
  {
    hide DbInv, LedgerInv, Jobs, OwnVersions, TickStep, ClientStep, WorkerStep, WorldMoves;
    if now :| TickStep(env, w, w', now) {
      TickMoves(env, w, w', now);
    } else if ClientStep(env, w, w') {
      ClientMoves(env, w, w');
    } else if i: nat :| WorkerStep(env, contracts, w, w', i) {
      WorkerMoves(env, contracts, w, w', i);
    } else {
      SameDbMoves(w, w');
    }
  }

  /** Only a tick creates stage runs. */
  lemma {:induction false} NoTickAddsNothing(env: Env, contracts: Contracts, w: World, w': World)
    requires Step(env, contracts, w, w') && forall now :: !TickStep(env, w, w', now)
    ensures |w'.db.stageRuns| == |w.db.stageRuns|
  {
    hide TickStep, JobOf, AttemptStep;
  }

  lemma {:induction false} SameDbMoves(w: World, w': World)
    requires w'.db == w.db && |w.phases| <= |w'.phases|
    ensures WorldMoves(w, w')
  {
  }

  lemma {:induction false} FinishedStays(w: World, w': World, i: nat)
    requires WorldMoves(w, w') && i < |w.db.stageRuns|
    requires w.db.stageRuns[i].status == Completed || w.db.stageRuns[i].status == Failed
    ensures i < |w'.db.stageRuns| && MarkedRow(w.db.stageRuns[i], w'.db.stageRuns[i])
  {
    assert RowMoves(w.db.stageRuns[i], w'.db.stageRuns[i]);
  }

  /**
   * What a stage run reported is written once: no later callback, tick or request changes it, save for the
   * fallback mark.
   */
  lemma {:induction false} ReportedForever(env: Env, contracts: Contracts, ws: seq<World>, t: nat, u: nat, i: nat)
    requires Behavior(env, contracts, ws) && t <= u < |ws| && i < |ws[t].db.stageRuns|
    requires ws[t].db.stageRuns[i].status == Completed || ws[t].db.stageRuns[i].status == Failed
    ensures i < |ws[u].db.stageRuns|
    ensures if ws[t].db.stageRuns[i].status == Completed then ws[u].db.stageRuns[i] == ws[t].db.stageRuns[i]
            else ws[u].db.stageRuns[i].(usedFallback := false) == ws[t].db.stageRuns[i].(usedFallback := false)
    decreases u
  {
    hide Step, Init, Inv, WorldMoves;
    if t < u {
      ReportedForever(env, contracts, ws, t, u - 1, i);
      Reachable(env, contracts, ws, u - 1);
      assert Step(env, contracts, ws[u - 1], ws[u - 1 + 1]);
      StepMoves(env, contracts, ws[u - 1], ws[u]);
      FinishedStays(ws[u - 1], ws[u], i);
    }
  }

  /** What was asked of a run never changes. */
  lemma {:induction false} RequestStays(env: Env, contracts: Contracts, ws: seq<World>, t: nat, u: nat, r: nat)
    requires Behavior(env, contracts, ws) && t <= u < |ws| && r < |ws[t].db.runs|
    ensures r < |ws[u].db.runs|
    ensures ws[u].db.runs[r].spec == ws[t].db.runs[r].spec && ws[u].db.runs[r].promote == ws[t].db.runs[r].promote
    decreases u
  {
    hide Step, Init, Inv;
    if t < u {
      RequestStays(env, contracts, ws, t, u - 1, r);
      Reachable(env, contracts, ws, u - 1);
      assert Step(env, contracts, ws[u - 1], ws[u - 1 + 1]);
      StepMoves(env, contracts, ws[u - 1], ws[u]);
      assert LaterRun(ws[u - 1].db.runs[r], ws[u].db.runs[r]);
    }
  }

  // ---- coherent inputs -----------------------------------------------------

  /**
   * Any two stage runs of a run that consume the same completed stage, unpinned, get the very version
   * that this stage run produced, whatever ticks dispatched them.
   */
  lemma {:induction false} DiamondCoherence(env: Env, contracts: Contracts, ws: seq<World>, t: nat, i: nat,
                    d: string, v: nat)
    requires Behavior(env, contracts, ws) && t < |ws| && i < |ws[t].db.stageRuns|
    requires var db, row := ws[t].db, ws[t].db.stageRuns[i];
             && row.run < |db.runs| && !Pinned(db.runs[row.run].spec, d)
             && d in row.inputs && CompletedRow(db.stageRuns, row.run, d, v)
    ensures ws[t].db.stageRuns[i].inputs[d] == v
  {
    Reachable(env, contracts, ws, t);
    hide Honest, Behavior, LedgerInv, Jobs, Lifecycle, OwnVersions, Admit;
    var db, row := ws[t].db, ws[t].db.stageRuns[i];
    var spec := db.runs[row.run].spec;
    assert RowSourced(env, db.runs, db.stageRuns, ws[t].known, i);
    var g := ByName(Admit(env, spec).order);
    assert Source(db.stageRuns, spec, row.run, g.Keys, ws[t].known, d, row.inputs[d]);
    var k :| 0 <= k < |db.stageRuns| && db.stageRuns[k].run == row.run && db.stageRuns[k].stage == d
        && db.stageRuns[k].status == Completed && db.stageRuns[k].output == v;
    assert RowSourced(env, db.runs, db.stageRuns, ws[t].known, k);
    OneRowPerStage(db.stageRuns, row.run, d, k, row.inputs[d]);
  }

  lemma {:induction false} OneRowPerStage(rows: seq<StageRun>, r: nat, d: string, k: nat, v: nat)
    requires OncePerStage(rows) && k < |rows| && rows[k].run == r && rows[k].stage == d && rows[k].status == Completed
    ensures !FallbackRow(rows, r, d)
    ensures CompletedRow(rows, r, d, v) ==> v == rows[k].output
  {
  }

  // ---- honest completion ---------------------------------------------------

  /**
   * A completed run has every reachable stage finished or pinned, or its last stage with all that it needed and
   * nobody pinned.
   */
  lemma {:induction false} CompletionIsSettled(env: Env, contracts: Contracts, ws: seq<World>, t: nat, r: nat)
    requires Behavior(env, contracts, ws) && t < |ws| && r < |ws[t].db.runs| && ws[t].db.runs[r].status == Completed
    ensures var spec := ws[t].db.runs[r].spec;
            var a := Admit(env, spec);
            a.Admitted? && RangeSettled(ws[t].db.stageRuns, r, ByName(a.order), a.reachable, spec)
  {
    Reachable(env, contracts, ws, t);
    hide Sourced, Admit, Behavior, Jobs, Lifecycle, OwnVersions, LedgerInv, RangeSettled;
    assert HonestRun(env, ws[t].db.runs[r], ws[t].db.stageRuns, r);
  }

  /** If no pin does harm, a completed run has its whole range completed or visibly fallen back. */
  lemma {:induction false} HonestCompletion(env: Env, contracts: Contracts, ws: seq<World>, t: nat, r: nat)
    requires Behavior(env, contracts, ws) && t < |ws| && r < |ws[t].db.runs| && ws[t].db.runs[r].status == Completed
    requires var a := Admit(env, ws[t].db.runs[r].spec);
             a.Admitted? ==> Harmless(ByName(a.order), a.reachable, ws[t].db.runs[r].spec)
    ensures var spec := ws[t].db.runs[r].spec;
            var a := Admit(env, spec);
            a.Admitted? && RangeFinished(ws[t].db.stageRuns, r, ByName(a.order), a.reachable, spec)
  {
    CompletionIsSettled(env, contracts, ws, t, r);
    Reachable(env, contracts, ws, t);
    var w := ws[t];
    assert Sourced(env, w.db, w.known);
    hide *;
    HarmlessIsFinished(env, w.db, w.known, r);
  }

  // ---- promotion and fallback ---------------------------------------------

  /** The one step that can make an invalid version current: a client promoting it. */
  ghost predicate PromotesInvalid(w: World, w': World) {
    exists name, version :: RollbackStep(w, w', name, version) && EntryOf(w.ledger, name, version).error.Some?
  }

  lemma {:induction false} ValidAfterKeep(l: Ledger, l': Ledger, n0: string, v0: nat)
    requires CurrentsValid(l) && Keeps(l, l', n0, v0) && forall n :: HistoryOf(l', n).current == HistoryOf(l, n).current
    ensures CurrentsValid(l')
  {
    forall n | HasCurrent(l', n)
      ensures Exists(l', n, HistoryOf(l', n).current) && EntryOf(l', n, HistoryOf(l', n).current).error.None?
    {
      assert HasCurrent(l, n) && Exists(l, n, HistoryOf(l, n).current);
    }
  }

  lemma {:induction false} ValidAfterAppend(l: Ledger, name: string, value: Value, isTest: bool, error: Option<string>)
    requires CurrentsValid(l)
    ensures CurrentsValid(Ledgers.Append(l, name, value, isTest, error))
  {
    AppendKeeps(l, name, value, isTest, error);
    forall n ensures HistoryOf(Ledgers.Append(l, name, value, isTest, error), n).current == HistoryOf(l, n).current {
      AppendAt(l, name, value, isTest, error, n, 1);
    }
    ValidAfterKeep(l, Ledgers.Append(l, name, value, isTest, error), name, NextVersion(l, name));
  }

  lemma {:induction false} ValidAfterLink(l: Ledger, name: string, version: nat, deps: seq<Ref>)
    requires CurrentsValid(l) && Exists(l, name, version)
    ensures CurrentsValid(Link(l, name, version, deps))
  {
    LinkKeeps(l, name, version, deps);
    forall n ensures HistoryOf(Link(l, name, version, deps), n).current == HistoryOf(l, n).current {
      LinkAt(l, name, version, deps, n, 1);
    }
    ValidAfterKeep(l, Link(l, name, version, deps), name, version);
  }

  /** Promotion alone checks nothing: it keeps every current version valid exactly when its target is valid. */
  lemma {:induction false} PromoteKeepsValidIff(l: Ledger, name: string, version: nat)
    requires CurrentsValid(l) && Exists(l, name, version)
    ensures CurrentsValid(Promote(l, name, version)) <==> EntryOf(l, name, version).error.None?
  {
    var l' := Promote(l, name, version);
    PromoteAt(l, name, version, name, version);
    forall n | HasCurrent(l', n) && (n != name || EntryOf(l, name, version).error.None?)
      ensures Exists(l', n, HistoryOf(l', n).current) && EntryOf(l', n, HistoryOf(l', n).current).error.None?
    {
      PromoteAt(l, name, version, n, HistoryOf(l', n).current);
      assert n != name ==> HasCurrent(l, n) && Exists(l, n, HistoryOf(l, n).current);
    }
    if CurrentsValid(l') { assert HasCurrent(l', name); }
  }

  lemma {:induction false} AttemptPromotesValid(contracts: Contracts, job: Job, row: StageRun, l: Ledger, p: Phase,
                    l': Ledger, p': Phase)
    requires CurrentsValid(l) && JobFits(l, job, row, p) && AttemptStep(contracts, job, l, p, l', p')
    ensures CurrentsValid(l')
  {
    hide CurrentsValid;
    if l' != l {
      match p {
        case Attempting(n) =>
          var value :| UploadStep(contracts, job, value, l, n, l', p');
          ValidAfterAppend(l, job.stage, value, job.isTest, contracts[job.stage](value));
        case Stored(n, v) => ValidAfterLink(l, job.stage, v, job.refs);
        case Linked(n, v) => PromoteKeepsValidIff(l, job.stage, v);
        case _ =>
      }
    }
  }

  /**
   * Every step but a client's promotion of an invalid version keeps all current versions valid; that step never
   * does.
   */
  lemma {:induction false} SafePromotion(env: Env, contracts: Contracts, w: World, w': World)
    requires Inv(env, w) && Step(env, contracts, w, w') && CurrentsValid(w.ledger)
    ensures PromotesInvalid(w, w') ==> !CurrentsValid(w'.ledger)
    ensures !PromotesInvalid(w, w') ==> CurrentsValid(w'.ledger)
  {
    hide DbInv, LedgerInv, OwnVersions, Lifecycle, CurrentsValid, Tick, JobOf, ClientStep, JobFits, AttemptStep;
    if name, version :| RollbackStep(w, w', name, version) && EntryOf(w.ledger, name, version).error.Some? {
      PromoteKeepsValidIff(w.ledger, name, version);
    } else if w'.ledger != w.ledger {
      if name, value, isTest :| InjectStep(contracts, w, w', name, value, isTest) {
        ValidAfterAppend(w.ledger, name, value, isTest, contracts[name](value));
      } else if name, version :| RollbackStep(w, w', name, version) {
        PromoteKeepsValidIff(w.ledger, name, version);
      } else {
        ClientKeepsLedger(env, w, w');
        var i: nat :| WorkerStep(env, contracts, w, w', i);
        assert PhaseOf(w, i) == w.phases[i];
        assert JobFits(w.ledger, JobOf(env, w.db, i), w.db.stageRuns[i], w.phases[i]);
        AttemptPromotesValid(contracts, JobOf(env, w.db, i), w.db.stageRuns[i], w.ledger, w.phases[i], w'.ledger,
            w'.phases[i]);
      }
    }
  }

  /** Hence every current version was valid all along if and only if no client ever promoted an invalid one. */
  lemma {:induction false} CurrentsValidIff(env: Env, contracts: Contracts, ws: seq<World>, t: nat)
    requires Behavior(env, contracts, ws) && t < |ws|
    ensures (forall u :: 0 <= u <= t ==> CurrentsValid(ws[u].ledger))
        <==> (forall u :: 0 <= u < t ==> !PromotesInvalid(ws[u], ws[u + 1]))
  {
    hide Step, Inv, CurrentsValid, PromotesInvalid;
    if t == 0 {
      InitValid(ws[0]);
    } else {
      CurrentsValidIff(env, contracts, ws, t - 1);
      Reachable(env, contracts, ws, t - 1);
      assert Step(env, contracts, ws[t - 1], ws[t - 1 + 1]);
      if CurrentsValid(ws[t - 1].ledger) { SafePromotion(env, contracts, ws[t - 1], ws[t]); }
      assert ws[t - 1 + 1] == ws[t];
    }
  }

  lemma {:induction false} InitValid(w: World)
    requires Init(w)
    ensures CurrentsValid(w.ledger)
  {
  }

  /** A fallback that succeeded succeeds again on every later tick that still finds that failure first. */
  lemma {:induction false} FallbackPersists(env: Env, contracts: Contracts, ws: seq<World>, t: nat, r: nat)
    requires Behavior(env, contracts, ws) && t < |ws| && r < |ws[t].db.runs|
    requires var failed := FailedOf(Records(ws[t].db.stageRuns, r)); failed != [] && failed[0].row.usedFallback
    ensures var spec, records := ws[t].db.runs[r].spec, Records(ws[t].db.stageRuns, r);
            var a := Admit(env, spec);
            && a.Admitted? && a.policy == Fallback
            && Judge(spec, records, a.order, a.reachable, a.policy, CurrentsOf(ws[t].ledger)).fallback
                == Some(FailedOf(records)[0])
  {
    Reachable(env, contracts, ws, t);
    hide Sourced, Honest, Behavior, Jobs, Lifecycle, OwnVersions, Admit, IdsOrdered, LineageDescends;
    var db := ws[t].db;
    var first := FailedOf(Records(db.stageRuns, r))[0];
    FailedMembers(Records(db.stageRuns, r), first);
    RecordsMembers(db.stageRuns, r, first);
    assert FallbackMark(env, db.runs, db.stageRuns[first.id], ws[t].known);
    var v :| Ref(first.row.stage, v) in ws[t].known;
    assert HasCurrent(ws[t].ledger, first.row.stage);
  }
}
