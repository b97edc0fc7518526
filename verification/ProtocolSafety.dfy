/** Every step of the protocol keeps the invariant, so every reachable world satisfies it. */
module ProtocolSafety {
  import opened Stages
  import opened Tables
  import opened Ticks
  import opened Evolution
  import opened Dispatching
  import opened RunInvariants
  import opened Completion
  import opened TickInvariants
  import opened Ledgers
  import opened ResourceStore
  import opened Runner
  import opened Protocol

  // ---- the ledger ----------------------------------------------------------

  lemma {:induction false} MadeKept(l: Ledger, l': Ledger, n0: string, v0: nat, job: Job, v: nat)
    requires Keeps(l, l', n0, v0) && Made(l, job, v)
    ensures Made(l', job, v)
    ensures !(job.stage == n0 && v == v0) && Recorded(l, job, v) ==> Recorded(l', job, v)
  {
  }

  lemma {:induction false} RefsKept(l: Ledger, l': Ledger, n0: string, v0: nat, refs: seq<Ref>)
    requires Keeps(l, l', n0, v0) && AllExist(l, refs)
    ensures AllExist(l', refs)
  {
  }

  /** A job's facts survive any step on the ledger that does not relink the version it holds. */
  lemma {:induction false} JobKept(l: Ledger, l': Ledger, n0: string, v0: nat, job: Job, row: StageRun, p: Phase)
    requires Keeps(l, l', n0, v0) && JobFits(l, job, row, p)
    requires job.stage == n0 ==> Held(row, p) != Some(v0)
    ensures JobFits(l', job, row, p)
  {
    RecordedIsPositive(l, job, row.output);
    hide Keeps, Made, AllExist;
    match p {
      case Attempting(_) => RefsKept(l, l', n0, v0, job.refs);
      case Stored(_, v) => MadeKept(l, l', n0, v0, job, v);
      case Linked(_, v) => RecordedKept(l, l', n0, v0, job, v);
      case Succeeded(_, v) => RecordedKept(l, l', n0, v0, job, v);
      case Reported => if row.status == Completed && job.retries >= 0 { RecordedKept(l, l', n0, v0, job, row.output); }
      case _ =>
    }
  }

  lemma {:induction false} RecordedIsPositive(l: Ledger, job: Job, v: nat)
    ensures Recorded(l, job, v) ==> v > 0
  {
  }

  lemma {:induction false} RecordedKept(l: Ledger, l': Ledger, n0: string, v0: nat, job: Job, v: nat)
    requires Keeps(l, l', n0, v0) && Recorded(l, job, v) && !(job.stage == n0 && v == v0)
    ensures Recorded(l', job, v)
  {
    MadeKept(l, l', n0, v0, job, v);
  }

  lemma {:induction false} KnownKept(l: Ledger, l': Ledger, n0: string, v0: nat, known: set<Ref>)
    requires Keeps(l, l', n0, v0) && LedgerInv(l, known)
    requires IdsOrdered(l') && LineageDescends(l')
    requires forall n :: HasCurrent(l', n) ==> Exists(l', n, HistoryOf(l', n).current)
    ensures LedgerInv(l', known + RefsOf(CurrentsOf(l')))
  {
    hide IdsOrdered, LineageDescends;
    var known' := known + RefsOf(CurrentsOf(l'));
    forall x | x in known' ensures Exists(l', x.name, x.version) && HasCurrent(l', x.name) {
      if x in known {
        assert Exists(l, x.name, x.version) && HasCurrent(l, x.name);
      } else {
        assert HasCurrent(l', x.name) && x.version == HistoryOf(l', x.name).current;
      }
    }
  }

  lemma {:induction false} CurrentExists(l: Ledger, known: set<Ref>, n: string)
    requires LedgerInv(l, known) && HasCurrent(l, n)
    ensures Exists(l, n, HistoryOf(l, n).current)
  {
    hide IdsOrdered, LineageDescends;
    assert n in CurrentsOf(l);
    assert Ref(n, HistoryOf(l, n).current) in RefsOf(CurrentsOf(l));
  }

  lemma {:induction false} AppendLedgerInv(l: Ledger, known: set<Ref>, name: string, value: Value, isTest: bool,
                    error: Option<string>)
    requires LedgerInv(l, known)
    ensures var l' := Ledgers.Append(l, name, value, isTest, error); LedgerInv(l', known + RefsOf(CurrentsOf(l')))
  {
    var l' := Ledgers.Append(l, name, value, isTest, error);
    AppendKeeps(l, name, value, isTest, error);
    AppendIds(l, name, value, isTest, error);
    AppendLineage(l, name, value, isTest, error);
    forall n | HasCurrent(l', n) ensures Exists(l', n, HistoryOf(l', n).current) {
      AppendAt(l, name, value, isTest, error, n, HistoryOf(l, n).current);
      CurrentExists(l, known, n);
    }
    hide LedgerInv, Keeps;
    KnownKept(l, l', name, NextVersion(l, name), known);
  }

  lemma {:induction false} LinkLedgerInv(l: Ledger, known: set<Ref>, name: string, version: nat, refs: seq<Ref>)
    requires LedgerInv(l, known) && Exists(l, name, version)
    requires forall i :: 0 <= i < |refs| ==> Descends(l, EntryOf(l, name, version), refs[i])
    ensures var l' := Link(l, name, version, refs); LedgerInv(l', known + RefsOf(CurrentsOf(l')))
  {
    var l' := Link(l, name, version, refs);
    LinkKeeps(l, name, version, refs);
    LinkIds(l, name, version, refs);
    LinkLineage(l, name, version, refs);
    forall n | HasCurrent(l', n) ensures Exists(l', n, HistoryOf(l', n).current) {
      LinkAt(l, name, version, refs, n, HistoryOf(l, n).current);
      CurrentExists(l, known, n);
    }
    hide LedgerInv, Keeps;
    KnownKept(l, l', name, version, known);
  }

  lemma {:induction false} PromoteLedgerInv(l: Ledger, known: set<Ref>, name: string, version: nat)
    requires LedgerInv(l, known) && Exists(l, name, version)
    ensures var l' := Promote(l, name, version); LedgerInv(l', known + RefsOf(CurrentsOf(l')))
  {
    var l' := Promote(l, name, version);
    PromoteKeeps(l, name, version);
    PromoteIds(l, name, version);
    PromoteLineage(l, name, version);
    forall n | HasCurrent(l', n) ensures Exists(l', n, HistoryOf(l', n).current) {
      PromoteAt(l, name, version, n, HistoryOf(l', n).current);
      if n != name { CurrentExists(l, known, n); }
    }
    hide LedgerInv, Keeps;
    KnownKept(l, l', name, 0, known);
  }

  lemma {:induction false} SameLedgerInv(l: Ledger, known: set<Ref>)
    requires LedgerInv(l, known)
    ensures known + RefsOf(CurrentsOf(l)) == known
  {
  }

  // ---- the tables ----------------------------------------------------------

  /** A step that leaves what a stage run was created with, and the requests of runs, alone. */
  ghost predicate SameOrigins(db: Db, db': Db) {
    && |db.runs| <= |db'.runs| && (forall r :: 0 <= r < |db.runs| ==> db'.runs[r].spec == db.runs[r].spec)
    && |db.stageRuns| <= |db'.stageRuns|
    && forall i :: 0 <= i < |db.stageRuns| ==>
         && db'.stageRuns[i].run == db.stageRuns[i].run && db'.stageRuns[i].stage == db.stageRuns[i].stage
         && db'.stageRuns[i].inputs == db.stageRuns[i].inputs && db'.stageRuns[i].promote == db.stageRuns[i].promote
  }

  lemma {:induction false} SameJob(env: Env, db: Db, db': Db, i: nat)
    requires SameOrigins(db, db') && i < |db.stageRuns| && db.stageRuns[i].run < |db.runs|
    ensures JobOf(env, db', i) == JobOf(env, db, i)
  {
  }

  lemma {:induction false} OldMessagesKept(db: Db, db': Db)
    requires OneMessageEach(db) && SameOrigins(db, db')
    requires |db'.stageRuns| == |db.stageRuns| && db'.enqueued == db.enqueued
    ensures OneMessageEach(db')
  {
    forall i | 0 <= i < |db'.stageRuns| ensures MessageFor(db', i) { assert MessageFor(db, i); }
  }

  lemma {:induction false} SourcedKept(env: Env, db: Db, db': Db, known: set<Ref>, known': set<Ref>)
    requires Sourced(env, db, known) && SameOrigins(db, db') && KeepsDone(db.stageRuns, db'.stageRuns)
        && known <= known'
    requires |db'.stageRuns| == |db.stageRuns|
    ensures Sourced(env, db', known')
  {
    hide RowSourced, KeepsDone;
    forall i | 0 <= i < |db'.stageRuns| ensures RowSourced(env, db'.runs, db'.stageRuns, known', i) {
      KeepsRowSourced(env, db.runs, db'.runs, db.stageRuns, db'.stageRuns, known, known', i);
    }
  }

  lemma {:induction false} HonestKept(env: Env, db: Db, db': Db)
    requires Honest(env, db) && KeepsDone(db.stageRuns, db'.stageRuns)
    requires |db'.runs| == |db.runs|
    requires forall r :: 0 <= r < |db.runs|
                         ==> db'.runs[r].spec == db.runs[r].spec && db'.runs[r].status == db.runs[r].status
    ensures Honest(env, db')
  {
    hide HonestRun, KeepsDone;
    forall r | 0 <= r < |db'.runs| ensures HonestRun(env, db'.runs[r], db'.stageRuns, r) {
      KeepsHonestRun(env, db.runs[r], db'.runs[r], db.stageRuns, db'.stageRuns, r);
    }
  }

  /** The common shape of client and worker steps: no new rows, run statuses as before. */
  lemma {:induction false} QuietDbInv(env: Env, db: Db, db': Db, known: set<Ref>, known': set<Ref>)
    requires DbInv(env, db, known) && SameOrigins(db, db') && KeepsDone(db.stageRuns, db'.stageRuns) && known <= known'
    requires |db'.stageRuns| == |db.stageRuns| && db'.enqueued == db.enqueued && |db'.runs| == |db.runs|
    requires forall r :: 0 <= r < |db.runs| ==> db'.runs[r].status == db.runs[r].status
    requires CancelHonoured(db')
    requires forall i :: 0 <= i < |db.stageRuns| ==> db'.stageRuns[i].usedFallback == db.stageRuns[i].usedFallback
    ensures DbInv(env, db', known')
  {
    hide Sourced, Honest, OneMessageEach, KeepsDone, CancelHonoured, FallbackMark;
    forall i | 0 <= i < |db'.stageRuns| ensures FallbackMark(env, db'.runs, db'.stageRuns[i], known') {
      FallbackMarkKept(env, db.runs, db'.runs, db.stageRuns[i], db'.stageRuns[i], known, known');
    }
    OldMessagesKept(db, db');
    SourcedKept(env, db, db', known, known');
    HonestKept(env, db, db');
  }

  lemma {:induction false} MoreKnown(env: Env, db: Db, known: set<Ref>, known': set<Ref>)
    requires DbInv(env, db, known) && known <= known'
    ensures DbInv(env, db, known')
  {
    hide Sourced, Honest, OneMessageEach, CancelHonoured, KeepsDone, FallbackMark;
    SameDone(db.stageRuns);
    forall i | 0 <= i < |db.stageRuns| ensures FallbackMark(env, db.runs, db.stageRuns[i], known') {
      FallbackMarkKept(env, db.runs, db.runs, db.stageRuns[i], db.stageRuns[i], known, known');
    }
    SourcedKept(env, db, db, known, known');
  }

  lemma {:induction false} SameDone(rows: seq<StageRun>)
    ensures KeepsDone(rows, rows)
  {
  }

  lemma {:induction false} RowBelongs(env: Env, db: Db, known: set<Ref>, i: nat)
    requires DbInv(env, db, known) && i < |db.stageRuns|
    ensures db.stageRuns[i].run < |db.runs|
  {
    hide Sourced, Honest;
    assert MessageFor(db, i);
  }

  // ---- ticks ---------------------------------------------------------------

  lemma {:induction false} TickedOrigins(db: Db, db': Db)
    requires Ticked(db, db')
    ensures SameOrigins(db, db')
  {
    forall i | 0 <= i < |db.stageRuns| ensures MarkedRow(db.stageRuns[i], db'.stageRuns[i]) {}
    forall r | 0 <= r < |db.runs| ensures LaterRun(db.runs[r], db'.runs[r]) {}
  }

  lemma {:induction false} TickKeepsWorkers(env: Env, w: World, w': World)
    requires Inv(env, w) && Ticked(w.db, w'.db) && w'.phases == w.phases && w'.ledger == w.ledger
    ensures Lifecycle(w') && Jobs(env, w') && OwnVersions(w')
  {
    hide DbInv, LedgerInv, Made, Recorded, JobOf;
    var db, db' := w.db, w'.db;
    TickedOrigins(db, db');
    forall i | 0 <= i < |db'.stageRuns|
      ensures StatusFits(db'.stageRuns[i], PhaseOf(w', i))
          && JobFits(w'.ledger, JobOf(env, db', i), db'.stageRuns[i], PhaseOf(w', i))
    {
      if i < |db.stageRuns| {
        assert MarkedRow(db.stageRuns[i], db'.stageRuns[i]) && StatusFits(db.stageRuns[i], PhaseOf(w, i));
        assert JobFits(w.ledger, JobOf(env, db, i), db.stageRuns[i], PhaseOf(w, i));
        RowBelongs(env, db, w.known, i);
        SameJob(env, db, db', i);
      } else {
        assert FreshRow(db'.stageRuns[i]);
      }
    }
    TickKeepsVersions(w, w');
  }

  lemma {:induction false} TickKeepsVersions(w: World, w': World)
    requires OwnVersions(w) && Lifecycle(w) && Ticked(w.db, w'.db) && w'.phases == w.phases
    ensures OwnVersions(w')
  {
    var db, db' := w.db, w'.db;
    forall i | 0 <= i < |db'.stageRuns|
      ensures Held(db'.stageRuns[i], PhaseOf(w', i)) ==
                if i < |db.stageRuns| then Held(db.stageRuns[i], PhaseOf(w, i)) else None
      ensures i < |db.stageRuns| ==> db'.stageRuns[i].stage == db.stageRuns[i].stage
    {
      if i < |db.stageRuns| { assert MarkedRow(db.stageRuns[i], db'.stageRuns[i]); }
    }
  }

  lemma {:induction false} TickStepInv(env: Env, w: World, w': World, now: int)
    requires Inv(env, w) && TickStep(env, w, w', now) && w'.known == w.known + RefsOf(CurrentsOf(w'.ledger))
    ensures Inv(env, w')
  {
    SameLedgerInv(w.ledger, w.known);
    TickTicked(env, CurrentsOf(w.ledger), now, w.db);
    TickKeepsWorkers(env, w, w');
    hide DbInv, Lifecycle, Jobs, OwnVersions, Tick;
    TickInv(env, CurrentsOf(w.ledger), now, w.db, w.known);
  }

  // ---- clients and the queue ----------------------------------------------

  lemma {:induction false} ClientOrigins(env: Env, w: World, w': World)
    requires ClientStep(env, w, w') && CancelHonoured(w.db)
    ensures SameOrigins(w.db, w'.db) && CancelHonoured(w'.db)
    ensures w'.db.stageRuns == w.db.stageRuns && w'.db.enqueued == w.db.enqueued && |w'.db.runs| == |w.db.runs|
    ensures forall r :: 0 <= r < |w.db.runs| ==> w'.db.runs[r].status == w.db.runs[r].status
  {
  }

  lemma {:induction false} SameRowsKeepWorkers(env: Env, w: World, w': World)
    requires Inv(env, w) && SameOrigins(w.db, w'.db) && w'.db.stageRuns == w.db.stageRuns
    requires w'.ledger == w.ledger
    requires w'.phases == w.phases || (|w.phases| < |w.db.stageRuns| && w'.phases == w.phases + [Popped])
    ensures Lifecycle(w') && Jobs(env, w') && OwnVersions(w')
  {
    hide DbInv, LedgerInv, JobFits, Held, JobOf, StatusFits;
    forall i ensures PhaseOf(w', i) == PhaseOf(w, i) {}
    forall i | 0 <= i < |w'.db.stageRuns|
        ensures JobFits(w'.ledger, JobOf(env, w'.db, i), w'.db.stageRuns[i], PhaseOf(w', i)) {
      RowBelongs(env, w.db, w.known, i);
      SameJob(env, w.db, w'.db, i);
    }
  }

  lemma {:induction false} ClientStepInv(env: Env, w: World, w': World)
    requires Inv(env, w) && ClientStep(env, w, w') && w'.known == w.known + RefsOf(CurrentsOf(w'.ledger))
    ensures Inv(env, w')
  {
    SameLedgerInv(w.ledger, w.known);
    ClientOrigins(env, w, w');
    SameDone(w.db.stageRuns);
    SameRowsKeepWorkers(env, w, w');
    hide ClientStep, Lifecycle, Jobs, OwnVersions, DbInv;
    QuietDbInv(env, w.db, w'.db, w.known, w'.known);
  }

  lemma {:induction false} PopStepInv(env: Env, w: World, w': World)
    requires Inv(env, w) && PopStep(w, w') && w'.known == w.known + RefsOf(CurrentsOf(w'.ledger))
    ensures Inv(env, w')
  {
    SameLedgerInv(w.ledger, w.known);
    hide Sourced, Honest;
    SameRowsKeepWorkers(env, w, w');
  }

  // ---- uploads and promotions by clients ----------------------------------

  /** A step on the ledger that relinks no version of any job. */
  lemma {:induction false} LedgerStepJobs(env: Env, w: World, w': World, n0: string, v0: nat)
    requires Jobs(env, w) && w'.db == w.db && w'.phases == w.phases && Keeps(w.ledger, w'.ledger, n0, v0)
    requires !Exists(w.ledger, n0, v0)
    ensures Jobs(env, w')
  {
    hide JobOf, Keeps;
    forall i | 0 <= i < |w.db.stageRuns|
        ensures JobFits(w'.ledger, JobOf(env, w.db, i), w.db.stageRuns[i], PhaseOf(w', i)) {
      var job, row, p := JobOf(env, w.db, i), w.db.stageRuns[i], PhaseOf(w, i);
      assert JobFits(w.ledger, job, row, p);
      HeldExists(w.ledger, job, row, p);
      JobKept(w.ledger, w'.ledger, n0, v0, job, row, p);
    }
  }

  lemma {:induction false} HeldExists(l: Ledger, job: Job, row: StageRun, p: Phase)
    requires JobFits(l, job, row, p)
    ensures Held(row, p).Some? ==> Exists(l, job.stage, Held(row, p).value)
  {
  }

  lemma {:induction false} SameVersions(w: World, w': World)
    requires OwnVersions(w) && Lifecycle(w) && w'.db == w.db && w'.phases == w.phases
    ensures OwnVersions(w') && Lifecycle(w')
  {
    forall i ensures PhaseOf(w', i) == PhaseOf(w, i) {}
  }

  lemma {:induction false} InjectStepInv(env: Env, contracts: Contracts, w: World, w': World, name: string,
                    value: Value, isTest: bool)
    requires Inv(env, w) && InjectStep(contracts, w, w', name, value, isTest)
        && w'.known == w.known + RefsOf(CurrentsOf(w'.ledger))
    ensures Inv(env, w')
  {
    hide DbInv, Jobs, OwnVersions, Lifecycle, LedgerInv;
    AppendLedgerInv(w.ledger, w.known, name, value, isTest, contracts[name](value));
    AppendKeeps(w.ledger, name, value, isTest, contracts[name](value));
    LedgerStepJobs(env, w, w', name, NextVersion(w.ledger, name));
    SameVersions(w, w');
    MoreKnown(env, w.db, w.known, w'.known);
  }

  lemma {:induction false} RollbackStepInv(env: Env, w: World, w': World, name: string, version: nat)
    requires Inv(env, w) && RollbackStep(w, w', name, version) && w'.known == w.known + RefsOf(CurrentsOf(w'.ledger))
    ensures Inv(env, w')
  {
    hide DbInv, Jobs, OwnVersions, Lifecycle, LedgerInv;
    PromoteLedgerInv(w.ledger, w.known, name, version);
    PromoteKeeps(w.ledger, name, version);
    LedgerStepJobs(env, w, w', name, 0);
    SameVersions(w, w');
    MoreKnown(env, w.db, w.known, w'.known);
  }

  // ---- worker steps --------------------------------------------------------

  /** What the callbacks do to the one stage run they name, although they check nothing. */
  lemma {:induction false} CallbackDbInv(env: Env, w: World, db': Db, i: nat, known': set<Ref>)
    requires DbInv(env, w.db, w.known) && Lifecycle(w) && w.known <= known'
    requires i < |w.phases| && i < |w.db.stageRuns| && w.phases[i] != Reported
    requires exists row' :: db' == WithStageRun(w.db, i, row')
    requires db'.stageRuns[i].(status := Requested, output := 0, attempts := 0)
        == w.db.stageRuns[i].(status := Requested, output := 0, attempts := 0)
    ensures DbInv(env, db', known') && SameOrigins(w.db, db')
  {
    assert StatusFits(w.db.stageRuns[i], PhaseOf(w, i));
    hide Sourced, Honest, OneMessageEach, OncePerStage;
    assert KeepsDone(w.db.stageRuns, db'.stageRuns);
    assert SameOrigins(w.db, db');
    QuietDbInv(env, w.db, db', w.known, known');
  }

  /** Worker i advanced: its own facts are re-established, everybody else's were kept. */
  ghost predicate OnlyWorker(w: World, w': World, i: nat) {
    && i < |w.phases| && |w'.phases| == |w.phases|
    && |w'.db.stageRuns| == |w.db.stageRuns| && SameOrigins(w.db, w'.db)
    && forall j :: 0 <= j < |w.db.stageRuns| && j != i ==>
         w'.db.stageRuns[j] == w.db.stageRuns[j] && PhaseOf(w', j) == PhaseOf(w, j)
  }

  lemma {:induction false} WorkerLifecycle(w: World, w': World, i: nat)
    requires Lifecycle(w) && OnlyWorker(w, w', i) && i < |w.db.stageRuns|
    requires StatusFits(w'.db.stageRuns[i], PhaseOf(w', i))
    ensures Lifecycle(w')
  {
  }

  lemma {:induction false} WorkerJobs(env: Env, w: World, w': World, i: nat, n0: string, v0: nat)
    requires Inv(env, w) && OnlyWorker(w, w', i) && i < |w.db.stageRuns| && Keeps(w.ledger, w'.ledger, n0, v0)
    requires !Exists(w.ledger, n0, v0)
        || (n0 == w.db.stageRuns[i].stage && Held(w.db.stageRuns[i], PhaseOf(w, i)) == Some(v0))
    requires JobFits(w'.ledger, JobOf(env, w.db, i), w'.db.stageRuns[i], PhaseOf(w', i))
    ensures Jobs(env, w')
  {
    hide DbInv, LedgerInv, Keeps, JobFits, StageOf, PinnedRefs;
    forall j | 0 <= j < |w.db.stageRuns|
        ensures JobFits(w'.ledger, JobOf(env, w'.db, j), w'.db.stageRuns[j], PhaseOf(w', j)) {
      RowBelongs(env, w.db, w.known, j);
      SameJob(env, w.db, w'.db, j);
      if j != i {
        var job, row, p := JobOf(env, w.db, j), w.db.stageRuns[j], PhaseOf(w, j);
        assert JobFits(w.ledger, job, row, p);
        HeldExists(w.ledger, job, row, p);
        JobKept(w.ledger, w'.ledger, n0, v0, job, row, p);
      }
    }
  }

  lemma {:induction false} WorkerVersions(env: Env, w: World, w': World, i: nat)
    requires OwnVersions(w) && OnlyWorker(w, w', i) && i < |w.db.stageRuns| && Jobs(env, w)
    requires var h, h' := Held(w.db.stageRuns[i], PhaseOf(w, i)), Held(w'.db.stageRuns[i], PhaseOf(w', i));
             h' == h || h' == None || !Exists(w.ledger, w.db.stageRuns[i].stage, h'.value)
    ensures OwnVersions(w')
  {
    hide JobFits, StageOf, PinnedRefs;
    forall j | 0 <= j < |w.db.stageRuns| ensures Held(w.db.stageRuns[j], PhaseOf(w, j)).Some? ==>
      Exists(w.ledger, w.db.stageRuns[j].stage, Held(w.db.stageRuns[j], PhaseOf(w, j)).value)
    {
      HeldExists(w.ledger, JobOf(env, w.db, j), w.db.stageRuns[j], PhaseOf(w, j));
    }
  }

  /** A callback of worker i, whatever status it writes, fits its phase. */
  lemma {:induction false} CallbackInv(env: Env, w: World, w': World, i: nat)
    requires Inv(env, w) && i < |w.phases| && i < |w.db.stageRuns| && w.phases[i] != Reported
    requires w'.ledger == w.ledger && w'.known == w.known && |w'.phases| == |w.phases|
        && w'.phases == w.phases[i := w'.phases[i]]
    requires exists row' :: w'.db == WithStageRun(w.db, i, row')
    requires w'.db.stageRuns[i].(status := Requested, output := 0, attempts := 0)
        == w.db.stageRuns[i].(status := Requested, output := 0, attempts := 0)
    requires StatusFits(w'.db.stageRuns[i], PhaseOf(w', i))
    requires JobFits(w.ledger, JobOf(env, w.db, i), w'.db.stageRuns[i], PhaseOf(w', i))
    requires Held(w'.db.stageRuns[i], PhaseOf(w', i)) == Held(w.db.stageRuns[i], PhaseOf(w, i))
        || Held(w'.db.stageRuns[i], PhaseOf(w', i)) == None
    ensures Inv(env, w')
  {
    CallbackDbInv(env, w, w'.db, i, w'.known);
    hide DbInv, JobFits, StatusFits, LedgerInv, Held, StageOf, PinnedRefs;
    assert OnlyWorker(w, w', i);
    WorkerLifecycle(w, w', i);
    SameLedgerKeeps(w.ledger);
    WorkerJobs(env, w, w', i, "", 0);
    WorkerVersions(env, w, w', i);
  }

  lemma {:induction false} SameLedgerKeeps(l: Ledger)
    ensures Keeps(l, l, "", 0)
  {
  }

  /** A worker step that touches no table. */
  lemma {:induction false} PhaseInv(env: Env, w: World, w': World, i: nat, n0: string, v0: nat)
    requires Inv(env, w) && i < |w.phases| && i < |w.db.stageRuns|
    requires w'.db == w.db && |w'.phases| == |w.phases| && w'.phases == w.phases[i := w'.phases[i]]
    requires LedgerInv(w'.ledger, w'.known) && w.known <= w'.known && Keeps(w.ledger, w'.ledger, n0, v0)
    requires !Exists(w.ledger, n0, v0)
        || (n0 == w.db.stageRuns[i].stage && Held(w.db.stageRuns[i], PhaseOf(w, i)) == Some(v0))
    requires StatusFits(w.db.stageRuns[i], PhaseOf(w', i))
    requires JobFits(w'.ledger, JobOf(env, w.db, i), w.db.stageRuns[i], PhaseOf(w', i))
    requires var h, h' := Held(w.db.stageRuns[i], PhaseOf(w, i)), Held(w.db.stageRuns[i], PhaseOf(w', i));
             h' == h || h' == None || !Exists(w.ledger, w.db.stageRuns[i].stage, h'.value)
    ensures Inv(env, w')
  {
    hide DbInv, JobFits, StatusFits, LedgerInv, Held, StageOf, PinnedRefs, Keeps;
    MoreKnown(env, w.db, w.known, w'.known);
    assert OnlyWorker(w, w', i);
    WorkerLifecycle(w, w', i);
    WorkerJobs(env, w, w', i, n0, v0);
    WorkerVersions(env, w, w', i);
  }

  // ---- the steps of one attempt -------------------------------------------

  lemma {:induction false} RetryFits(l: Ledger, job: Job, row: StageRun, n: nat)
    requires AllExist(l, job.refs) && row.status == Running && !row.usedFallback
    ensures JobFits(l, job, row, Retry(job, n)) && StatusFits(row, Retry(job, n)) && Held(row, Retry(job, n)) == None
  {
  }

  lemma {:induction false} MadeExists(l: Ledger, job: Job, v: nat)
    requires Made(l, job, v)
    ensures AllExist(l, job.refs)
    ensures forall k :: 0 <= k < |job.refs| ==> Descends(l, EntryOf(l, job.stage, v), job.refs[k])
  {
  }

  lemma {:induction false} FreshlyMade(l: Ledger, job: Job, value: Value)
    requires IdsOrdered(l) && AllExist(l, job.refs)
    ensures Made(Ledgers.Append(l, job.stage, value, job.isTest, None), job, NextVersion(l, job.stage))
  {
    var l' := Ledgers.Append(l, job.stage, value, job.isTest, None);
    AppendAt(l, job.stage, value, job.isTest, None, job.stage, NextVersion(l, job.stage));
    forall k | 0 <= k < |job.refs|
      ensures Exists(l', job.refs[k].name, job.refs[k].version)
      ensures EntryOf(l', job.refs[k].name, job.refs[k].version).id < l.nextId
    {
      AppendAt(l, job.stage, value, job.isTest, None, job.refs[k].name, job.refs[k].version);
    }
  }

  lemma {:induction false} RecordedByLink(l: Ledger, job: Job, v: nat)
    requires Made(l, job, v)
    ensures Recorded(Link(l, job.stage, v, job.refs), job, v)
  {
    LinkKeeps(l, job.stage, v, job.refs);
    MadeKept(l, Link(l, job.stage, v, job.refs), job.stage, v, job, v);
    LinkAt(l, job.stage, v, job.refs, job.stage, v);
  }

  /** What an attempt step of one job guarantees about that job and about the ledger. */
  lemma {:induction false} AttemptFits(contracts: Contracts, job: Job, row: StageRun, l: Ledger, p: Phase,
                    l': Ledger, p': Phase, known: set<Ref>)
    returns (n0: string, v0: nat)
    requires LedgerInv(l, known) && row.stage == job.stage && StatusFits(row, p) && JobFits(l, job, row, p)
    requires AttemptStep(contracts, job, l, p, l', p')
    ensures LedgerInv(l', known + RefsOf(CurrentsOf(l'))) && Keeps(l, l', n0, v0)
    ensures !Exists(l, n0, v0) || (n0 == job.stage && Held(row, p) == Some(v0))
    ensures StatusFits(row, p') && JobFits(l', job, row, p')
    ensures Held(row, p') == Held(row, p) || Held(row, p') == None || !Exists(l, job.stage, Held(row, p').value)
  {
    SameLedgerInv(l, known);
    SameLedgerKeeps(l);
    n0, v0 := "", 0;
    match p {
      case Attempting(n) =>
        RetryFits(l, job, row, n);
        if !(l' == l && p' == Retry(job, n)) {
          var value :| UploadStep(contracts, job, value, l, n, l', p');
          if job.stage in contracts {
            n0, v0 := job.stage, NextVersion(l, job.stage);
            UploadFits(contracts, job, row, value, l, n, l', p', known);
          }
        }
      case Stored(n, v) =>
        MadeExists(l, job, v);
        RetryFits(l, job, row, n);
        if !(l' == l && p' == Retry(job, n)) {
          n0, v0 := job.stage, v;
          RecordedByLink(l, job, v);
          LinkLedgerInv(l, known, job.stage, v, job.refs);
          LinkKeeps(l, job.stage, v, job.refs);
        }
      case Linked(n, v) =>
        MadeExists(l, job, v);
        RetryFits(l, job, row, n);
        if l' != l {
          n0, v0 := job.stage, 0;
          PromoteLedgerInv(l, known, job.stage, v);
          PromoteKeeps(l, job.stage, v);
          RecordedKept(l, l', job.stage, 0, job, v);
        }
      case _ =>
    }
  }

  lemma {:induction false} UploadFits(contracts: Contracts, job: Job, row: StageRun, value: Value, l: Ledger, n: nat,
                    l': Ledger, p': Phase, known: set<Ref>)
    requires LedgerInv(l, known) && row.status == Running && !row.usedFallback && AllExist(l, job.refs)
    requires job.stage in contracts && job.retries >= 0 && UploadStep(contracts, job, value, l, n, l', p')
    ensures LedgerInv(l', known + RefsOf(CurrentsOf(l'))) && Keeps(l, l', job.stage, NextVersion(l, job.stage))
    ensures StatusFits(row, p') && JobFits(l', job, row, p')
    ensures Held(row, p') == None || Held(row, p') == Some(NextVersion(l, job.stage))
  {
    var error := contracts[job.stage](value);
    AppendLedgerInv(l, known, job.stage, value, job.isTest, error);
    AppendKeeps(l, job.stage, value, job.isTest, error);
    RefsKept(l, l', job.stage, NextVersion(l, job.stage), job.refs);
    RetryFits(l', job, row, n);
    if error.None? { FreshlyMade(l, job, value); }
  }

  /** Where a worker stands, and where its step takes it. */
  lemma {:induction false} WorkerFacts(env: Env, contracts: Contracts, w: World, w': World, i: nat)
    requires Inv(env, w) && WorkerStep(env, contracts, w, w', i)
    ensures i < |w.phases| == |w'.phases| && i < |w.db.stageRuns| && w'.phases == w.phases[i := w'.phases[i]]
    ensures PhaseOf(w, i) == w.phases[i] && PhaseOf(w', i) == w'.phases[i]
    ensures StatusFits(w.db.stageRuns[i], w.phases[i])
    ensures JobFits(w.ledger, JobOf(env, w.db, i), w.db.stageRuns[i], w.phases[i])
    ensures WorkerEffect(contracts, JobOf(env, w.db, i), i, w.db, w.ledger, w.phases[i], w'.db, w'.ledger, w'.phases[i])
    ensures JobOf(env, w.db, i).stage == w.db.stageRuns[i].stage
  {
    hide DbInv, LedgerInv, WorkerEffect, JobFits, StatusFits, StageOf, PinnedRefs;
    assert PhaseOf(w, i) == w.phases[i];
  }

  /** The two callbacks, at the start and at the end. */
  lemma {:induction false} ReportInv(env: Env, contracts: Contracts, w: World, w': World, i: nat)
    requires Inv(env, w) && WorkerStep(env, contracts, w, w', i) && w'.known == w.known
    requires var p := w.phases[i]; p.Popped? || p.Succeeded? || p.GaveUp? || p.Skipped?
    ensures Inv(env, w')
  {
    WorkerFacts(env, contracts, w, w', i);
    hide Inv, JobOf;
    CallbackInv(env, w, w', i);
  }

  /** The steps in between touch no table. */
  lemma {:induction false} ExecutionInv(env: Env, contracts: Contracts, w: World, w': World, i: nat)
    requires Inv(env, w) && WorkerStep(env, contracts, w, w', i) && w'.known == w.known + RefsOf(CurrentsOf(w'.ledger))
    requires var p := w.phases[i]; p.Attempting? || p.Stored? || p.Linked?
    ensures Inv(env, w')
  {
    WorkerFacts(env, contracts, w, w', i);
    var job, row, p, p' := JobOf(env, w.db, i), w.db.stageRuns[i], w.phases[i], w'.phases[i];
    assert LedgerInv(w.ledger, w.known);
    assert w'.db == w.db && AttemptStep(contracts, job, w.ledger, p, w'.ledger, p');
    hide *;
    var n0, v0 := AttemptFits(contracts, job, row, w.ledger, p, w'.ledger, p', w.known);
    PhaseInv(env, w, w', i, n0, v0);
  }

  lemma {:induction false} ResolvingInv(env: Env, contracts: Contracts, w: World, w': World, i: nat)
    requires Inv(env, w) && WorkerStep(env, contracts, w, w', i) && w'.known == w.known && w.phases[i].Resolving?
    ensures Inv(env, w')
  {
    WorkerFacts(env, contracts, w, w', i);
    assert LedgerInv(w.ledger, w.known);
    SameLedgerKeeps(w.ledger);
    hide Inv, JobOf, LedgerInv, Keeps;
    PhaseInv(env, w, w', i, "", 0);
  }

  lemma {:induction false} WorkerStepInv(env: Env, contracts: Contracts, w: World, w': World, i: nat)
    requires Inv(env, w) && WorkerStep(env, contracts, w, w', i) && w'.known == w.known + RefsOf(CurrentsOf(w'.ledger))
    ensures Inv(env, w')
  {
    WorkerFacts(env, contracts, w, w', i);
    SameLedgerInv(w.ledger, w.known);
    hide Inv, WorkerStep, JobOf, AttemptStep, StatusFits, JobFits;
    match w.phases[i] {
      case Resolving => ResolvingInv(env, contracts, w, w', i);
      case Attempting(_) => ExecutionInv(env, contracts, w, w', i);
      case Stored(_, _) => ExecutionInv(env, contracts, w, w', i);
      case Linked(_, _) => ExecutionInv(env, contracts, w, w', i);
      case Reported =>
      case _ => ReportInv(env, contracts, w, w', i);
    }
  }

  // ---- every reachable world ----------------------------------------------

  lemma {:induction false} StepInv(env: Env, contracts: Contracts, w: World, w': World)
    requires Inv(env, w) && Step(env, contracts, w, w')
    ensures Inv(env, w')
  {
    hide Inv, TickStep, ClientStep, InjectStep, RollbackStep, PopStep, WorkerStep;
    if now :| TickStep(env, w, w', now) {
      TickStepInv(env, w, w', now);
    } else if ClientStep(env, w, w') {
      ClientStepInv(env, w, w');
    } else if name, value, isTest :| InjectStep(contracts, w, w', name, value, isTest) {
      InjectStepInv(env, contracts, w, w', name, value, isTest);
    } else if name, version :| RollbackStep(w, w', name, version) {
      RollbackStepInv(env, w, w', name, version);
    } else if PopStep(w, w') {
      PopStepInv(env, w, w');
    } else {
      var i: nat :| WorkerStep(env, contracts, w, w', i);
      WorkerStepInv(env, contracts, w, w', i);
    }
  }

  /** A history of the system from its empty state. */
  ghost predicate Behavior(env: Env, contracts: Contracts, ws: seq<World>) {
    |ws| > 0 && Init(ws[0]) && forall t :: 0 <= t < |ws| - 1 ==> Step(env, contracts, ws[t], ws[t + 1])
  }

  /** Step t is a tick, and `now` its clock reading. */
  ghost predicate TickAtStep(env: Env, ws: seq<World>, t: nat, now: int) {
    t + 1 < |ws| && TickStep(env, ws[t], ws[t + 1], now)
  }

  /** The invariant holds in every reachable world. */
  lemma {:induction false} Reachable(env: Env, contracts: Contracts, ws: seq<World>, t: nat)
    requires Behavior(env, contracts, ws) && t < |ws|
    ensures Inv(env, ws[t])
  {
    hide Inv, Init, Step;
    if t == 0 {
      InitInv(env, ws[0]);
    } else {
      Reachable(env, contracts, ws, t - 1);
      assert Step(env, contracts, ws[t - 1], ws[t - 1 + 1]);
      StepInv(env, contracts, ws[t - 1], ws[t]);
    }
  }
}
