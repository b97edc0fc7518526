/** Executing one stage: pinned inputs, the retry loop and its store effects (services/runner/src/runner.py). */
module Runner {
  import opened Stages
  import opened Ledgers
  import opened ResourceStore

  /** One stage to execute, with the versions its dependencies were resolved to, in `depends_on` order. */
  datatype Job = Job(stage: string, refs: seq<Ref>, retries: int, promote: bool, isTest: bool)

  // ---- the steps of one execution, as the other services can observe them --

  /**
   * Where the execution of a popped message stands; `attempt` counts executor calls. `Skipped` is the
   * end of a loop that a negative retry count keeps from making any attempt.
   */
  datatype Phase =
    | Popped
    | Resolving
    | Attempting(attempt: nat)
    | Stored(attempt: nat, version: nat)
    | Linked(attempt: nat, version: nat)
    | Succeeded(attempt: nat, version: nat)
    | GaveUp(attempt: nat)
    | Skipped(attempts: int)
    | Reported

  /** What follows a failed attempt. */
  function Retry(job: Job, attempt: nat): Phase {
    if attempt <= job.retries then Attempting(attempt + 1) else GaveUp(attempt)
  }

  /** The executor returned a value: it is persisted, and kept if it passes its contract. */
  ghost predicate UploadStep(contracts: Contracts, job: Job, value: Value, l: Ledger, attempt: nat, l': Ledger,
                    p': Phase) {
    if job.stage !in contracts then l' == l && p' == Retry(job, attempt)
    else
      && l' == Append(l, job.stage, value, job.isTest, contracts[job.stage](value))
      && p' == if contracts[job.stage](value).None? then Stored(attempt, NextVersion(l, job.stage))
          else Retry(job, attempt)
  }

  /** One atomic store effect within the retry loop; any of them may also fail without effect. */
  ghost predicate AttemptStep(contracts: Contracts, job: Job, l: Ledger, p: Phase, l': Ledger, p': Phase) {
    match p
    case Attempting(n) =>
      || (l' == l && p' == Retry(job, n))
      || exists value :: UploadStep(contracts, job, value, l, n, l', p')
    case Stored(n, v) =>
      || (l' == l && p' == Retry(job, n))
      || (Exists(l, job.stage, v) && AllExist(l, job.refs) && l' == Link(l, job.stage, v, job.refs)
          && p' == Linked(n, v))
    case Linked(n, v) =>
      || (job.promote && l' == l && p' == Retry(job, n))
      || (job.promote && Exists(l, job.stage, v) && l' == Promote(l, job.stage, v) && p' == Succeeded(n, v))
      || (!job.promote && l' == l && p' == Succeeded(n, v))
    case _ => false
  }

  // ---- run_stage -----------------------------------------------------------

  /** What a stage function does when it is called. */
  datatype StageResult = Returned(value: Value) | Raised(reason: string)

  /** What the executor does on its n-th call. */
  type Executor = (nat, map<string, Value>) -> StageResult

  datatype StageOutcome = StageOutcome(version: Option<nat>, attempts: int, error: Option<string>)

  /** The n-th attempt fails: the stage raises, the resource has no contract, or the value breaks it. */
  predicate AttemptFails(contracts: Contracts, job: Job, exec: Executor, inputs: map<string, Value>, n: nat) {
    AttemptError(contracts, job, exec, inputs, n).Some?
  }

  /** What the store says about a resource that nobody declared. */
  const NO_CONTRACT := "no declared contract"

  function UploadError(contracts: Contracts, name: string, value: Value): Option<string> {
    if name !in contracts then Some(NO_CONTRACT) else contracts[name](value)
  }

  /** The reason for which the n-th attempt fails, or none. */
  function AttemptError(contracts: Contracts, job: Job, exec: Executor, inputs: map<string, Value>,
                    n: nat): Option<string> {
    match exec(n, inputs)
    case Raised(reason) => Some(reason)
    case Returned(value) => UploadError(contracts, job.stage, value)
  }

  /** What a failed attempt leaves: a value that was produced is persisted even if it breaks its contract. */
  function AfterAttempt(contracts: Contracts, job: Job, result: StageResult, l: Ledger): Ledger {
    if result.Raised? || job.stage !in contracts then l
    else Append(l, job.stage, result.value, job.isTest, contracts[job.stage](result.value))
  }

  /** The ledger after the first n attempts all failed. */
  function AfterFailures(contracts: Contracts, job: Job, exec: Executor, inputs: map<string, Value>, l: Ledger,
                    n: nat): Ledger {
    if n == 0 then l
    else AfterAttempt(contracts, job, exec(n, inputs), AfterFailures(contracts, job, exec, inputs, l, n - 1))
  }

  /** A stored version once it is linked and, if the run asks for it, promoted. */
  function Finalized(job: Job, l: Ledger, version: nat): Ledger
    requires Exists(l, job.stage, version)
  {
    var linked := Link(l, job.stage, version, job.refs);
    LinkAt(l, job.stage, version, job.refs, job.stage, version);
    if job.promote then Promote(linked, job.stage, version) else linked
  }

  /** The ledger after a successful attempt: one valid version, linked to exactly the resolved inputs. */
  function AfterSuccess(job: Job, value: Value, l: Ledger): Ledger
    requires AllExist(l, job.refs)
  {
    var v := NextVersion(l, job.stage);
    AppendAt(l, job.stage, value, job.isTest, None, job.stage, v);
    Finalized(job, Append(l, job.stage, value, job.isTest, None), v)
  }

  lemma {:induction false} AllExistAppend(l: Ledger, refs: seq<Ref>, name: string, value: Value, isTest: bool,
                    error: Option<string>)
    requires AllExist(l, refs)
    ensures AllExist(Append(l, name, value, isTest, error), refs)
  {
    forall i | 0 <= i < |refs| ensures Exists(Append(l, name, value, isTest, error), refs[i].name, refs[i].version) {
      AppendAt(l, name, value, isTest, error, refs[i].name, refs[i].version);
    }
  }

  /** Failed attempts change no current version, lose nothing and append at most one version each. */
  lemma {:induction false} AfterFailuresKeeps(contracts: Contracts, job: Job, exec: Executor,
                    inputs: map<string, Value>, l: Ledger, n: nat)
    ensures var l' := AfterFailures(contracts, job, exec, inputs, l, n);
            && (forall k :: HistoryOf(l', k).current == HistoryOf(l, k).current)
            && (forall k, v :: Exists(l, k, v) ==> Exists(l', k, v) && EntryOf(l', k, v) == EntryOf(l, k, v))
            && l.nextId <= l'.nextId <= l.nextId + n
  {
    if n > 0 {
      AfterFailuresKeeps(contracts, job, exec, inputs, l, n - 1);
      var before := AfterFailures(contracts, job, exec, inputs, l, n - 1);
      if exec(n, inputs).Returned? && job.stage in contracts {
        var value := exec(n, inputs).value;
        forall k, v { AppendAt(before, job.stage, value, job.isTest, contracts[job.stage](value), k, v); }
      }
    }
  }

  /** What the first n attempts returned, in order. */
  function Returns(exec: Executor, inputs: map<string, Value>, n: nat): seq<Value> {
    if n == 0 then []
    else Returns(exec, inputs, n - 1) + match exec(n, inputs) case Returned(value) => [value] case Raised(_) => []
  }

  /** The versions of a resource whose values are these, each with its verdict. */
  ghost predicate AreEntries(entries: seq<Entry>, values: seq<Value>, isTest: bool, verdict: Value -> Option<string>) {
    && |entries| == |values|
    && forall i :: 0 <= i < |values| ==>
         entries[i].value == values[i] && entries[i].isTest == isTest && entries[i].error == verdict(values[i])
         && entries[i].deps == []
  }

  lemma {:induction false} EntriesSnoc(entries: seq<Entry>, values: seq<Value>, isTest: bool,
                    verdict: Value -> Option<string>, id: nat, value: Value)
    requires AreEntries(entries, values, isTest, verdict)
    ensures AreEntries(entries + [Entry(id, value, isTest, verdict(value), [])], values + [value], isTest, verdict)
  {
  }

  /** Failed attempts leave exactly the values that they returned, in order, each persisted with its verdict. */
  lemma {:induction false} AfterFailuresExactly(contracts: Contracts, job: Job, exec: Executor,
                    inputs: map<string, Value>, l: Ledger, n: nat) returns (added: seq<Entry>)
    requires job.stage in contracts
    ensures HistoryOf(AfterFailures(contracts, job, exec, inputs, l, n), job.stage).entries
         == HistoryOf(l, job.stage).entries + added
    ensures AreEntries(added, Returns(exec, inputs, n), job.isTest, contracts[job.stage])
  {
    added := [];
    if n > 0 {
      added := AfterFailuresExactly(contracts, job, exec, inputs, l, n - 1);
      var before := AfterFailures(contracts, job, exec, inputs, l, n - 1);
      if exec(n, inputs).Returned? {
        var value := exec(n, inputs).value;
        EntriesSnoc(added, Returns(exec, inputs, n - 1), job.isTest, contracts[job.stage], before.nextId, value);
        hide AreEntries;
        added := added + [Entry(before.nextId, value, job.isTest, contracts[job.stage](value), [])];
      }
    }
  }

  /** What a successful run_stage leaves: a valid version whose lineage is its resolved inputs, all of them older. */
  lemma {:induction false} AfterSuccessLineage(job: Job, value: Value, l: Ledger)
    requires AllExist(l, job.refs) && IdsOrdered(l)
    ensures var l', v := AfterSuccess(job, value, l), NextVersion(l, job.stage);
            && Exists(l', job.stage, v)
            && EntryOf(l', job.stage, v) == Entry(l.nextId, value, job.isTest, None, job.refs)
            && (forall i :: 0 <= i < |job.refs| ==> EntryOf(l, job.refs[i].name, job.refs[i].version).id < l.nextId)
            && (HistoryOf(l', job.stage).current == if job.promote then v else HistoryOf(l, job.stage).current)
            && (forall k :: k != job.stage ==> HistoryOf(l', k) == HistoryOf(l, k))
  {
    var v := NextVersion(l, job.stage);
    AppendAt(l, job.stage, value, job.isTest, None, job.stage, v);
    LinkAt(Append(l, job.stage, value, job.isTest, None), job.stage, v, job.refs, job.stage, v);
  }

  // ---- the observable steps really are those of the loop -------------------

  datatype Point = Point(ledger: Ledger, phase: Phase)

  /** A sequence of steps of one execution. */
  ghost predicate Trace(contracts: Contracts, job: Job, t: seq<Point>) {
    |t| > 0 && forall i :: 0 <= i < |t| - 1 ==>
      AttemptStep(contracts, job, t[i].ledger, t[i].phase, t[i + 1].ledger, t[i + 1].phase)
  }

  lemma {:induction false} TraceStep(contracts: Contracts, job: Job, t: seq<Point>, p: Point)
    requires Trace(contracts, job, t)
    requires AttemptStep(contracts, job, t[|t| - 1].ledger, t[|t| - 1].phase, p.ledger, p.phase)
    ensures Trace(contracts, job, t + [p])
  {
  }

  class StageRunner {
    const resources: ResourceStoreService

    constructor (resources: ResourceStoreService)
      ensures this.resources == resources
    {
      this.resources := resources;
    }

    /** A pinned dependency at its pinned version, any other at its current one; None when there is none. */
    method ResolveInput(dep: string, inputVersions: map<string, nat>) returns (r: Option<Snapshot>)
      requires resources.Valid()
      ensures var l := resources.ledger;
              var v := if dep in inputVersions then inputVersions[dep] else HistoryOf(l, dep).current;
              r == if Exists(l, dep, v) then Some(Snapshot(v, EntryOf(l, dep, v).value)) else None
    {
      r := resources.Get(dep, if dep in inputVersions then Some(inputVersions[dep]) else None);
    }

    /** Resolves every input once, before the first attempt; None is a setup error. */
    method ResolveInputs(deps: seq<string>, inputVersions: map<string, nat>)
      returns (r: Option<(seq<Ref>, map<string, Value>)>)
      requires resources.Valid()
      ensures var l := resources.ledger;
              var refs := Resolved(l, deps, inputVersions);
              r == if AllExist(l, refs) then Some((refs, Values(l, refs))) else None
      ensures r.Some? ==> AreInputs(resources.ledger, r.value.0, r.value.1)
                          && PinsFirst(resources.ledger, deps, inputVersions, r.value.0)
    {
      hide Rep, AreInputs, PinsFirst;
      ghost var l := resources.ledger;
      ghost var all := Resolved(l, deps, inputVersions);
      var refs: seq<Ref>, inputs: map<string, Value> := [], map[];
      for i := 0 to |deps|
        invariant refs == all[..i] && AllExist(l, refs) && inputs == Values(l, refs)
      {
        var input := ResolveInput(deps[i], inputVersions);
        if input.None? {
          assert !Exists(l, all[i].name, all[i].version);
          return None;
        }
        ghost var before := refs;
        refs := refs + [Ref(deps[i], input.value.version)];
        assert refs[..i] == before;
        inputs := inputs[deps[i] := input.value.value];
      }
      assert refs == all;
      ValuesAreInputs(l, deps, inputVersions);
      hide Values, AllExist, Exists, Resolved;
      r := Some((refs, inputs));
    }

    /** What follows a successful upload: dependencies and promotion, neither of which can fail then. */
    method Finalize(ghost job: Job, stage: StageDef, refs: seq<Ref>, version: nat, promote: bool, ghost attempt: nat,
                      ghost trace: seq<Point>)
      returns (ghost trace': seq<Point>)
      requires resources.Valid() && AllExist(resources.ledger, refs) && Exists(resources.ledger, stage.name, version)
      requires job.stage == stage.name && job.refs == refs && job.promote == promote
      requires Trace(resources.contracts, job, trace)
      requires trace[|trace| - 1] == Point(resources.ledger, Stored(attempt, version))
      modifies resources`ledger, resources.metadata
      ensures resources.Valid()
      ensures resources.ledger == Finalized(job, old(resources.ledger), version)
      ensures Trace(resources.contracts, job, trace') && trace <= trace'
      ensures trace'[|trace'| - 1] == Point(resources.ledger, Succeeded(attempt, version))
    {
      hide Rep, Trace;
      var linked := resources.UpdateDependencies(stage.name, version, refs);
      LinkAt(old(resources.ledger), stage.name, version, refs, stage.name, version);
      TraceStep(resources.contracts, job, trace, Point(resources.ledger, Linked(attempt, version)));
      trace' := trace + [Point(resources.ledger, Linked(attempt, version))];
      if promote {
        var promoted := resources.PromoteVersion(stage.name, version);
      }
      TraceStep(resources.contracts, job, trace', Point(resources.ledger, Succeeded(attempt, version)));
      trace' := trace' + [Point(resources.ledger, Succeeded(attempt, version))];
    }

    /** What follows the executor within one attempt: upload, dependencies, promotion. */
    method Persist(ghost job: Job, stage: StageDef, refs: seq<Ref>, value: Value, promote: bool, isTest: bool,
                   ghost attempt: nat, ghost trace: seq<Point>)
      returns (version: Option<nat>, error: Option<string>, ghost trace': seq<Point>)
      requires resources.Valid() && AllExist(resources.ledger, refs)
      requires job == Job(stage.name, refs, stage.retries, promote, isTest)
      requires Trace(resources.contracts, job, trace)
      requires trace[|trace| - 1] == Point(resources.ledger, Attempting(attempt))
      modifies resources`ledger, resources.metadata, resources.blobs
      ensures resources.Valid()
      ensures error == UploadError(resources.contracts, stage.name, value) && (version.None? <==> error.Some?)
      ensures version.None? ==> resources.ledger
                                == AfterAttempt(resources.contracts, job, Returned(value), old(resources.ledger))
      ensures version.Some? ==> version.value == NextVersion(old(resources.ledger), stage.name)
      ensures version.Some? ==> resources.ledger == AfterSuccess(job, value, old(resources.ledger))
      ensures Trace(resources.contracts, job, trace') && trace <= trace'
      ensures trace'[|trace'| - 1] ==
                Point(resources.ledger, if version.Some? then Succeeded(attempt, version.value)
                    else Retry(job, attempt))
    {
      hide Rep, Trace, Finalized;
      version, error := None, None;
      ghost var l0 := resources.ledger;
      var uploaded := resources.UploadVersion(stage.name, value, isTest);
      ghost var l1 := resources.ledger;
      ghost var p := if uploaded.Uploaded? then Stored(attempt, uploaded.version) else Retry(job, attempt);
      assert UploadStep(resources.contracts, job, value, l0, attempt, l1, p);
      TraceStep(resources.contracts, job, trace, Point(l1, p));
      trace' := trace + [Point(l1, p)];
      if uploaded.NoContract? {
        error := Some(NO_CONTRACT);
      } else if uploaded.Rejected? {
        error := Some(uploaded.reason);
      } else {
        hide UploadStep;
        AppendAt(l0, stage.name, value, isTest, None, stage.name, uploaded.version);
        AllExistAppend(l0, refs, stage.name, value, isTest, None);
        trace' := Finalize(job, stage, refs, uploaded.version, promote, attempt, trace');
        version := Some(uploaded.version);
      }
    }

    /** One attempt; None when it failed. */
    method Attempt(ghost job: Job, stage: StageDef, refs: seq<Ref>, inputs: map<string, Value>, promote: bool,
                      isTest: bool,
                   exec: Executor, attempt: nat, ghost trace: seq<Point>)
      returns (version: Option<nat>, error: Option<string>, ghost trace': seq<Point>)
      requires resources.Valid() && AllExist(resources.ledger, refs)
      requires job == Job(stage.name, refs, stage.retries, promote, isTest)
      requires Trace(resources.contracts, job, trace)
      requires trace[|trace| - 1] == Point(resources.ledger, Attempting(attempt))
      modifies resources`ledger, resources.metadata, resources.blobs
      ensures resources.Valid()
      ensures error == AttemptError(resources.contracts, job, exec, inputs, attempt) && (version.None? <==> error.Some?)
      ensures version.None? ==> resources.ledger
                                == AfterAttempt(resources.contracts, job, exec(attempt, inputs), old(resources.ledger))
      ensures version.Some? ==> version.value == NextVersion(old(resources.ledger), stage.name)
      ensures version.Some? ==> resources.ledger
                                == AfterSuccess(job, exec(attempt, inputs).value, old(resources.ledger))
      ensures Trace(resources.contracts, job, trace') && trace <= trace'
      ensures trace'[|trace'| - 1] ==
                Point(resources.ledger, if version.Some? then Succeeded(attempt, version.value)
                    else Retry(job, attempt))
    {
      hide Rep, Trace, AfterSuccess;
      trace' := trace;
      version, error := None, None;
      var result := exec(attempt, inputs);
      if result.Returned? {
        version, error, trace' := Persist(job, stage, refs, result.value, promote, isTest, attempt, trace);
      } else {
        error := Some(result.reason);
        TraceStep(resources.contracts, job, trace', Point(resources.ledger, Retry(job, attempt)));
        trace' := trace' + [Point(resources.ledger, Retry(job, attempt))];
      }
    }

    /** None is the exception raised when an input cannot be resolved. */
    method RunStage(stage: StageDef, inputVersions: map<string, nat>, promote: bool, isTest: bool, exec: Executor)
      returns (outcome: Option<StageOutcome>, ghost trace: seq<Point>)
      requires resources.Valid()
      modifies resources`ledger, resources.metadata, resources.blobs
      ensures resources.Valid()
      ensures var l, refs := old(resources.ledger), Resolved(old(resources.ledger), stage.dependsOn, inputVersions);
              && (outcome.None? <==> !AllExist(l, refs))
              && (outcome.None? ==> resources.ledger == l)
              && (outcome.Some? ==> AreInputs(l, refs, Values(l, refs))
                                    && PinsFirst(l, stage.dependsOn, inputVersions, refs))
              && (outcome.Some? ==>
                    var job := Job(stage.name, refs, stage.retries, promote, isTest);
                    && OutcomeOk(resources.contracts, job, exec, Values(l, refs), l, outcome.value, resources.ledger)
                    && (stage.retries >= 0 ==> TraceOk(resources.contracts, job, l, outcome.value, resources.ledger,
                        trace)))
    {
      hide Rep, OutcomeOk, TraceOk, Values, AreInputs, PinsFirst;
      var resolved := ResolveInputs(stage.dependsOn, inputVersions);
      if resolved.None? { return None, []; }
      var (refs, inputs) := resolved.value;
      var result;
      result, trace := RunAttempts(stage, refs, inputs, promote, isTest, exec);
      outcome := Some(result);
    }

    /** The retry loop: at most retries + 1 attempts, all with the inputs resolved before the first. */
    method RunAttempts(stage: StageDef, refs: seq<Ref>, inputs: map<string, Value>, promote: bool, isTest: bool,
                       exec: Executor)
      returns (outcome: StageOutcome, ghost trace: seq<Point>)
      requires resources.Valid() && AllExist(resources.ledger, refs)
      modifies resources`ledger, resources.metadata, resources.blobs
      ensures resources.Valid()
      ensures var l, job := old(resources.ledger), Job(stage.name, refs, stage.retries, promote, isTest);
              && OutcomeOk(resources.contracts, job, exec, inputs, l, outcome, resources.ledger)
              && (stage.retries >= 0 ==> TraceOk(resources.contracts, job, l, outcome, resources.ledger, trace))
    {
      hide Rep, AttemptStep, AfterAttempt, AfterSuccess, AttemptError, AttemptFails, OutcomeOk;
      TraceStart(resources.contracts, Job(stage.name, refs, stage.retries, promote, isTest), resources.ledger);
      ghost var l, job := resources.ledger, Job(stage.name, refs, stage.retries, promote, isTest);
      trace := [Point(l, Attempting(1))];
      var error: Option<string> := None;
      var attempt := 1;
      while attempt <= stage.retries + 1
        invariant attempt >= 1 && resources.Valid()
        invariant stage.retries >= 0 ==> attempt <= stage.retries + 2
        invariant stage.retries < 0 ==> attempt == 1
        invariant resources.ledger == AfterFailures(resources.contracts, job, exec, inputs, l, attempt - 1)
        invariant forall k :: 1 <= k < attempt ==> AttemptFails(resources.contracts, job, exec, inputs, k)
        invariant error == if attempt == 1 then None
            else AttemptError(resources.contracts, job, exec, inputs, attempt - 1)
        invariant Trace(resources.contracts, job, trace) && trace[0] == Point(l, Attempting(1))
        invariant trace[|trace| - 1]
            == Point(resources.ledger, if attempt == 1 then Attempting(1) else Retry(job, attempt - 1))
        decreases stage.retries + 2 - attempt
      {
        AfterFailuresKeeps(resources.contracts, job, exec, inputs, l, attempt - 1);
        var version;
        version, error, trace := Attempt(job, stage, refs, inputs, promote, isTest, exec, attempt, trace);
        if version.Some? {
          SuccessOk(resources.contracts, job, exec, inputs, l, attempt, version.value, resources.ledger);
          return StageOutcome(version, attempt, None), trace;
        }
        FailsWithError(resources.contracts, job, exec, inputs, attempt);
        attempt := attempt + 1;
      }
      outcome := StageOutcome(None, stage.retries + 1, error);
      FailureOk(resources.contracts, job, exec, inputs, l, outcome, resources.ledger);
    }
  }

  /** The references that `depends_on` resolves to: pins first, current versions otherwise. */
  function Resolved(l: Ledger, deps: seq<string>, inputVersions: map<string, nat>): seq<Ref> {
    seq(|deps|, i requires 0 <= i < |deps| =>
      Ref(deps[i], if deps[i] in inputVersions then inputVersions[deps[i]] else HistoryOf(l, deps[i]).current))
  }

  function Values(l: Ledger, refs: seq<Ref>): map<string, Value>
    requires AllExist(l, refs)
  {
    if refs == [] then map[]
    else
      var last := refs[|refs| - 1];
      Values(l, refs[..|refs| - 1])[last.name := EntryOf(l, last.name, last.version).value]
  }

  /**
   * In the order of `depends_on`, the pinned version of each dependency that has a pin, the current one of any
   * other.
   */
  ghost predicate PinsFirst(l: Ledger, deps: seq<string>, inputVersions: map<string, nat>, refs: seq<Ref>) {
    && |refs| == |deps|
    && forall k :: 0 <= k < |deps| ==>
         && refs[k].name == deps[k]
         && (deps[k] in inputVersions ==> refs[k].version == inputVersions[deps[k]])
         && (deps[k] !in inputVersions ==> refs[k].version == HistoryOf(l, deps[k]).current)
  }

  /** A stage is called with exactly its dependencies, each at the value of the version it was resolved to. */
  ghost predicate AreInputs(l: Ledger, refs: seq<Ref>, inputs: map<string, Value>) {
    && (forall n :: n in inputs <==> exists k :: 0 <= k < |refs| && refs[k].name == n)
    && forall k :: 0 <= k < |refs| ==>
         Exists(l, refs[k].name, refs[k].version) && refs[k].name in inputs
         && inputs[refs[k].name] == EntryOf(l, refs[k].name, refs[k].version).value
  }

  lemma {:induction false} InputsSnoc(l: Ledger, refs: seq<Ref>, inputs: map<string, Value>, x: Ref)
    requires AreInputs(l, refs, inputs) && Exists(l, x.name, x.version)
    requires forall k :: 0 <= k < |refs| && refs[k].name == x.name ==> refs[k].version == x.version
    ensures AreInputs(l, refs + [x], inputs[x.name := EntryOf(l, x.name, x.version).value])
  {
    var more, inputs' := refs + [x], inputs[x.name := EntryOf(l, x.name, x.version).value];
    hide Exists, EntryOf;
    forall n | n in inputs' ensures exists k :: 0 <= k < |more| && more[k].name == n {
      if n == x.name {
        assert more[|refs|].name == n;
      } else {
        var k :| 0 <= k < |refs| && refs[k].name == n;
        assert more[k].name == n;
      }
    }
  }

  lemma {:induction false} ValuesOfSame(l: Ledger, refs: seq<Ref>)
    requires AllExist(l, refs)
    requires forall i, j :: 0 <= i < j < |refs| && refs[i].name == refs[j].name ==> refs[i].version == refs[j].version
    ensures AreInputs(l, refs, Values(l, refs))
  {
    if refs != [] {
      var init, last := refs[..|refs| - 1], refs[|refs| - 1];
      ValuesOfSame(l, init);
      InputsSnoc(l, init, Values(l, init), last);
      assert init + [last] == refs;
      hide AreInputs;
    }
  }

  /** A dependency that is listed twice is resolved to the same version both times. */
  lemma {:induction false} ValuesAreInputs(l: Ledger, deps: seq<string>, inputVersions: map<string, nat>)
    requires AllExist(l, Resolved(l, deps, inputVersions))
    ensures AreInputs(l, Resolved(l, deps, inputVersions), Values(l, Resolved(l, deps, inputVersions)))
    ensures PinsFirst(l, deps, inputVersions, Resolved(l, deps, inputVersions))
  {
    ValuesOfSame(l, Resolved(l, deps, inputVersions));
  }

  /** Why an attempt failed: what the stage raised, what its contract says, or that it has none. */
  ghost predicate ReasonIs(contracts: Contracts, stage: string, result: StageResult, error: Option<string>) {
    && (result.Raised? ==> error == Some(result.reason))
    && (result.Returned? && stage in contracts ==> error == contracts[stage](result.value))
    && (result.Returned? && stage !in contracts ==> error == Some("no declared contract"))
  }

  lemma {:induction false} ErrorIsReason(contracts: Contracts, job: Job, exec: Executor, inputs: map<string, Value>,
                    n: nat)
    ensures ReasonIs(contracts, job.stage, exec(n, inputs), AttemptError(contracts, job, exec, inputs, n))
  {
  }

  lemma {:induction false} TraceStart(contracts: Contracts, job: Job, l: Ledger)
    ensures Trace(contracts, job, [Point(l, Attempting(1))])
  {
  }

  lemma {:induction false} FailsWithError(contracts: Contracts, job: Job, exec: Executor, inputs: map<string, Value>,
                    n: nat)
    ensures AttemptFails(contracts, job, exec, inputs, n) <==> AttemptError(contracts, job, exec, inputs, n).Some?
  {
  }

  lemma {:induction false} SuccessOk(contracts: Contracts, job: Job, exec: Executor, inputs: map<string, Value>,
                    l: Ledger, n: nat, version: nat, l': Ledger)
    requires 1 <= n <= job.retries + 1 && (forall k :: 1 <= k < n ==> AttemptFails(contracts, job, exec, inputs, k))
    requires AttemptError(contracts, job, exec, inputs, n).None?
    requires var before := AfterFailures(contracts, job, exec, inputs, l, n - 1);
             && AllExist(before, job.refs) && version == NextVersion(before, job.stage)
             && l' == AfterSuccess(job, exec(n, inputs).value, before)
    ensures OutcomeOk(contracts, job, exec, inputs, l, StageOutcome(Some(version), n, None), l')
  {
    ErrorIsReason(contracts, job, exec, inputs, n);
    hide ReasonIs, AfterSuccess, AllExist;
  }

  lemma {:induction false} FailureOk(contracts: Contracts, job: Job, exec: Executor, inputs: map<string, Value>,
                    l: Ledger, o: StageOutcome, l': Ledger)
    requires o.version.None? && o.attempts == job.retries + 1
    requires job.retries < 0 ==> o.error.None? && l' == l
    requires job.retries >= 0 ==>
               && (forall k :: 1 <= k <= o.attempts ==> AttemptFails(contracts, job, exec, inputs, k))
               && o.error == AttemptError(contracts, job, exec, inputs, o.attempts)
               && l' == AfterFailures(contracts, job, exec, inputs, l, o.attempts)
    ensures OutcomeOk(contracts, job, exec, inputs, l, o, l')
  {
    if job.retries >= 0 {
      ErrorIsReason(contracts, job, exec, inputs, o.attempts);
      assert AttemptFails(contracts, job, exec, inputs, o.attempts);
    }
    hide ReasonIs, AfterFailures;
  }

  /** The contract of the retry loop. */
  ghost predicate OutcomeOk(contracts: Contracts, job: Job, exec: Executor, inputs: map<string, Value>, l: Ledger,
                    o: StageOutcome, l': Ledger) {
    && o.attempts <= job.retries + 1
    && ((o.version.Some? <==> o.error.None?) <==> job.retries >= 0)
    && (job.retries < 0 ==> o == StageOutcome(None, job.retries + 1, None) && l' == l)
    && (job.retries >= 0 ==>
          && o.attempts >= 1
          && (forall k :: 1 <= k < o.attempts ==> AttemptFails(contracts, job, exec, inputs, k))
          && o.error == AttemptError(contracts, job, exec, inputs, o.attempts)
          && ReasonIs(contracts, job.stage, exec(o.attempts, inputs), o.error)
          && (o.error.Some? ==> o.attempts == job.retries + 1
                                && l' == AfterFailures(contracts, job, exec, inputs, l, o.attempts))
          && (o.version.Some? ==>
                var before := AfterFailures(contracts, job, exec, inputs, l, o.attempts - 1);
                && AllExist(before, job.refs)
                && o.version.value == NextVersion(before, job.stage)
                && l' == AfterSuccess(job, exec(o.attempts, inputs).value, before)))
  }

  ghost predicate TraceOk(contracts: Contracts, job: Job, l: Ledger, o: StageOutcome, l': Ledger, t: seq<Point>) {
    && Trace(contracts, job, t)
    && t[0] == Point(l, Attempting(1))
    && o.attempts >= 1
    && t[|t| - 1] == Point(l', if o.version.Some? then Succeeded(o.attempts, o.version.value) else GaveUp(o.attempts))
  }
}
