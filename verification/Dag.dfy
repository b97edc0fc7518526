/** Topological order with cycle detection, and memoised reachability (lib/dag.py). */
module Dag {
  import opened Stages
  import opened Graphs

  // ---- the depth-first search as a function -------------------------------

  /** `visit`: None is CycleError. The visited set is always the set of names already ordered. */
  function Visit(g: Graph, name: string, inProgress: set<string>, ordered: seq<StageDef>): Option<seq<StageDef>>
    requires name in g
    decreases g.Keys - inProgress, 0
  {
    if name in Names(ordered) then Some(ordered)
    else if name in inProgress then None
    else
      match VisitAll(g, g[name].dependsOn, inProgress + {name}, ordered)
      case None => None
      case Some(o) => Some(o + [g[name]])
  }

  /** Visits the registered names of a list from left to right; external names are skipped. */
  function VisitAll(g: Graph, names: seq<string>, inProgress: set<string>,
                    ordered: seq<StageDef>): Option<seq<StageDef>>
    decreases g.Keys - inProgress, |names| + 1
  {
    if names == [] then Some(ordered)
    else if names[0] !in g then VisitAll(g, names[1..], inProgress, ordered)
    else
      match Visit(g, names[0], inProgress, ordered)
      case None => None
      case Some(o) => VisitAll(g, names[1..], inProgress, o)
  }

  function NameList(stages: seq<StageDef>): seq<string> {
    seq(|stages|, i requires 0 <= i < |stages| => stages[i].name)
  }

  function TopologicalOrder(stages: seq<StageDef>): Option<seq<StageDef>> {
    VisitAll(ByName(stages), NameList(stages), {}, [])
  }

  // ---- soundness: what has been ordered is ordered correctly --------------

  /** What holds of `ordered` all along the search. */
  ghost predicate Partial(g: Graph, o: seq<StageDef>) {
    && DistinctNames(o)
    && (forall i :: 0 <= i < |o| ==> o[i].name in g && g[o[i].name] == o[i])
    && forall i, d :: 0 <= i < |o| && d in o[i].dependsOn && d in g ==> d in Names(o[..i])
  }

  lemma {:induction false} NamesGrow(o: seq<StageDef>, p: seq<StageDef>)
    requires o <= p
    ensures Names(o) <= Names(p)
  {
    forall n | n in Names(o) ensures n in Names(p) {
      var i :| 0 <= i < |o| && o[i].name == n;
      assert p[i] == o[i];
    }
  }

  lemma {:induction false} NamesSnoc(o: seq<StageDef>, s: StageDef)
    ensures Names(o + [s]) == Names(o) + {s.name}
  {
    NamesGrow(o, o + [s]);
    assert (o + [s])[|o|] == s;
  }

  lemma {:induction false} PartialAppend(g: Graph, o: seq<StageDef>, name: string)
    requires Partial(g, o) && name in g && g[name].name == name && name !in Names(o)
    requires forall d :: d in g[name].dependsOn && d in g ==> d in Names(o)
    ensures Partial(g, o + [g[name]]) && Names(o + [g[name]]) == Names(o) + {name}
  {
    var p := o + [g[name]];
    assert forall i :: 0 <= i < |o| ==> o[i].name in Names(o);
    assert p[..|o|] == o;
    forall i, d | 0 <= i < |p| && d in p[i].dependsOn && d in g ensures d in Names(p[..i]) {
      if i < |o| { assert p[..i] == o[..i]; }
    }
  }

  ghost predicate Extends(g: Graph, o: seq<StageDef>, p: seq<StageDef>, inProgress: set<string>) {
    Partial(g, p) && o <= p && Names(p) !! inProgress
  }

  lemma {:induction false} VisitSound(g: Graph, name: string, inProgress: set<string>, o: seq<StageDef>)
    requires name in g && (forall n <- g :: g[n].name == n)
    requires Partial(g, o) && Names(o) !! inProgress
    ensures var r := Visit(g, name, inProgress, o);
            r.Some? ==> Extends(g, o, r.value, inProgress) && name in Names(r.value)
    decreases g.Keys - inProgress, 0
  {
    if name !in Names(o) && name !in inProgress {
      VisitAllSound(g, g[name].dependsOn, inProgress + {name}, o);
      var r := VisitAll(g, g[name].dependsOn, inProgress + {name}, o);
      if r.Some? { PartialAppend(g, r.value, name); }
    }
  }

  lemma {:induction false} VisitAllSound(g: Graph, names: seq<string>, inProgress: set<string>, o: seq<StageDef>)
    requires forall n <- g :: g[n].name == n
    requires Partial(g, o) && Names(o) !! inProgress
    ensures var r := VisitAll(g, names, inProgress, o);
            r.Some? ==> Extends(g, o, r.value, inProgress) && forall n :: n in names && n in g ==> n in Names(r.value)
    decreases g.Keys - inProgress, |names| + 1
  {
    if names != [] {
      if names[0] !in g {
        VisitAllSound(g, names[1..], inProgress, o);
      } else {
        VisitSound(g, names[0], inProgress, o);
        var v := Visit(g, names[0], inProgress, o);
        if v.Some? {
          VisitAllSound(g, names[1..], inProgress, v.value);
          var r := VisitAll(g, names[1..], inProgress, v.value);
          if r.Some? { NamesGrow(v.value, r.value); }
        }
      }
    }
  }

  // ---- completeness: a CycleError comes with a cycle ----------------------

  /** The names in progress, in call order: each is a dependency of the one before. */
  ghost predicate CallStack(g: Graph, stack: seq<string>, inProgress: set<string>) {
    && (forall n :: n in inProgress <==> n in stack)
    && (stack != [] ==> Path(g, stack))
  }

  lemma {:induction false} CycleFound(g: Graph, stack: seq<string>, name: string)
    requires Path(g, stack) && name in stack && Edge(g, stack[|stack| - 1], name)
    ensures HasCycle(g)
  {
    var k :| 0 <= k < |stack| && stack[k] == name;
    var p := stack[k..] + [name];
    forall i | 0 <= i < |p| - 1 ensures Edge(g, p[i], p[i + 1]) {
      if i < |stack| - 1 - k { assert Edge(g, stack[k + i], stack[k + i + 1]); }
    }
    assert Path(g, p) && |p| >= 2 && p[0] == p[|p| - 1];
  }

  lemma {:induction false} VisitFindsCycle(g: Graph, name: string, inProgress: set<string>, o: seq<StageDef>,
                    stack: seq<string>)
    requires name in g && CallStack(g, stack, inProgress)
    requires stack != [] ==> Edge(g, stack[|stack| - 1], name)
    requires Visit(g, name, inProgress, o).None?
    ensures HasCycle(g)
    decreases g.Keys - inProgress, 0
  {
    if name in inProgress {
      CycleFound(g, stack, name);
    } else {
      var deeper := stack + [name];
      forall i | 0 <= i < |deeper| - 1 ensures Edge(g, deeper[i], deeper[i + 1]) {
        if i < |stack| - 1 { assert Edge(g, stack[i], stack[i + 1]); }
      }
      VisitAllFindsCycle(g, g[name].dependsOn, inProgress + {name}, o, deeper);
    }
  }

  lemma {:induction false} VisitAllFindsCycle(g: Graph, names: seq<string>, inProgress: set<string>,
                    o: seq<StageDef>, stack: seq<string>)
    requires CallStack(g, stack, inProgress)
    requires stack != [] ==> stack[|stack| - 1] in g
    requires stack != [] ==> forall i :: 0 <= i < |names| ==> names[i] in g[stack[|stack| - 1]].dependsOn
    requires VisitAll(g, names, inProgress, o).None?
    ensures HasCycle(g)
    decreases g.Keys - inProgress, |names| + 1
  {
    if names[0] !in g {
      VisitAllFindsCycle(g, names[1..], inProgress, o, stack);
    } else {
      match Visit(g, names[0], inProgress, o)
      case None => VisitFindsCycle(g, names[0], inProgress, o, stack);
      case Some(o') => VisitAllFindsCycle(g, names[1..], inProgress, o', stack);
    }
  }

  // ---- the contract of topological_order ----------------------------------

  /** An order of exactly the registered stages. */
  ghost predicate OrderOf(o: seq<StageDef>, stages: seq<StageDef>) {
    IsOrder(o) && ByName(o) == ByName(stages)
  }

  lemma {:induction false} PartialTotalIsOrder(g: Graph, o: seq<StageDef>)
    requires Partial(g, o) && Names(o) == g.Keys
    ensures IsOrder(o) && ByName(o) == g
  {
    ByNameIs(o, g);
  }

  /** CycleError exactly on cyclic graphs; otherwise each registered stage once, after its dependencies. */
  lemma {:induction false} TopologicalOrderCorrect(stages: seq<StageDef>)
    ensures TopologicalOrder(stages).None? <==> HasCycle(ByName(stages))
    ensures TopologicalOrder(stages).Some? ==> OrderOf(TopologicalOrder(stages).value, stages)
  {
    var g, names := ByName(stages), NameList(stages);
    match TopologicalOrder(stages)
    case None => VisitAllFindsCycle(g, names, {}, [], []);
    case Some(o) =>
      VisitAllSound(g, names, {}, []);
      forall n | n in g ensures n in Names(o) {
        var i :| 0 <= i < |stages| && stages[i].name == n;
        assert names[i] == n;
      }
      assert Names(o) == g.Keys;
      PartialTotalIsOrder(g, o);
      OrderedIsAcyclic(o);
  }

  lemma {:induction false} SameElementsSameMultiset(a: seq<StageDef>, b: seq<StageDef>)
    requires DistinctNames(a) && DistinctNames(b)
    requires forall s :: s in a <==> s in b
    ensures multiset(a) == multiset(b)
  {
    forall s ensures multiset(a)[s] == multiset(b)[s] {
      DistinctCountsOnce(a, s);
      DistinctCountsOnce(b, s);
    }
  }

  lemma {:induction false} DistinctCountsOnce(a: seq<StageDef>, s: StageDef)
    requires DistinctNames(a)
    ensures multiset(a)[s] == if s in a then 1 else 0
  {
    if a != [] {
      var init, last := a[..|a| - 1], a[|a| - 1];
      assert a == init + [last];
      DistinctCountsOnce(init, s);
      assert forall i :: 0 <= i < |init| ==> init[i].name != last.name;
    }
  }

  /** On a registry, where names are unique, the order is a permutation of the stages. */
  lemma {:induction false} TopologicalOrderPermutes(stages: seq<StageDef>)
    requires DistinctNames(stages) && TopologicalOrder(stages).Some?
    ensures multiset(TopologicalOrder(stages).value) == multiset(stages)
  {
    var o := TopologicalOrder(stages).value;
    TopologicalOrderCorrect(stages);
    ByNameOfDistinct(stages);
    ByNameOfDistinct(o);
    var g := ByName(stages);
    forall s ensures s in o <==> s in stages {
      if s in o {
        var i :| 0 <= i < |o| && o[i] == s;
        assert g[s.name] == s && s.name in Names(stages);
      }
      if s in stages {
        var i :| 0 <= i < |stages| && stages[i] == s;
        assert g[s.name] == s && s.name in g && s.name in Names(o);
      }
    }
    SameElementsSameMultiset(o, stages);
  }

  // ---- a list that is in order already ------------------------------------

  lemma {:induction false} VisitAllDone(g: Graph, names: seq<string>, inProgress: set<string>, o: seq<StageDef>)
    requires forall i :: 0 <= i < |names| && names[i] in g ==> names[i] in Names(o)
    ensures VisitAll(g, names, inProgress, o) == Some(o)
  {
    if names != [] { VisitAllDone(g, names[1..], inProgress, o); }
  }

  lemma {:induction false} VisitReady(g: Graph, name: string, inProgress: set<string>, o: seq<StageDef>)
    requires name in g && name !in Names(o) && name !in inProgress
    requires forall i :: 0 <= i < |g[name].dependsOn| && g[name].dependsOn[i] in g ==> g[name].dependsOn[i] in Names(o)
    ensures Visit(g, name, inProgress, o) == Some(o + [g[name]])
  {
    VisitAllDone(g, g[name].dependsOn, inProgress + {name}, o);
  }

  lemma {:induction false} OrderedAt(stages: seq<StageDef>, i: nat)
    requires IsOrder(stages) && i < |stages|
    ensures var g, s := ByName(stages), stages[i];
            && s.name in g && g[s.name] == s && s.name !in Names(stages[..i])
            && forall k :: 0 <= k < |s.dependsOn| && s.dependsOn[k] in g ==> s.dependsOn[k] in Names(stages[..i])
  {
    ByNameOfDistinct(stages);
    assert stages[i] in stages;
    forall s | s in stages[..i] ensures s.name != stages[i].name {
      var k :| 0 <= k < i && stages[k] == s;
    }
  }

  lemma {:induction false} NamesFrom(stages: seq<StageDef>, i: nat)
    requires i < |stages|
    ensures NameList(stages)[i..] == [stages[i].name] + NameList(stages)[i + 1..]
    ensures stages[..i + 1] == stages[..i] + [stages[i]]
  {
  }

  lemma {:induction false} VisitFirst(g: Graph, name: string, rest: seq<string>, o: seq<StageDef>, o': seq<StageDef>)
    requires name in g && Visit(g, name, {}, o) == Some(o')
    ensures VisitAll(g, [name] + rest, {}, o) == VisitAll(g, rest, {}, o')
  {
    assert ([name] + rest)[1..] == rest;
  }

  lemma {:induction false} OrderedFrom(stages: seq<StageDef>, i: nat)
    requires IsOrder(stages) && i <= |stages|
    ensures VisitAll(ByName(stages), NameList(stages)[i..], {}, stages[..i]) == Some(stages)
    decreases |stages| - i
  {
    var g, names := ByName(stages), NameList(stages);
    if i == |stages| {
      assert stages[..i] == stages && names[i..] == [];
    } else {
      OrderedAt(stages, i);
      NamesFrom(stages, i);
      OrderedFrom(stages, i + 1);
      hide *;
      VisitReady(g, stages[i].name, {}, stages[..i]);
      VisitFirst(g, stages[i].name, names[i + 1..], stages[..i], stages[..i + 1]);
    }
  }

  /** Stages that are declared in dependency order come out exactly as declared. */
  lemma {:induction false} OrderedIsFixed(stages: seq<StageDef>)
    requires IsOrder(stages)
    ensures TopologicalOrder(stages) == Some(stages)
  {
    OrderedFrom(stages, 0);
    assert NameList(stages)[0..] == NameList(stages) && stages[..0] == [];
  }

  // ---- the code: a nested function over shared mutable sets ---------------

  /** The variables that `visit` closes over. */
  class TopologicalSort {
    const byName: map<string, StageDef>
    var visited: set<string>
    var inProgress: set<string>
    var ordered: seq<StageDef>

    constructor (stages: seq<StageDef>)
      ensures byName == ByName(stages) && visited == {} && inProgress == {} && ordered == []
    {
      byName := ByName(stages);
      visited, inProgress, ordered := {}, {}, [];
    }

    method VisitName(name: string) returns (ok: bool)
      requires name in byName && (forall n <- byName :: byName[n].name == n) && visited == Names(ordered)
      modifies this
      ensures ok == Visit(byName, name, old(inProgress), old(ordered)).Some?
      ensures ok ==> visited == Names(ordered) && inProgress == old(inProgress)
      ensures ok ==> Some(ordered) == Visit(byName, name, old(inProgress), old(ordered))
      decreases byName.Keys - inProgress
    {
      if name in visited { return true; }
      if name in inProgress { return false; }
      inProgress := inProgress + {name};
      var deps := byName[name].dependsOn;
      for i := 0 to |deps|
        invariant visited == Names(ordered) && inProgress == old(inProgress) + {name}
        invariant VisitAll(byName, deps[i..], inProgress, ordered)
               == VisitAll(byName, deps, inProgress, old(ordered))
      {
        assert deps[i..][1..] == deps[i + 1..];
        if deps[i] in byName {
          ok := VisitName(deps[i]);
          if !ok { return; }
        }
      }
      inProgress := inProgress - {name};
      visited := visited + {name};
      NamesSnoc(ordered, byName[name]);
      ordered := ordered + [byName[name]];
      ok := true;
    }
  }

  method ComputeTopologicalOrder(stages: seq<StageDef>) returns (order: Option<seq<StageDef>>)
    ensures order == TopologicalOrder(stages)
    ensures order.None? <==> HasCycle(ByName(stages))
    ensures order.Some? ==> OrderOf(order.value, stages)
  {
    TopologicalOrderCorrect(stages);
    var search := new TopologicalSort(stages);
    ghost var names := NameList(stages);
    for i := 0 to |stages|
      invariant search.visited == Names(search.ordered) && search.inProgress == {}
      invariant search.byName == ByName(stages)
      invariant fresh(search)
      invariant VisitAll(search.byName, names[i..], {}, search.ordered) == TopologicalOrder(stages)
    {
      assert names[i..][1..] == names[i + 1..];
      assert stages[i] in stages;
      var ok := search.VisitName(stages[i].name);
      if !ok { return None; }
    }
    order := Some(search.ordered);
  }

  // ---- reachable_from ------------------------------------------------------

  /** The stages that are `start` or depend on it, however indirectly. */
  ghost function ReachableFrom(g: Graph, start: string): set<string> {
    set n | n in g && Reaches(g, n, start)
  }

  /** A run's range only grows downstream: whatever depends on a reachable stage is reachable. */
  lemma {:induction false} ReachableIsClosed(g: Graph, start: string, dependent: string, n: string)
    requires n in ReachableFrom(g, start) && Edge(g, dependent, n)
    ensures dependent in ReachableFrom(g, start)
  {
    ReachesStep(g, dependent, n, start);
  }

  /** The recursive characterisation that the memoised search follows. */
  ghost predicate IsDependents(g: Graph, start: string, r: set<string>) {
    forall n <- g :: n in r <==> n == start || exists i :: 0 <= i < |g[n].dependsOn| && g[n].dependsOn[i] in r
  }

  lemma {:induction false} ReachableIsDependents(g: Graph, start: string)
    ensures IsDependents(g, start, ReachableFrom(g, start))
  {
    var r := ReachableFrom(g, start);
    forall n | n in g
      ensures n in r <==> n == start || exists i :: 0 <= i < |g[n].dependsOn| && g[n].dependsOn[i] in r
    {
      ReachesUnfold(g, n, start);
      if d :| Edge(g, n, d) && Reaches(g, d, start) {
        var i :| 0 <= i < |g[n].dependsOn| && g[n].dependsOn[i] == d;
        assert d in r;
      }
      if i :| 0 <= i < |g[n].dependsOn| && g[n].dependsOn[i] in r {
        assert Edge(g, n, g[n].dependsOn[i]);
      }
    }
  }

  lemma {:induction false} DependentsAt(g: Graph, start: string, r: set<string>, n: string)
    requires IsDependents(g, start, r) && n in g
    ensures n == start ==> n in r
    ensures forall i :: 0 <= i < |g[n].dependsOn| && g[n].dependsOn[i] in r ==> n in r
    ensures n != start && (forall i :: 0 <= i < |g[n].dependsOn| ==> g[n].dependsOn[i] !in r) ==> n !in r
  {
  }

  /** The variables that `depends_on_start` closes over. */
  class Reachability {
    const byName: map<string, StageDef>
    const startFrom: string
    var memo: map<string, bool>
    ghost const order: seq<StageDef>
    ghost const dependents: set<string>

    /** Whatever was asked before, every memoised answer is the right one. */
    ghost predicate Valid()
      reads this
    {
      && IsOrder(order) && ByName(order) == byName
      && dependents <= byName.Keys && IsDependents(byName, startFrom, dependents)
      && forall n <- memo :: n in byName && memo[n] == (n in dependents)
    }

    constructor (stages: seq<StageDef>, startFrom: string)
      requires !HasCycle(ByName(stages))
      ensures Valid() && byName == ByName(stages) && this.startFrom == startFrom
      ensures dependents == ReachableFrom(ByName(stages), startFrom)
    {
      byName := ByName(stages);
      this.startFrom := startFrom;
      memo := map[];
      TopologicalOrderCorrect(stages);
      ReachableIsDependents(ByName(stages), startFrom);
      order := TopologicalOrder(stages).value;
      dependents := ReachableFrom(ByName(stages), startFrom);
    }

    method DependsOnStart(name: string) returns (b: bool)
      requires Valid() && name in byName
      modifies this
      ensures Valid() && b == (name in dependents)
      decreases Rank(order, name)
    {
      hide IsDependents, IsOrder;
      if name !in memo {
        DependentsAt(byName, startFrom, dependents, name);
        var found := name == startFrom;
        var deps := byName[name].dependsOn;
        var i := 0;
        while i < |deps| && !found
          invariant Valid() && 0 <= i <= |deps|
          invariant found ==> name in dependents
          invariant !found ==> name != startFrom && forall k :: 0 <= k < i ==> deps[k] !in dependents
          decreases |deps| - i
        {
          if deps[i] in byName {
            EdgeDecreasesRank(order, name, deps[i]);
            found := DependsOnStart(deps[i]);
          }
          i := i + 1;
        }
        memo := memo[name := found];
      }
      b := memo[name];
    }

    /** The answers for every stage, in any order. */
    method AllDependents() returns (r: set<string>)
      requires Valid()
      modifies this
      ensures r == dependents
    {
      hide IsDependents, IsOrder;
      var names := byName.Keys;
      r := {};
      while names != {}
        invariant Valid() && names <= byName.Keys
        invariant r == dependents - names
        decreases names
      {
        var n :| n in names;
        var b := DependsOnStart(n);
        names := names - {n};
        if b { r := r + {n}; }
      }
    }
  }

  /** None is UnknownDependencyError. As in the code, the caller has checked that the graph is acyclic. */
  method ComputeReachableFrom(stages: seq<StageDef>, startFrom: string) returns (r: Option<set<string>>)
    requires !HasCycle(ByName(stages))
    ensures r.None? <==> startFrom !in Names(stages)
    ensures r.Some? ==> r.value == ReachableFrom(ByName(stages), startFrom)
  {
    var query := new Reachability(stages, startFrom);
    if startFrom !in query.byName { return None; }
    var dependents := query.AllDependents();
    r := Some(dependents);
  }
}
