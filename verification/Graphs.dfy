/** Dependency graphs by declared `depends_on` names: paths, cycles and orders, stated declaratively. */
module Graphs {
  import opened Stages

  type Graph = map<string, StageDef>

  /** An in-graph dependency; a name that no stage registers is external and never an edge. */
  predicate Edge(g: Graph, from: string, to: string) {
    from in g && to in g && to in g[from].dependsOn
  }

  /** A non-empty path along dependencies. */
  predicate Path(g: Graph, p: seq<string>) {
    |p| > 0 && p[0] in g && forall i :: 0 <= i < |p| - 1 ==> Edge(g, p[i], p[i + 1])
  }

  predicate PathFrom(g: Graph, p: seq<string>, from: string) {
    Path(g, p) && p[0] == from
  }

  predicate PathBetween(g: Graph, p: seq<string>, from: string, to: string) {
    PathFrom(g, p, from) && p[|p| - 1] == to
  }

  /** `from` is `to` or depends on it, however indirectly. */
  ghost predicate Reaches(g: Graph, from: string, to: string) {
    exists p :: PathBetween(g, p, from, to)
  }

  ghost predicate HasCycle(g: Graph) {
    exists p :: Path(g, p) && |p| >= 2 && p[0] == p[|p| - 1]
  }

  /** Every stage stands strictly after all of its in-graph dependencies. */
  ghost predicate IsOrder(o: seq<StageDef>) {
    && DistinctNames(o)
    && forall i, d :: 0 <= i < |o| && d in o[i].dependsOn && d in Names(o) ==> d in Names(o[..i])
  }

  /** Position of a name in an order. */
  ghost function Rank(o: seq<StageDef>, n: string): (i: nat)
    requires n in Names(o)
    ensures i < |o| && o[i].name == n
  {
    var i :| 0 <= i < |o| && o[i].name == n; i
  }

  lemma {:induction false} EdgeDecreasesRank(o: seq<StageDef>, a: string, b: string)
    requires IsOrder(o) && Edge(ByName(o), a, b)
    ensures Rank(o, b) < Rank(o, a)
  {
    ByNameOfDistinct(o);
    var i := Rank(o, a);
    assert b in Names(o[..i]);
    var j :| 0 <= j < i && o[..i][j].name == b;
    assert o[j].name == b;
  }

  /** A certificate of acyclicity that does not mention any order: dependencies have smaller ranks. */
  ghost predicate Ranked(g: Graph, rank: map<string, nat>) {
    && rank.Keys == g.Keys
    && forall a, b {:trigger rank[a], rank[b]} {:trigger Edge(g, a, b)} :: Edge(g, a, b) ==> rank[b] < rank[a]
  }

  lemma {:induction false} OrderGivesRanks(o: seq<StageDef>) returns (rank: map<string, nat>)
    requires IsOrder(o)
    ensures Ranked(ByName(o), rank)
  {
    rank := map n | n in Names(o) :: Rank(o, n);
    forall a, b | Edge(ByName(o), a, b) ensures rank[b] < rank[a] {
      EdgeDecreasesRank(o, a, b);
    }
  }

  lemma {:induction false} PathTail(g: Graph, p: seq<string>)
    requires Path(g, p) && |p| > 1
    ensures Edge(g, p[0], p[1]) && Path(g, p[1..])
  {
    var q := p[1..];
    assert Edge(g, p[0], p[1]);
    forall i | 0 <= i < |q| - 1 ensures Edge(g, q[i], q[i + 1]) {
      assert Edge(g, p[i + 1], p[i + 2]);
    }
  }

  lemma {:induction false} PathHead(g: Graph, p: seq<string>, k: nat)
    requires Path(g, p) && k < |p|
    ensures Path(g, p[..k + 1]) && p[..k + 1][0] == p[0] && p[..k + 1][k] == p[k]
  {
    var q := p[..k + 1];
    forall i | 0 <= i < |q| - 1 ensures Edge(g, q[i], q[i + 1]) {
      assert Edge(g, p[i], p[i + 1]);
    }
  }

  lemma {:induction false} PathDecreasesRank(o: seq<StageDef>, p: seq<string>)
    requires IsOrder(o) && Path(ByName(o), p)
    ensures p[|p| - 1] in Names(o) && Rank(o, p[|p| - 1]) + |p| - 1 <= Rank(o, p[0])
  {
    if |p| > 1 {
      PathTail(ByName(o), p);
      PathDecreasesRank(o, p[1..]);
      EdgeDecreasesRank(o, p[0], p[1]);
    }
  }

  /** An order is a certificate of acyclicity. */
  lemma {:induction false} OrderedIsAcyclic(o: seq<StageDef>)
    requires IsOrder(o)
    ensures !HasCycle(ByName(o))
  {
    forall p | Path(ByName(o), p) && |p| >= 2 ensures p[0] != p[|p| - 1] {
      PathDecreasesRank(o, p);
    }
  }

  lemma {:induction false} PathExtendsLeft(g: Graph, from: string, p: seq<string>)
    requires Path(g, p) && Edge(g, from, p[0])
    ensures Path(g, [from] + p)
  {
    var q := [from] + p;
    forall i | 0 <= i < |q| - 1 ensures Edge(g, q[i], q[i + 1]) {
      if i > 0 { assert Edge(g, p[i - 1], p[i]); }
    }
  }

  lemma {:induction false} PathExtendsRight(g: Graph, p: seq<string>, to: string)
    requires Path(g, p) && Edge(g, p[|p| - 1], to)
    ensures Path(g, p + [to])
  {
    var q := p + [to];
    forall i | 0 <= i < |q| - 1 ensures Edge(g, q[i], q[i + 1]) {
      if i < |p| - 1 { assert Edge(g, p[i], p[i + 1]); }
    }
  }

  lemma {:induction false} ReachesStep(g: Graph, from: string, mid: string, to: string)
    requires Edge(g, from, mid) && Reaches(g, mid, to)
    ensures Reaches(g, from, to)
  {
    var p :| PathBetween(g, p, mid, to);
    PathExtendsLeft(g, from, p);
    assert PathBetween(g, [from] + p, from, to);
  }

  lemma {:induction false} ReachesSelf(g: Graph, n: string)
    requires n in g
    ensures Reaches(g, n, n)
  {
    assert PathBetween(g, [n], n, n);
  }

  /** Reaching is being there already or reaching from some direct dependency. */
  lemma {:induction false} ReachesUnfold(g: Graph, from: string, to: string)
    requires from in g
    ensures Reaches(g, from, to) <==> from == to || exists d :: Edge(g, from, d) && Reaches(g, d, to)
  {
    if Reaches(g, from, to) && from != to {
      var p :| PathBetween(g, p, from, to);
      PathTail(g, p);
      assert PathBetween(g, p[1..], p[1], to);
      assert Edge(g, from, p[1]) && Reaches(g, p[1], to);
    }
    if from == to { ReachesSelf(g, from); }
    if d :| Edge(g, from, d) && Reaches(g, d, to) { ReachesStep(g, from, d, to); }
  }
}
