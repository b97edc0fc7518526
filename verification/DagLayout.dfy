/** Longest-path layering of a workflow's stages for display (services/web/src/dagLayout.js). */
module DagLayout {
  import opened Stages
  import opened Graphs
  import Dag

  // ---- what depths are -----------------------------------------------------

  /** One more than the deepest in-graph dependency, or zero without any. */
  ghost predicate DepthAt(g: Graph, m: map<string, nat>, n: string) {
    n in g && n in m &&
    var deps := g[n].dependsOn;
    && (forall i :: 0 <= i < |deps| && deps[i] in g ==> deps[i] in m && m[deps[i]] < m[n])
    && (m[n] > 0 ==> exists i :: 0 <= i < |deps| && deps[i] in g && deps[i] in m && m[n] == m[deps[i]] + 1)
  }

  ghost predicate IsDepths(g: Graph, m: map<string, nat>) {
    m.Keys == g.Keys && forall n {:trigger DepthAt(g, m, n)} :: n in g ==> DepthAt(g, m, n)
  }

  lemma {:induction false} PathsAreShort(g: Graph, m: map<string, nat>, p: seq<string>)
    requires IsDepths(g, m) && Path(g, p)
    ensures |p| <= m[p[0]] + 1
  {
    if |p| > 1 {
      PathTail(g, p);
      PathsAreShort(g, m, p[1..]);
      assert DepthAt(g, m, p[0]);
    }
  }

  lemma {:induction false} DeepestPath(g: Graph, m: map<string, nat>, n: string) returns (p: seq<string>)
    requires IsDepths(g, m) && n in g
    ensures PathFrom(g, p, n) && |p| == m[n] + 1
    decreases m[n]
  {
    p := [n];
    if m[n] > 0 {
      assert DepthAt(g, m, n);
      var i :| 0 <= i < |g[n].dependsOn| && g[n].dependsOn[i] in g && m[n] == m[g[n].dependsOn[i]] + 1;
      var q := DeepestPath(g, m, g[n].dependsOn[i]);
      PathExtendsLeft(g, n, q);
      p := [n] + q;
    }
  }

  /** The depth of a stage is the number of edges of a longest dependency path from it. */
  lemma {:induction false} DepthIsLongestPath(g: Graph, m: map<string, nat>, n: string)
    requires IsDepths(g, m) && n in g
    ensures exists p :: PathFrom(g, p, n) && |p| == m[n] + 1
    ensures forall p :: PathFrom(g, p, n) ==> |p| <= m[n] + 1
  {
    var p := DeepestPath(g, m, n);
    forall p | PathFrom(g, p, n) ensures |p| <= m[n] + 1 {
      PathsAreShort(g, m, p);
    }
  }

  lemma {:induction false} DepthsAtMost(g: Graph, m: map<string, nat>, m': map<string, nat>, n: string)
    requires IsDepths(g, m) && IsDepths(g, m') && n in g
    ensures m[n] <= m'[n]
  {
    var p := DeepestPath(g, m, n);
    PathsAreShort(g, m', p);
  }

  /** Hence a graph has at most one depth assignment. */
  lemma {:induction false} DepthsAreUnique(g: Graph, m: map<string, nat>, m': map<string, nat>)
    requires IsDepths(g, m) && IsDepths(g, m')
    ensures m == m'
  {
    forall n | n in m ensures m[n] == m'[n] {
      DepthsAtMost(g, m, m', n);
      DepthsAtMost(g, m', m, n);
    }
  }

  // ---- stageDepths ---------------------------------------------------------

  /** Entries of `open` names hold the cycle guard; all others are final and rest on final ones. */
  ghost predicate Settled(g: Graph, m: map<string, nat>, open: set<string>) {
    forall n {:trigger DepthAt(g, m, n)} :: n in m && n !in open
                                            ==> DepthAt(g, m, n) && forall i :: 0 <= i < |g[n].dependsOn|
                                                                                ==> g[n].dependsOn[i] !in open
  }

  lemma {:induction false} OpenName(g: Graph, m: map<string, nat>, open: set<string>, name: string)
    requires Settled(g, m, open) && name !in m && name in g
    ensures Settled(g, m[name := 0], open + {name})
  {
    var m' := m[name := 0];
    forall n | n in m' && n !in open + {name}
      ensures DepthAt(g, m', n) && forall i :: 0 <= i < |g[n].dependsOn| ==> g[n].dependsOn[i] !in open + {name}
    {
      assert DepthAt(g, m, n);
    }
  }

  lemma {:induction false} CloseName(g: Graph, m: map<string, nat>, open: set<string>, name: string, d: nat)
    requires Settled(g, m, open + {name}) && name in g && name !in open
    requires forall i :: 0 <= i < |g[name].dependsOn| ==> g[name].dependsOn[i] !in open + {name}
    requires DepthAt(g, m[name := d], name)
    ensures Settled(g, m[name := d], open)
  {
    var m' := m[name := d];
    forall n | n in m' && n !in open && n != name
      ensures DepthAt(g, m', n) && forall i :: 0 <= i < |g[n].dependsOn| ==> g[n].dependsOn[i] !in open
    {
      assert DepthAt(g, m, n);
    }
  }

  /** What the loop over the dependencies of one stage knows after the first k; `best` is a deepest one. */
  ghost predicate DeepestOf(g: Graph, m: map<string, nat>, deps: seq<string>, k: nat, d: nat, best: nat)
    requires k <= |deps|
  {
    && (forall i :: 0 <= i < k && deps[i] in g ==> deps[i] in m && m[deps[i]] < d)
    && (d > 0 ==> best < k && deps[best] in g && deps[best] in m && d == m[deps[best]] + 1)
  }

  /** The variables that `depthOf` closes over. */
  class StageDepths {
    const byName: map<string, StageDef>
    var depth: map<string, nat>
    ghost const rank: Option<map<string, nat>>

    ghost predicate Valid(open: set<string>)
      reads this
    {
      && open <= depth.Keys <= byName.Keys
      && (rank.Some? ==> Ranked(byName, rank.value) && Settled(byName, depth, open))
    }

    constructor (stages: seq<StageDef>)
      ensures Valid({}) && byName == ByName(stages)
      ensures !HasCycle(ByName(stages)) ==> rank.Some?
    {
      byName := ByName(stages);
      depth := map[];
      if !HasCycle(ByName(stages)) {
        Dag.TopologicalOrderCorrect(stages);
        ghost var r := OrderGivesRanks(Dag.TopologicalOrder(stages).value);
        rank := Some(r);
      } else {
        rank := None;
      }
    }

    /** The names under computation depend on this one. */
    ghost predicate Below(name: string, open: set<string>)
      requires open <= byName.Keys && name in byName
      requires rank.Some? ==> rank.value.Keys == byName.Keys
    {
      rank.Some? ==> forall n <- open :: rank.value[name] < rank.value[n]
    }

    /** Ends on cyclic graphs too, thanks to the guard. */
    method DepthOf(name: string, ghost open: set<string>) returns (d: nat)
      requires Valid(open) && name in byName && Below(name, open)
      modifies this
      ensures Valid(open)
      ensures name in depth && depth[name] == d
      ensures forall n <- old(depth) :: n in depth && depth[n] == old(depth)[n]
      decreases byName.Keys - depth.Keys
    {
      if name in depth { return depth[name]; }
      if rank.Some? { OpenName(byName, depth, open, name); }
      depth := depth[name := 0];
      var deps := byName[name].dependsOn;
      d := 0;
      ghost var best := 0;
      for i := 0 to |deps|
        invariant Valid(open + {name}) && name in depth
        invariant forall n <- old(depth) :: n in depth && depth[n] == old(depth)[n]
        invariant DeepestOf(byName, depth, deps, i, d, best)
        invariant rank.Some? ==> forall k :: 0 <= k < i ==> deps[k] !in open + {name}
      {
        if deps[i] in byName {
          assert Edge(byName, name, deps[i]);
          var depDepth := DepthOf(deps[i], open + {name});
          if d < 1 + depDepth { d, best := 1 + depDepth, i; }
        }
      }
      if rank.Some? { CloseName(byName, depth, open, name, d); }
      depth := depth[name := d];
    }

    /** The loop over all stages. */
    method VisitStages(stages: seq<StageDef>)
      requires Valid({}) && forall k :: 0 <= k < |stages| ==> stages[k].name in byName
      modifies this
      ensures Valid({}) && forall k :: 0 <= k < |stages| ==> stages[k].name in depth
    {
      hide Settled, Ranked;
      for i := 0 to |stages|
        invariant Valid({}) && forall k :: 0 <= k < i ==> stages[k].name in depth
      {
        var _ := DepthOf(stages[i].name, {});
      }
    }
  }

  /** Once no name is open, settled entries are the depths. */
  lemma {:induction false} AllSettled(g: Graph, rank: Option<map<string, nat>>, m: map<string, nat>)
    requires rank.Some? ==> Settled(g, m, {})
    ensures rank.Some? && m.Keys == g.Keys ==> IsDepths(g, m)
  {
  }

  method ComputeStageDepths(stages: seq<StageDef>) returns (depth: map<string, nat>)
    ensures depth.Keys == Names(stages)
    ensures !HasCycle(ByName(stages)) ==> IsDepths(ByName(stages), depth)
  {
    var c := new StageDepths(stages);
    forall k | 0 <= k < |stages| ensures stages[k].name in c.byName { assert stages[k] in stages; }
    c.VisitStages(stages);
    depth := c.depth;
    AllSettled(ByName(stages), c.rank, depth);
  }

  // ---- graphLayout ---------------------------------------------------------

  datatype Kind = External | Stage(retries: int)
  datatype Node = Node(name: string, kind: Kind, dependsOn: seq<string>)

  function ExternalNames(stages: seq<StageDef>): set<string> {
    set s, d | s in stages && d in s.dependsOn && d !in Names(stages) :: d
  }

  function StageNode(s: StageDef): Node { Node(s.name, Stage(s.retries), s.dependsOn) }
  function ExternalNode(n: string): Node { Node(n, External, []) }

  predicate Covers(depth: map<string, nat>, stages: seq<StageDef>) {
    forall i :: 0 <= i < |stages| ==> stages[i].name in depth
  }

  /** The stages that belong to one level, in registration order. */
  function Column(stages: seq<StageDef>, depth: map<string, nat>, shift: nat, level: nat): seq<Node>
    requires Covers(depth, stages)
  {
    if stages == [] then []
    else
      var init, s := stages[..|stages| - 1], stages[|stages| - 1];
      Column(init, depth, shift, level) + if depth[s.name] + shift == level then [StageNode(s)] else []
  }

  function ExternalColumn(externals: seq<string>, level: nat): seq<Node> {
    if level == 0 then seq(|externals|, i requires 0 <= i < |externals| => ExternalNode(externals[i])) else []
  }

  function InEdges(s: StageDef): seq<(string, string)> {
    seq(|s.dependsOn|, i requires 0 <= i < |s.dependsOn| => (s.dependsOn[i], s.name))
  }

  function EdgesOf(stages: seq<StageDef>): seq<(string, string)> {
    if stages == [] then [] else EdgesOf(stages[..|stages| - 1]) + InEdges(stages[|stages| - 1])
  }

  lemma {:induction false} ColumnMembers(stages: seq<StageDef>, depth: map<string, nat>, shift: nat, level: nat,
                    n: Node)
    requires Covers(depth, stages)
    ensures n in Column(stages, depth, shift, level) <==>
            exists s :: s in stages && n == StageNode(s) && depth[s.name] + shift == level
  {
    if stages != [] {
      var init, s := stages[..|stages| - 1], stages[|stages| - 1];
      assert stages == init + [s];
      ColumnMembers(init, depth, shift, level, n);
    }
  }

  /** The leftmost column begins with the externals, sorted, each without dependencies; no other node is external. */
  lemma {:induction false} ExternalsLeftmost(stages: seq<StageDef>, depth: map<string, nat>, externals: seq<string>,
                    levels: seq<seq<Node>>, l: nat, k: nat)
    requires IsLayout(stages, depth, externals, levels) && l < |levels| && k < |levels[l]|
    ensures levels[l][k].kind.External? <==> l == 0 && k < |externals|
    ensures l == 0 && k < |externals| ==> levels[0][k] == Node(externals[k], External, [])
  {
    var shift := if externals != [] then 1 else 0;
    var column := Column(stages, depth, shift, l);
    if k >= |ExternalColumn(externals, l)| {
      var n := column[k - |ExternalColumn(externals, l)|];
      ColumnMembers(stages, depth, shift, l, n);
    }
  }

  /** The positions of the stages that belong to one level, ascending. */
  ghost predicate ArePositions(stages: seq<StageDef>, depth: map<string, nat>, shift: nat, level: nat, at: seq<nat>)
    requires Covers(depth, stages)
  {
    && (forall i, j :: 0 <= i < j < |at| ==> at[i] < at[j])
    && forall k :: 0 <= k < |stages| ==> (k in at <==> depth[stages[k].name] + shift == level)
  }

  lemma {:induction false} PositionsSnoc(init: seq<StageDef>, s: StageDef, depth: map<string, nat>, shift: nat,
                    level: nat, at: seq<nat>)
    requires Covers(depth, init) && Covers(depth, init + [s]) && s.name in depth
    requires ArePositions(init, depth, shift, level, at)
    requires forall k :: 0 <= k < |at| ==> at[k] < |init|
    ensures ArePositions(init + [s], depth, shift, level,
                         if depth[s.name] + shift == level then at + [|init|] else at)
  {
    var stages, more := init + [s], if depth[s.name] + shift == level then at + [|init|] else at;
    forall k | 0 <= k < |stages| ensures k in more <==> depth[stages[k].name] + shift == level {
      if k < |init| { assert stages[k] == init[k]; }
    }
  }

  /** A column shows its stages in registration order, each with its retries and dependencies. */
  lemma {:induction false} ColumnInOrder(stages: seq<StageDef>, depth: map<string, nat>, shift: nat,
                    level: nat) returns (at: seq<nat>)
    requires Covers(depth, stages)
    ensures |at| == |Column(stages, depth, shift, level)| && ArePositions(stages, depth, shift, level, at)
    ensures forall k :: 0 <= k < |at| ==>
              && at[k] < |stages|
              && Column(stages, depth, shift, level)[k]
                 == Node(stages[at[k]].name, Stage(stages[at[k]].retries), stages[at[k]].dependsOn)
  {
    at := [];
    if stages != [] {
      var init, s := stages[..|stages| - 1], stages[|stages| - 1];
      assert stages == init + [s];
      at := ColumnInOrder(init, depth, shift, level);
      PositionsSnoc(init, s, depth, shift, level, at);
      hide ArePositions;
      if depth[s.name] + shift == level { at := at + [|init|]; }
    }
  }

  /** A pair is drawn as often as the stage lists the dependency. */
  lemma {:induction false} EdgesCount(stages: seq<StageDef>, k: nat, from: string)
    requires DistinctNames(stages) && k < |stages|
    ensures multiset(EdgesOf(stages))[(from, stages[k].name)] == multiset(stages[k].dependsOn)[from]
  {
    var init, s := stages[..|stages| - 1], stages[|stages| - 1];
    var to := stages[k].name;
    InEdgesCount(s, from, to);
    if k < |init| {
      EdgesCount(init, k, from);
    } else {
      EdgeMembers(init, from, to);
      forall s' | s' in init ensures s'.name != to {
        var j :| 0 <= j < |init| && init[j] == s';
      }
    }
  }

  lemma {:induction false} InEdgesCount(s: StageDef, from: string, to: string)
    ensures multiset(InEdges(s))[(from, to)] == if to == s.name then multiset(s.dependsOn)[from] else 0
  {
    CountFrom(s, from, to, |s.dependsOn|);
    assert InEdges(s)[..|s.dependsOn|] == InEdges(s) && s.dependsOn[..|s.dependsOn|] == s.dependsOn;
  }

  lemma {:induction false} CountFrom(s: StageDef, from: string, to: string, m: nat)
    requires m <= |s.dependsOn|
    ensures multiset(InEdges(s)[..m])[(from, to)] == if to == s.name then multiset(s.dependsOn[..m])[from] else 0
  {
    if m > 0 {
      CountFrom(s, from, to, m - 1);
      var pairs, deps := InEdges(s), s.dependsOn;
      assert pairs[..m] == pairs[..m - 1] + [(deps[m - 1], s.name)] && deps[..m] == deps[..m - 1] + [deps[m - 1]];
    }
  }

  lemma {:induction false} EdgeMembers(stages: seq<StageDef>, from: string, to: string)
    ensures (from, to) in EdgesOf(stages) <==> exists s :: s in stages && s.name == to && from in s.dependsOn
  {
    if stages != [] {
      var init, s := stages[..|stages| - 1], stages[|stages| - 1];
      assert stages == init + [s];
      EdgeMembers(init, from, to);
      var own := InEdges(s);
      assert (from, to) in own <==> to == s.name && from in s.dependsOn by {
        if to == s.name && from in s.dependsOn {
          var i :| 0 <= i < |s.dependsOn| && s.dependsOn[i] == from;
          assert own[i] == (from, to);
        }
      }
    }
  }

  /** What graphLayout returns: every column in full, by depth, externals alone in an extra leftmost one. */
  ghost predicate IsLayout(stages: seq<StageDef>, depth: map<string, nat>, externals: seq<string>,
                    levels: seq<seq<Node>>) {
    && Covers(depth, stages)
    && (forall n :: n in externals <==> n in ExternalNames(stages))
    && Ascending(externals)
    && var shift := if externals != [] then 1 else 0;
    && (forall i :: 0 <= i < |stages| ==> depth[stages[i].name] + shift < |levels|)
    && (externals != [] ==> |levels| > 0)
    && forall l :: 0 <= l < |levels| ==> levels[l] == ExternalColumn(externals, l) + Column(stages, depth, shift, l)
  }

  ghost predicate Shows(levels: seq<seq<Node>>, l: nat, name: string) {
    l < |levels| && exists n :: n in levels[l] && n.name == name
  }

  /** Each name is drawn in one level only: an external leftmost, a stage at its (shifted) depth. */
  lemma {:induction false} LevelOfName(stages: seq<StageDef>, depth: map<string, nat>, externals: seq<string>,
                    levels: seq<seq<Node>>, l: nat, name: string)
    requires IsLayout(stages, depth, externals, levels) && l < |levels|
    ensures name in Names(stages) ==>
              (Shows(levels, l, name) <==> l == depth[name] + if externals != [] then 1 else 0)
    ensures name in externals ==> (Shows(levels, l, name) <==> l == 0)
  {
    var shift := if externals != [] then 1 else 0;
    var column := Column(stages, depth, shift, l);
    if n :| n in levels[l] && n.name == name {
      ColumnMembers(stages, depth, shift, l, n);
      if n in column {
        var s :| s in stages && n == StageNode(s) && depth[s.name] + shift == l;
        assert name in Names(stages) && name !in ExternalNames(stages);
      } else {
        assert n in ExternalColumn(externals, l);
        assert name in externals && name in ExternalNames(stages);
      }
    }
    if name in Names(stages) && l == depth[name] + shift {
      var s :| s in stages && s.name == name;
      ColumnMembers(stages, depth, shift, l, StageNode(s));
      assert StageNode(s) in levels[l];
    }
    if name in externals && l == 0 {
      var i :| 0 <= i < |externals| && externals[i] == name;
      assert levels[0][i] == ExternalNode(name);
    }
  }

  /** Every drawn edge goes strictly rightwards. */
  lemma {:induction false} EdgesGoRight(stages: seq<StageDef>, depth: map<string, nat>, externals: seq<string>,
                    levels: seq<seq<Node>>,
                     from: string, to: string, i: nat, j: nat)
    requires DistinctNames(stages) && IsDepths(ByName(stages), depth)
    requires IsLayout(stages, depth, externals, levels)
    requires (from, to) in EdgesOf(stages) && Shows(levels, i, from) && Shows(levels, j, to)
    ensures i < j
  {
    EdgeMembers(stages, from, to);
    var s :| s in stages && s.name == to && from in s.dependsOn;
    assert to in Names(stages);
    LevelOfName(stages, depth, externals, levels, j, to);
    LevelOfName(stages, depth, externals, levels, i, from);
    if from in Names(stages) {
      ByNameOfDistinct(stages);
      assert DepthAt(ByName(stages), depth, to);
      var k :| 0 <= k < |s.dependsOn| && s.dependsOn[k] == from;
    } else {
      assert from in ExternalNames(stages);
    }
  }

  /** `(levels[l] ??= []).push(n)`, with the holes below filled as the final loop fills them. */
  function Pushed(levels: seq<seq<Node>>, l: nat, n: Node): (r: seq<seq<Node>>)
    ensures |r| == if l < |levels| then |levels| else l + 1
    ensures forall i :: 0 <= i < |r| ==>
              r[i] == (if i < |levels| then levels[i] else []) + (if i == l then [n] else [])
    decreases l - |levels|
  {
    if l < |levels| then levels[l := levels[l] + [n]] else Pushed(levels + [[]], l, n)
  }

  lemma {:induction false} ColumnSnoc(stages: seq<StageDef>, s: StageDef, depth: map<string, nat>, shift: nat, l: nat)
    requires Covers(depth, stages) && s.name in depth
    ensures Covers(depth, stages + [s])
    ensures Column(stages + [s], depth, shift, l)
         == Column(stages, depth, shift, l) + if depth[s.name] + shift == l then [StageNode(s)] else []
  {
    assert (stages + [s])[..|stages|] == stages;
  }

  /** The levels while the stages are being pushed one by one. */
  ghost predicate Drawn(stages: seq<StageDef>, depth: map<string, nat>, shift: nat, externals: seq<string>,
                    levels: seq<seq<Node>>) {
    && Covers(depth, stages)
    && (forall i :: 0 <= i < |stages| ==> depth[stages[i].name] + shift < |levels|)
    && (externals != [] ==> |levels| > 0)
    && (forall l :: 0 <= l < |levels| ==> levels[l] == ExternalColumn(externals, l) + Column(stages, depth, shift, l))
    && (forall l :: |levels| <= l ==> Column(stages, depth, shift, l) == [])
  }

  /** One level before and after a stage is pushed at level `at`. */
  lemma {:induction false} PushLevel(levels: seq<seq<Node>>, at: nat, n: Node, l: nat, external: seq<Node>,
                    column: seq<Node>, column': seq<Node>)
    requires column' == column + if at == l then [n] else []
    requires if l < |levels| then levels[l] == external + column else external == [] && column == []
    ensures var r := Pushed(levels, at, n); if l < |r| then r[l] == external + column' else column' == []
  {
    var new' := if at == l then [n] else [];
    assert (external + column) + new' == external + (column + new');
  }

  lemma {:induction false} DrawLevel(stages: seq<StageDef>, s: StageDef, depth: map<string, nat>, shift: nat,
                    externals: seq<string>, levels: seq<seq<Node>>, l: nat)
    requires Drawn(stages, depth, shift, externals, levels) && s.name in depth
    ensures Covers(depth, stages + [s])
    ensures var r := Pushed(levels, depth[s.name] + shift, StageNode(s));
            if l < |r| then r[l] == ExternalColumn(externals, l) + Column(stages + [s], depth, shift, l)
            else Column(stages + [s], depth, shift, l) == []
  {
    ColumnSnoc(stages, s, depth, shift, l);
    assert l >= |levels| ==> ExternalColumn(externals, l) == [];
    hide Column, ExternalColumn;
    PushLevel(levels, depth[s.name] + shift, StageNode(s), l, ExternalColumn(externals, l),
              Column(stages, depth, shift, l), Column(stages + [s], depth, shift, l));
  }

  lemma {:induction false} DrawStage(stages: seq<StageDef>, s: StageDef, depth: map<string, nat>, shift: nat,
                    externals: seq<string>, levels: seq<seq<Node>>)
    requires Drawn(stages, depth, shift, externals, levels) && s.name in depth
    ensures Drawn(stages + [s], depth, shift, externals, Pushed(levels, depth[s.name] + shift, StageNode(s)))
  {
    forall l: nat { DrawLevel(stages, s, depth, shift, externals, levels, l); }
  }

  lemma {:induction false} EdgesSnoc(stages: seq<StageDef>, s: StageDef)
    ensures EdgesOf(stages + [s])
         == EdgesOf(stages) + InEdges(s)
  {
    assert (stages + [s])[..|stages|] == stages;
  }

  // ---- sorting names -------------------------------------------------------

  /** String comparison, code unit by code unit. */
  predicate Before(a: string, b: string) {
    if b == [] then false
    else if a == [] then true
    else a[0] < b[0] || (a[0] == b[0] && Before(a[1..], b[1..]))
  }

  /** Two names first differ at position k: one has ended there, or has the smaller character. */
  ghost predicate DiffersAt(a: string, b: string, k: nat) {
    && k <= |a| && k < |b| && a[..k] == b[..k] && (k < |a| ==> a[k] < b[k])
  }

  lemma {:induction false} BeforeExactly(a: string, b: string)
    ensures Before(a, b) <==> exists k: nat :: DiffersAt(a, b, k)
  {
    if a != [] && b != [] && a[0] == b[0] {
      BeforeExactly(a[1..], b[1..]);
      if k: nat :| DiffersAt(a[1..], b[1..], k) {
        assert a[..k + 1] == [a[0]] + a[1..][..k] && b[..k + 1] == [b[0]] + b[1..][..k];
        assert DiffersAt(a, b, k + 1);
      }
      if k: nat :| DiffersAt(a, b, k) {
        assert k > 0 && a[1..][..k - 1] == a[..k][1..] && b[1..][..k - 1] == b[..k][1..];
        assert DiffersAt(a[1..], b[1..], k - 1);
      }
    } else if b != [] && (a == [] || a[0] < b[0]) {
      assert DiffersAt(a, b, 0);
    } else {
      forall k: nat ensures !DiffersAt(a, b, k) {
        if 0 < k <= |a| && k < |b| { assert a[..k][0] == a[0] && b[..k][0] == b[0]; }
      }
    }
  }

  ghost predicate Ascending(names: seq<string>) {
    forall i, j :: 0 <= i < j < |names| ==> Before(names[i], names[j])
  }

  lemma {:induction false} BeforeTotal(a: string, b: string)
    ensures Before(a, b) || a == b || Before(b, a)
    ensures !(Before(a, b) && Before(b, a)) && !Before(a, a)
  {
    if a != [] && b != [] { BeforeTotal(a[1..], b[1..]); }
    if a != [] { BeforeIrreflexive(a[1..]); }
    if a != [] && b != [] && a[0] == b[0] && a[1..] == b[1..] { assert a == [a[0]] + a[1..] == b; }
  }

  lemma {:induction false} BeforeIrreflexive(a: string)
    ensures !Before(a, a)
  {
    if a != [] { BeforeIrreflexive(a[1..]); }
  }

  lemma {:induction false} BeforeTrans(a: string, b: string, c: string)
    requires Before(a, b) && Before(b, c)
    ensures Before(a, c)
  {
    if a != [] && a[0] == b[0] == c[0] { BeforeTrans(a[1..], b[1..], c[1..]); }
  }

  /** x in its place among sorted names. */
  function Insorted(names: seq<string>, x: string): seq<string> {
    if names == [] || Before(names[|names| - 1], x) then names + [x]
    else Insorted(names[..|names| - 1], x) + [names[|names| - 1]]
  }

  lemma {:induction false} InsortedMembers(names: seq<string>, x: string, n: string)
    ensures n in Insorted(names, x) <==> n in names || n == x
  {
    if !(names == [] || Before(names[|names| - 1], x)) {
      assert names == names[..|names| - 1] + [names[|names| - 1]];
      InsortedMembers(names[..|names| - 1], x, n);
    }
  }

  lemma {:induction false} InsortedAscends(names: seq<string>, x: string)
    requires Ascending(names) && x !in names
    ensures Ascending(Insorted(names, x))
  {
    if names != [] {
      var init, last := names[..|names| - 1], names[|names| - 1];
      assert last in names;
      BeforeTotal(last, x);
      if Before(last, x) {
        forall i | 0 <= i < |names|
            ensures Before(names[i], x) { if i < |names| - 1 { BeforeTrans(names[i], last, x); } }
      } else {
        InsortedAscends(init, x);
        var r := Insorted(init, x);
        forall i | 0 <= i < |r| ensures Before(r[i], last) { InsortedMembers(init, x, r[i]); }
      }
    }
  }

  /** The external names without repetition, sorted. */
  method ListExternals(stages: seq<StageDef>) returns (externals: seq<string>)
    ensures (forall n :: n in externals <==> n in ExternalNames(stages)) && Ascending(externals)
  {
    externals := [];
    var rest := ExternalNames(stages);
    while rest != {}
      invariant rest <= ExternalNames(stages)
      invariant forall n :: n in externals <==> n in ExternalNames(stages) && n !in rest
      invariant Ascending(externals)
      decreases rest
    {
      hide ExternalNames, Ascending, Before;
      var n :| n in rest;
      InsortedAscends(externals, n);
      forall x { InsortedMembers(externals, n, x); }
      externals, rest := Insorted(externals, n), rest - {n};
    }
  }

  // ---- graphLayout in place ------------------------------------------------

  lemma {:induction false} NothingDrawn(stages: seq<StageDef>, depth: map<string, nat>, shift: nat,
                    externals: seq<string>)
    ensures Drawn(stages[..0], depth, shift, externals, if externals != [] then [ExternalColumn(externals, 0)] else [])
    ensures EdgesOf(stages[..0]) == []
  {
  }

  /** One more stage: its node in its level, its dependencies as edges. */
  lemma {:induction false} PushStage(stages: seq<StageDef>, depth: map<string, nat>, shift: nat, externals: seq<string>,
                    levels: seq<seq<Node>>, i: nat)
    requires i < |stages| && Drawn(stages[..i], depth, shift, externals, levels) && stages[i].name in depth
    ensures Drawn(stages[..i + 1], depth, shift, externals,
        Pushed(levels, depth[stages[i].name] + shift, StageNode(stages[i])))
    ensures EdgesOf(stages[..i + 1]) == EdgesOf(stages[..i]) + InEdges(stages[i])
  {
    assert stages[..i + 1] == stages[..i] + [stages[i]];
    hide Drawn, EdgesOf, Pushed;
    DrawStage(stages[..i], stages[i], depth, shift, externals, levels);
    EdgesSnoc(stages[..i], stages[i]);
  }

  method PushStages(stages: seq<StageDef>, depth: map<string, nat>, externals: seq<string>)
    returns (levels: seq<seq<Node>>, edges: seq<(string, string)>)
    requires Covers(depth, stages)
    ensures Drawn(stages, depth, if externals != [] then 1 else 0, externals, levels)
    ensures edges == EdgesOf(stages)
  {
    hide Drawn, EdgesOf, InEdges, ExternalColumn;
    var shift := if externals != [] then 1 else 0;
    levels := if externals != [] then [ExternalColumn(externals, 0)] else [];
    edges := [];
    NothingDrawn(stages, depth, shift, externals);
    for i := 0 to |stages|
      invariant edges == EdgesOf(stages[..i])
      invariant Drawn(stages[..i], depth, shift, externals, levels)
    {
      PushStage(stages, depth, shift, externals, levels, i);
      hide Pushed;
      levels := Pushed(levels, depth[stages[i].name] + shift, StageNode(stages[i]));
      edges := edges + InEdges(stages[i]);
    }
    assert stages[..|stages|] == stages;
  }

  method GraphLayout(stages: seq<StageDef>)
    returns (levels: seq<seq<Node>>, edges: seq<(string, string)>, ghost depth: map<string, nat>,
        ghost externals: seq<string>)
    ensures depth.Keys == Names(stages)
    ensures !HasCycle(ByName(stages)) ==> IsDepths(ByName(stages), depth)
    ensures IsLayout(stages, depth, externals, levels)
    ensures edges == EdgesOf(stages)
  {
    var d := ComputeStageDepths(stages);
    var e := ListExternals(stages);
    forall i | 0 <= i < |stages| ensures stages[i].name in d { assert stages[i] in stages; }
    levels, edges := PushStages(stages, d, e);
    depth, externals := d, e;
  }
}
