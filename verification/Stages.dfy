/** Stage definitions and the registry a workflow module fills in (lib/stages.py). */
module Stages {

  datatype Option<+T> = None | Some(value: T)

  /** What the scheduler does when a stage of the workflow fails. */
  datatype Policy = Halt | Fallback

  /** The stage function itself is not a value of the model: a stage body is an arbitrary executor. */
  datatype StageDef = StageDef(name: string, dependsOn: seq<string>, retries: int)

  /** What the registry provider hands to the scheduler for one workflow. */
  datatype Registry = Registry(stages: seq<StageDef>, onFailure: Policy)

  function Names(stages: seq<StageDef>): set<string> {
    set s | s in stages :: s.name
  }

  ghost predicate DistinctNames(stages: seq<StageDef>) {
    forall i, j :: 0 <= i < j < |stages| ==> stages[i].name != stages[j].name
  }

  /** The dictionary {s.name: s for s in stages}: a later stage of the same name wins. */
  function ByName(stages: seq<StageDef>): (g: map<string, StageDef>)
    ensures g.Keys == Names(stages)
    ensures forall n <- g :: g[n].name == n && g[n] in stages
  {
    if stages == [] then map[]
    else
      var last := stages[|stages| - 1];
      assert stages == stages[..|stages| - 1] + [last];
      ByName(stages[..|stages| - 1])[last.name := last]
  }

  lemma {:induction false} ByNameOfDistinct(stages: seq<StageDef>)
    requires DistinctNames(stages)
    ensures forall i :: 0 <= i < |stages| ==> ByName(stages)[stages[i].name] == stages[i]
  {
    if stages != [] {
      var init := stages[..|stages| - 1];
      ByNameOfDistinct(init);
      forall i | 0 <= i < |init| ensures ByName(stages)[stages[i].name] == stages[i] {
        assert stages[i] == init[i];
      }
    }
  }

  /** `_stages[name] = def`: replace the entry of that name in place, or append a new one. */
  function Registered(stages: seq<StageDef>, def: StageDef): seq<StageDef> {
    if def.name in Names(stages)
    then seq(|stages|, i requires 0 <= i < |stages| => if stages[i].name == def.name then def else stages[i])
    else stages + [def]
  }

  lemma {:induction false} RegisteredNames(stages: seq<StageDef>, def: StageDef)
    ensures forall i :: 0 <= i < |stages| ==> Registered(stages, def)[i].name == stages[i].name
    ensures |Registered(stages, def)| == |stages| + if def.name in Names(stages) then 0 else 1
    ensures exists k :: 0 <= k < |Registered(stages, def)| && Registered(stages, def)[k] == def
  {
    var r := Registered(stages, def);
    if def.name in Names(stages) {
      var k :| 0 <= k < |stages| && stages[k].name == def.name;
      assert r[k] == def;
    } else {
      assert r[|stages|] == def;
    }
  }

  lemma {:induction false} RegisteredDistinct(stages: seq<StageDef>, def: StageDef)
    requires DistinctNames(stages)
    ensures DistinctNames(Registered(stages, def))
  {
    RegisteredNames(stages, def);
    if def.name !in Names(stages) {
      forall i | 0 <= i < |stages| ensures stages[i].name != def.name {
        assert stages[i].name in Names(stages);
      }
    }
  }

  lemma {:induction false} ByNameIs(stages: seq<StageDef>, g: map<string, StageDef>)
    requires DistinctNames(stages) && g.Keys == Names(stages)
    requires forall i :: 0 <= i < |stages| ==> g[stages[i].name] == stages[i]
    ensures ByName(stages) == g
  {
    ByNameOfDistinct(stages);
    forall n | n in g ensures ByName(stages)[n] == g[n] {
      var i :| 0 <= i < |stages| && stages[i].name == n;
    }
  }

  lemma {:induction false} RegisteredKeys(stages: seq<StageDef>, def: StageDef)
    ensures Names(Registered(stages, def)) == Names(stages) + {def.name}
  {
    var r := Registered(stages, def);
    RegisteredNames(stages, def);
    forall n | n in Names(stages) ensures n in Names(r) {
      var i :| 0 <= i < |stages| && stages[i].name == n;
      assert r[i].name == n && r[i] in r;
    }
  }

  lemma {:induction false} RegisteredAt(stages: seq<StageDef>, def: StageDef, i: nat)
    requires i < |Registered(stages, def)|
    ensures Registered(stages, def)[i] == if Registered(stages, def)[i].name == def.name then def else stages[i]
  {
  }

  /** Registering is assigning one dictionary key: no other stage changes. */
  lemma {:induction false} RegisteredIsAssignment(stages: seq<StageDef>, def: StageDef)
    requires DistinctNames(stages)
    ensures DistinctNames(Registered(stages, def))
    ensures ByName(Registered(stages, def)) == ByName(stages)[def.name := def]
  {
    var r, g := Registered(stages, def), ByName(stages)[def.name := def];
    RegisteredKeys(stages, def);
    RegisteredDistinct(stages, def);
    ByNameOfDistinct(stages);
    forall i | 0 <= i < |r| ensures r[i].name in g && g[r[i].name] == r[i] {
      RegisteredAt(stages, def, i);
      assert r[i] in r && r[i].name in Names(r);
      assert i >= |stages| ==> r[i] == def;
    }
    hide Registered, Names;
    ByNameIs(r, g);
  }

  /** One registry per workflow; `stages` is the insertion-ordered dictionary `_stages`. */
  class StageRegistry {
    var stages: seq<StageDef>
    const onFailure: Policy

    ghost predicate Valid()
      reads this
    {
      DistinctNames(stages)
    }

    constructor (onFailure: Policy)
      ensures Valid() && stages == [] && this.onFailure == onFailure
    {
      this.stages := [];
      this.onFailure := onFailure;
    }

    method Stage(name: string, dependsOn: seq<string>, retries: int)
      requires Valid()
      modifies this`stages
      ensures Valid()
      ensures stages == Registered(old(stages), StageDef(name, dependsOn, retries))
      ensures ByName(stages) == ByName(old(stages))[name := StageDef(name, dependsOn, retries)]
    {
      RegisteredIsAssignment(stages, StageDef(name, dependsOn, retries));
      stages := Registered(stages, StageDef(name, dependsOn, retries));
    }

    method Get(name: string) returns (def: Option<StageDef>)
      requires Valid()
      ensures def == if name in ByName(stages) then Some(ByName(stages)[name]) else None
    {
      var g := ByName(stages);
      def := if name in g then Some(g[name]) else None;
    }
  }
}
