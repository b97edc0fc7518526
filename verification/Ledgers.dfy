/**
 * What the resource store is for: each name has an append-only history of versions
 * and at most one current version.
 */
module Ledgers {
  import opened Stages

  /** A JSON document. */
  type Value = string

  /** One version of one resource, by name and number. */
  datatype Ref = Ref(name: string, version: nat)

  /** `error` is None for a value that passed its contract. */
  datatype Entry = Entry(id: nat, value: Value, isTest: bool, error: Option<string>, deps: seq<Ref>)

  /** Version v is entries[v - 1]; `current` is a version number, 0 before any promotion. */
  datatype History = History(entries: seq<Entry>, current: nat)

  /** `nextId` is the next global version id. */
  datatype Ledger = Ledger(histories: map<string, History>, nextId: nat)

  const EmptyHistory := History([], 0)

  function HistoryOf(l: Ledger, name: string): History {
    if name in l.histories then l.histories[name] else EmptyHistory
  }

  predicate Exists(l: Ledger, name: string, version: nat) {
    1 <= version <= |HistoryOf(l, name).entries|
  }

  function EntryOf(l: Ledger, name: string, version: nat): Entry
    requires Exists(l, name, version)
  {
    HistoryOf(l, name).entries[version - 1]
  }

  predicate HasCurrent(l: Ledger, name: string) {
    HistoryOf(l, name).current > 0
  }

  /** The current version of every name that has one. */
  function CurrentsOf(l: Ledger): map<string, nat> {
    map n | n in l.histories && l.histories[n].current > 0 :: l.histories[n].current
  }

  /** The number that the next upload of a name gets. */
  function NextVersion(l: Ledger, name: string): nat {
    |HistoryOf(l, name).entries| + 1
  }

  function Append(l: Ledger, name: string, value: Value, isTest: bool, error: Option<string>): Ledger {
    var h := HistoryOf(l, name);
    Ledger(l.histories[name := h.(entries := h.entries + [Entry(l.nextId, value, isTest, error, [])])], l.nextId + 1)
  }

  function Link(l: Ledger, name: string, version: nat, deps: seq<Ref>): Ledger
    requires Exists(l, name, version)
  {
    var h := HistoryOf(l, name);
    l.(histories := l.histories[name := h.(entries := h.entries[version - 1 := h.entries[version - 1].(deps := deps)])])
  }

  function Promote(l: Ledger, name: string, version: nat): Ledger
    requires Exists(l, name, version)
  {
    l.(histories := l.histories[name := HistoryOf(l, name).(current := version)])
  }

  /** Ids are handed out in upload order. */
  ghost predicate IdsOrdered(l: Ledger) {
    && (forall n, v {:trigger EntryOf(l, n, v)} :: Exists(l, n, v) ==> EntryOf(l, n, v).id < l.nextId)
    && (forall n, v, w :: Exists(l, n, v) && Exists(l, n, w) && v < w ==> EntryOf(l, n, v).id < EntryOf(l, n, w).id)
  }

  /** Every recorded dependency is an older version, so recorded lineage cannot be cyclic. */
  ghost predicate LineageDescends(l: Ledger) {
    forall n, v, i :: Exists(l, n, v) && 0 <= i < |EntryOf(l, n, v).deps|
                      ==> Descends(l, EntryOf(l, n, v), EntryOf(l, n, v).deps[i])
  }

  /** Every current version passed its contract. */
  ghost predicate CurrentsValid(l: Ledger) {
    forall n :: HasCurrent(l, n)
                ==> Exists(l, n, HistoryOf(l, n).current) && EntryOf(l, n, HistoryOf(l, n).current).error.None?
  }

  /**
   * What survives a step on the ledger: every version with its value, flags and id, and, but for one
   * version (n0, v0), also with its recorded dependencies; a current version, once there is one, stays.
   */
  ghost predicate Keeps(l: Ledger, l': Ledger, n0: string, v0: nat) {
    && l.nextId <= l'.nextId
    && (forall n, v {:trigger EntryOf(l', n, v)} {:trigger Exists(l', n, v)} :: Exists(l, n, v) ==>
          && Exists(l', n, v)
          && EntryOf(l', n, v).(deps := []) == EntryOf(l, n, v).(deps := [])
          && (n != n0 || v != v0 ==> EntryOf(l', n, v) == EntryOf(l, n, v)))
    && (forall n {:trigger HasCurrent(l', n)} :: HasCurrent(l, n) ==> HasCurrent(l', n))
  }

  // ---- what each operation does to every version --------------------------

  lemma {:induction false} AppendAt(l: Ledger, name: string, value: Value, isTest: bool, error: Option<string>,
                    n: string, v: nat)
    ensures var l' := Append(l, name, value, isTest, error);
            && (Exists(l', n, v) <==> Exists(l, n, v) || (n == name && v == NextVersion(l, name)))
            && (Exists(l, n, v) ==> EntryOf(l', n, v) == EntryOf(l, n, v))
            && (n == name && v == NextVersion(l, name)
                ==> EntryOf(l', n, v) == Entry(l.nextId, value, isTest, error, []))
            && HistoryOf(l', n).current == HistoryOf(l, n).current
  {
  }

  lemma {:induction false} LinkAt(l: Ledger, name: string, version: nat, deps: seq<Ref>, n: string, v: nat)
    requires Exists(l, name, version)
    ensures var l' := Link(l, name, version, deps);
            && (Exists(l', n, v) <==> Exists(l, n, v))
            && (Exists(l, n, v) ==>
                  EntryOf(l', n, v) == if n == name && v == version then EntryOf(l, n, v).(deps := deps)
                      else EntryOf(l, n, v))
            && HistoryOf(l', n).current == HistoryOf(l, n).current
  {
  }

  lemma {:induction false} PromoteAt(l: Ledger, name: string, version: nat, n: string, v: nat)
    requires Exists(l, name, version)
    ensures var l' := Promote(l, name, version);
            && (Exists(l', n, v) <==> Exists(l, n, v))
            && (Exists(l, n, v) ==> EntryOf(l', n, v) == EntryOf(l, n, v))
            && HistoryOf(l', n).current == if n == name then version else HistoryOf(l, n).current
  {
  }

  // ---- what every operation keeps -----------------------------------------

  lemma {:induction false} AppendKeeps(l: Ledger, name: string, value: Value, isTest: bool, error: Option<string>)
    ensures Keeps(l, Append(l, name, value, isTest, error), name, NextVersion(l, name))
  {
    var l' := Append(l, name, value, isTest, error);
    forall n, v | Exists(l, n, v) ensures Exists(l', n, v) && EntryOf(l', n, v) == EntryOf(l, n, v) {
      AppendAt(l, name, value, isTest, error, n, v);
    }
    forall n ensures HistoryOf(l', n).current == HistoryOf(l, n).current {
      AppendAt(l, name, value, isTest, error, n, 1);
    }
  }

  lemma {:induction false} LinkKeeps(l: Ledger, name: string, version: nat, deps: seq<Ref>)
    requires Exists(l, name, version)
    ensures Keeps(l, Link(l, name, version, deps), name, version)
  {
    var l' := Link(l, name, version, deps);
    forall n, v | Exists(l, n, v)
      ensures Exists(l', n, v)
      ensures EntryOf(l', n, v) == if n == name && v == version then EntryOf(l, n, v).(deps := deps)
          else EntryOf(l, n, v)
    {
      LinkAt(l, name, version, deps, n, v);
    }
    forall n ensures HistoryOf(l', n).current == HistoryOf(l, n).current { LinkAt(l, name, version, deps, n, 1); }
  }

  lemma {:induction false} PromoteKeeps(l: Ledger, name: string, version: nat)
    requires Exists(l, name, version)
    ensures Keeps(l, Promote(l, name, version), name, 0)
  {
    var l' := Promote(l, name, version);
    forall n, v | Exists(l, n, v) ensures Exists(l', n, v) && EntryOf(l', n, v) == EntryOf(l, n, v) {
      PromoteAt(l, name, version, n, v);
    }
    forall n | HasCurrent(l, n) ensures HasCurrent(l', n) { PromoteAt(l, name, version, n, 1); }
  }

  lemma {:induction false} AppendIds(l: Ledger, name: string, value: Value, isTest: bool, error: Option<string>)
    requires IdsOrdered(l)
    ensures IdsOrdered(Append(l, name, value, isTest, error))
  {
    forall n, v { AppendAt(l, name, value, isTest, error, n, v); }
  }

  lemma {:induction false} LinkIds(l: Ledger, name: string, version: nat, refs: seq<Ref>)
    requires IdsOrdered(l) && Exists(l, name, version)
    ensures IdsOrdered(Link(l, name, version, refs))
  {
    forall n, v { LinkAt(l, name, version, refs, n, v); }
  }

  lemma {:induction false} PromoteIds(l: Ledger, name: string, version: nat)
    requires IdsOrdered(l) && Exists(l, name, version)
    ensures IdsOrdered(Promote(l, name, version))
  {
    forall n, v { PromoteAt(l, name, version, n, v); }
  }

  // ---- lineage stays well-founded -----------------------------------------

  /** One recorded dependency leads to an existing version with a smaller id. */
  ghost predicate Descends(l: Ledger, e: Entry, d: Ref) {
    Exists(l, d.name, d.version) && EntryOf(l, d.name, d.version).id < e.id
  }

  lemma {:induction false} AppendLineage(l: Ledger, name: string, value: Value, isTest: bool, error: Option<string>)
    requires LineageDescends(l)
    ensures LineageDescends(Append(l, name, value, isTest, error))
  {
    var l' := Append(l, name, value, isTest, error);
    AppendKeeps(l, name, value, isTest, error);
    forall n, v, i | Exists(l', n, v) && 0 <= i < |EntryOf(l', n, v).deps|
        ensures Descends(l', EntryOf(l', n, v), EntryOf(l', n, v).deps[i]) {
      AppendAt(l, name, value, isTest, error, n, v);
      assert Descends(l, EntryOf(l, n, v), EntryOf(l, n, v).deps[i]);
    }
  }

  /** Linking is harmless when the new dependencies are older than the version itself. */
  lemma {:induction false} LinkLineage(l: Ledger, name: string, version: nat, deps: seq<Ref>)
    requires LineageDescends(l) && Exists(l, name, version)
    requires forall i :: 0 <= i < |deps| ==> Descends(l, EntryOf(l, name, version), deps[i])
    ensures LineageDescends(Link(l, name, version, deps))
  {
    var l' := Link(l, name, version, deps);
    LinkKeeps(l, name, version, deps);
    forall n, v, i | Exists(l', n, v) && 0 <= i < |EntryOf(l', n, v).deps|
        ensures Descends(l', EntryOf(l', n, v), EntryOf(l', n, v).deps[i]) {
      LinkAt(l, name, version, deps, n, v);
      var d := EntryOf(l', n, v).deps[i];
      assert Descends(l, EntryOf(l, n, v), d);
      LinkAt(l, name, version, deps, d.name, d.version);
    }
  }

  lemma {:induction false} PromoteLineage(l: Ledger, name: string, version: nat)
    requires LineageDescends(l) && Exists(l, name, version)
    ensures LineageDescends(Promote(l, name, version))
  {
    var l' := Promote(l, name, version);
    forall n, v, i | Exists(l', n, v) && 0 <= i < |EntryOf(l', n, v).deps|
        ensures Descends(l', EntryOf(l', n, v), EntryOf(l', n, v).deps[i]) {
      PromoteAt(l, name, version, n, v);
      var d := EntryOf(l', n, v).deps[i];
      assert Descends(l, EntryOf(l, n, v), d);
      PromoteAt(l, name, version, d.name, d.version);
    }
  }
}
