/**
 * The in-memory stand-in for the resource store that the services are exercised with
 * (lib/resource_store_client.py).
 */
module ResourceClients {
  import opened Stages
  import opened Ledgers
  import opened ResourceStore

  datatype Tables = Tables(versions: map<Ref, Value>, current: map<string, nat>, next: map<string, nat>,
                           dependencies: map<Ref, seq<Ref>>, isTest: map<Ref, bool>)

  function NextOf(t: Tables, name: string): nat {
    if name in t.next then t.next[name] else 1
  }

  /** One version, as the stand-in holds it; every version it holds counts as valid. */
  ghost predicate EntryAgrees(t: Tables, name: string, version: nat, e: Entry) {
    var k := Ref(name, version);
    && k in t.versions && t.versions[k] == e.value
    && k in t.isTest && t.isTest[k] == e.isTest
    && e.deps == (if k in t.dependencies then t.dependencies[k] else [])
    && e.error.None?
  }

  ghost predicate VersionsAgree(t: Tables, l: Ledger) {
    && (forall n, v {:trigger EntryOf(l, n, v)} :: Exists(l, n, v) ==> EntryAgrees(t, n, v, EntryOf(l, n, v)))
    && (forall k :: k in t.versions || k in t.dependencies ==> Exists(l, k.name, k.version))
    && (forall n {:trigger NextOf(t, n)} {:trigger HistoryOf(l, n)} :: NextOf(t, n) == NextVersion(l, n))
  }

  ghost predicate CurrentsAgree(t: Tables, l: Ledger) {
    && t.current == CurrentsOf(l)
    && forall n <- t.current :: Exists(l, n, t.current[n])
  }

  /** The stand-in behaves like a store with this ledger. */
  ghost predicate Agrees(t: Tables, l: Ledger) {
    VersionsAgree(t, l) && CurrentsAgree(t, l)
  }

  function WithUpload(t: Tables, name: string, value: Value, isTest: bool): Tables {
    var k := Ref(name, NextOf(t, name));
    t.(next := t.next[name := NextOf(t, name) + 1], versions := t.versions[k := value], isTest := t.isTest[k := isTest])
  }

  function WithLink(t: Tables, name: string, version: nat, deps: seq<Ref>): Tables {
    t.(dependencies := t.dependencies[Ref(name, version) := deps])
  }

  function WithPromotion(t: Tables, name: string, version: nat): Tables {
    t.(current := t.current[name := version])
  }

  lemma {:induction false} UploadEntry(t: Tables, l: Ledger, name: string, value: Value, isTest: bool, n: string,
                    v: nat)
    requires VersionsAgree(t, l)
    ensures var t', l' := WithUpload(t, name, value, isTest), Append(l, name, value, isTest, None);
            && (Exists(l', n, v) ==> EntryAgrees(t', n, v, EntryOf(l', n, v)))
            && (Ref(n, v) in t'.versions || Ref(n, v) in t'.dependencies ==> Exists(l', n, v))
            && NextOf(t', n) == NextVersion(l', n)
  {
    AppendAt(l, name, value, isTest, None, n, v);
    assert NextOf(t, n) == NextVersion(l, n) && NextOf(t, name) == NextVersion(l, name);
    if Exists(l, n, v) {
      assert EntryAgrees(t, n, v, EntryOf(l, n, v));
    } else {
      assert Ref(n, v) !in t.dependencies;
    }
  }

  lemma {:induction false} UploadCurrents(t: Tables, l: Ledger, name: string, value: Value, isTest: bool)
    requires CurrentsAgree(t, l)
    ensures CurrentsAgree(WithUpload(t, name, value, isTest), Append(l, name, value, isTest, None))
  {
    var l' := Append(l, name, value, isTest, None);
    assert CurrentsOf(l') == CurrentsOf(l);
    forall n | n in t.current ensures Exists(l', n, t.current[n]) {
      AppendAt(l, name, value, isTest, None, n, t.current[n]);
    }
  }

  lemma {:induction false} UploadAgrees(t: Tables, l: Ledger, name: string, value: Value, isTest: bool)
    requires Agrees(t, l)
    ensures Agrees(WithUpload(t, name, value, isTest), Append(l, name, value, isTest, None))
  {
    var t', l' := WithUpload(t, name, value, isTest), Append(l, name, value, isTest, None);
    UploadCurrents(t, l, name, value, isTest);
    hide EntryAgrees, WithUpload, Append, NextOf, Exists, CurrentsAgree;
    forall n, v: nat { UploadEntry(t, l, name, value, isTest, n, v); }
    forall k | k in t'.versions || k in t'.dependencies ensures Exists(l', k.name, k.version) {
      UploadEntry(t, l, name, value, isTest, k.name, k.version);
    }
    forall n ensures NextOf(t', n) == NextVersion(l', n) { UploadEntry(t, l, name, value, isTest, n, 0); }
  }

  lemma {:induction false} LinkEntry(t: Tables, l: Ledger, name: string, version: nat, deps: seq<Ref>, n: string,
                    v: nat)
    requires VersionsAgree(t, l) && Exists(l, name, version)
    ensures var t', l' := WithLink(t, name, version, deps), Link(l, name, version, deps);
            && (Exists(l', n, v) ==> EntryAgrees(t', n, v, EntryOf(l', n, v)))
            && (Ref(n, v) in t'.versions || Ref(n, v) in t'.dependencies ==> Exists(l', n, v))
            && NextOf(t', n) == NextVersion(l', n)
  {
    LinkAt(l, name, version, deps, n, v);
    assert NextOf(t, n) == NextVersion(l, n);
    if Exists(l, n, v) { assert EntryAgrees(t, n, v, EntryOf(l, n, v)); }
  }

  lemma {:induction false} LinkCurrents(t: Tables, l: Ledger, name: string, version: nat, deps: seq<Ref>)
    requires CurrentsAgree(t, l) && Exists(l, name, version)
    ensures CurrentsAgree(WithLink(t, name, version, deps), Link(l, name, version, deps))
  {
    var l' := Link(l, name, version, deps);
    assert CurrentsOf(l') == CurrentsOf(l);
    forall n | n in t.current ensures Exists(l', n, t.current[n]) {
      LinkAt(l, name, version, deps, n, t.current[n]);
    }
  }

  lemma {:induction false} LinkAgrees(t: Tables, l: Ledger, name: string, version: nat, deps: seq<Ref>)
    requires Agrees(t, l) && Exists(l, name, version)
    ensures Agrees(WithLink(t, name, version, deps), Link(l, name, version, deps))
  {
    var t', l' := WithLink(t, name, version, deps), Link(l, name, version, deps);
    LinkCurrents(t, l, name, version, deps);
    hide EntryAgrees, WithLink, Link, NextOf, Exists, CurrentsAgree;
    forall n, v: nat { LinkEntry(t, l, name, version, deps, n, v); }
    forall k | k in t'.versions || k in t'.dependencies ensures Exists(l', k.name, k.version) {
      LinkEntry(t, l, name, version, deps, k.name, k.version);
    }
    forall n ensures NextOf(t', n) == NextVersion(l', n) { LinkEntry(t, l, name, version, deps, n, 0); }
  }

  lemma {:induction false} PromoteEntry(t: Tables, l: Ledger, name: string, version: nat, n: string, v: nat)
    requires VersionsAgree(t, l) && Exists(l, name, version)
    ensures var t', l' := WithPromotion(t, name, version), Promote(l, name, version);
            && (Exists(l', n, v) ==> EntryAgrees(t', n, v, EntryOf(l', n, v)))
            && (Ref(n, v) in t'.versions || Ref(n, v) in t'.dependencies ==> Exists(l', n, v))
            && NextOf(t', n) == NextVersion(l', n)
  {
    PromoteAt(l, name, version, n, v);
    assert NextOf(t, n) == NextVersion(l, n);
    if Exists(l, n, v) { assert EntryAgrees(t, n, v, EntryOf(l, n, v)); }
  }

  lemma {:induction false} PromoteCurrents(t: Tables, l: Ledger, name: string, version: nat)
    requires CurrentsAgree(t, l) && Exists(l, name, version)
    ensures CurrentsAgree(WithPromotion(t, name, version), Promote(l, name, version))
  {
    var t', l' := WithPromotion(t, name, version), Promote(l, name, version);
    assert t'.current == CurrentsOf(l');
    forall n | n in t'.current ensures Exists(l', n, t'.current[n]) {
      PromoteAt(l, name, version, n, t'.current[n]);
    }
  }

  lemma {:induction false} PromoteAgrees(t: Tables, l: Ledger, name: string, version: nat)
    requires Agrees(t, l) && Exists(l, name, version)
    ensures Agrees(WithPromotion(t, name, version), Promote(l, name, version))
  {
    var t', l' := WithPromotion(t, name, version), Promote(l, name, version);
    PromoteCurrents(t, l, name, version);
    hide EntryAgrees, WithPromotion, Promote, NextOf, Exists, CurrentsAgree;
    forall n, v: nat { PromoteEntry(t, l, name, version, n, v); }
    forall k | k in t'.versions || k in t'.dependencies ensures Exists(l', k.name, k.version) {
      PromoteEntry(t, l, name, version, k.name, k.version);
    }
    forall n ensures NextOf(t', n) == NextVersion(l', n) { PromoteEntry(t, l, name, version, n, 0); }
  }

  lemma {:induction false} NextAgrees(t: Tables, l: Ledger, name: string)
    requires Agrees(t, l)
    ensures NextOf(t, name) == NextVersion(l, name)
  {
  }

  lemma {:induction false} CurrentIsHeld(t: Tables, l: Ledger, name: string)
    requires Agrees(t, l) && name in t.current
    ensures Ref(name, t.current[name]) in t.versions
  {
    assert Exists(l, name, t.current[name]);
    assert EntryAgrees(t, name, t.current[name], EntryOf(l, name, t.current[name]));
  }

  /**
   * The stand-in promotes without looking. It goes on behaving like some store exactly when the version
   * exists; otherwise it has a current version that cannot be read, which the real store never has.
   */
  lemma {:induction false} PromoteAgreesIff(t: Tables, l: Ledger, name: string, version: nat)
    requires Agrees(t, l)
    ensures Exists(l, name, version) <==> exists l' :: Agrees(WithPromotion(t, name, version), l')
  {
    if Exists(l, name, version) {
      PromoteAgrees(t, l, name, version);
    }
    if l' :| Agrees(WithPromotion(t, name, version), l') {
      CurrentIsHeld(WithPromotion(t, name, version), l', name);
    }
  }

  class InMemoryResourceClient {
    var versions: map<Ref, Value>
    var currentVersion: map<string, nat>
    var nextVersion: map<string, nat>
    var dependenciesRecorded: map<Ref, seq<Ref>>
    var isTestByVersion: map<Ref, bool>

    ghost function View(): Tables
      reads this
    {
      Tables(versions, currentVersion, nextVersion, dependenciesRecorded, isTestByVersion)
    }

    constructor ()
      ensures Agrees(View(), Ledger(map[], 1))
    {
      versions, currentVersion, nextVersion := map[], map[], map[];
      dependenciesRecorded, isTestByVersion := map[], map[];
    }

    method Store(name: string, value: Value, isTest: bool) returns (version: nat)
      modifies this
      ensures View() == WithUpload(old(View()), name, value, isTest) && version == NextOf(old(View()), name)
    {
      version := if name in nextVersion then nextVersion[name] else 1;
      nextVersion := nextVersion[name := version + 1];
      versions := versions[Ref(name, version) := value];
      isTestByVersion := isTestByVersion[Ref(name, version) := isTest];
    }

    /** Stands for an upload that passes its contract. */
    method UploadVersion(name: string, value: Value, isTest: bool, ghost l: Ledger) returns (version: nat)
      requires Agrees(View(), l)
      modifies this
      ensures version == NextVersion(l, name) && Agrees(View(), Append(l, name, value, isTest, None))
    {
      hide *;
      UploadAgrees(View(), l, name, value, isTest);
      NextAgrees(View(), l, name);
      version := Store(name, value, isTest);
    }

    method UpdateDependencies(name: string, version: nat, dependsOn: seq<Ref>, ghost l: Ledger)
      requires Agrees(View(), l)
      modifies this
      ensures View() == WithLink(old(View()), name, version, dependsOn)
      ensures Exists(l, name, version) ==> Agrees(View(), Link(l, name, version, dependsOn))
    {
      if Exists(l, name, version) { LinkAgrees(View(), l, name, version, dependsOn); }
      dependenciesRecorded := dependenciesRecorded[Ref(name, version) := dependsOn];
    }

    method PromoteVersion(name: string, version: nat, ghost l: Ledger)
      requires Agrees(View(), l)
      modifies this
      ensures View() == WithPromotion(old(View()), name, version)
      ensures Exists(l, name, version) ==> Agrees(View(), Promote(l, name, version))
    {
      if Exists(l, name, version) { PromoteAgrees(View(), l, name, version); }
      currentVersion := currentVersion[name := version];
    }

    /** The answers are those of the real store: None is a KeyError. */
    method Get(name: string, version: Option<nat>, ghost l: Ledger) returns (r: Option<Snapshot>)
      requires Agrees(View(), l)
      ensures var v := if version.Some? then version.value else HistoryOf(l, name).current;
              r == if Exists(l, name, v) then Some(Snapshot(v, EntryOf(l, name, v).value)) else None
    {
      assert name in currentVersion <==> HistoryOf(l, name).current > 0;
      if version.None? && name !in currentVersion { return None; }
      var v := if version.Some? then version.value else currentVersion[name];
      assert Exists(l, name, v) ==> EntryAgrees(View(), name, v, EntryOf(l, name, v));
      assert Exists(l, name, v) <==> Ref(name, v) in versions;
      r := if Ref(name, v) in versions then Some(Snapshot(v, versions[Ref(name, v)])) else None;
    }
  }
}
