/**
 * The resource store: id, index and blob tables that stand for versioned histories
 * (services/resource_store/src/service.py and memory.py).
 */
module ResourceStore {
  import opened Stages
  import opened StorageUris
  import opened Ledgers

  // ---- the tables ----------------------------------------------------------

  datatype Resource = Resource(id: nat, name: string, current: Option<nat>)

  datatype Version = Version(id: nat, resourceId: nat, name: string, version: nat, storageUri: string,
                             isTest: bool, error: Option<string>)

  datatype Metadata = Metadata(
    resources: map<nat, Resource>, ids: map<string, nat>, nextResourceId: nat,
    versions: map<nat, Version>, index: map<nat, map<nat, nat>>, nextVersionId: nat,
    dependencies: map<nat, seq<nat>>)

  type Blobs = map<string, Value>

  /** The default dictionary `_version_ids_by_resource`. */
  function Index(m: Metadata, r: nat): map<nat, nat> {
    if r in m.index then m.index[r] else map[]
  }

  function Deps(m: Metadata, id: nat): seq<nat> {
    if id in m.dependencies then m.dependencies[id] else []
  }

  // ---- the histories they stand for ---------------------------------------

  ghost predicate NamesRep(m: Metadata, l: Ledger) {
    && l.nextId == m.nextVersionId
    && (forall n :: n in m.ids <==> n in l.histories)
    && (forall n <- m.ids :: m.ids[n] in m.resources && m.ids[n] < m.nextResourceId)
    && (forall n <- m.ids :: m.resources[m.ids[n]].id == m.ids[n] && m.resources[m.ids[n]].name == n)
    && (forall r <- m.index :: r < m.nextResourceId)
    && (forall id <- m.dependencies :: id < m.nextVersionId)
  }

  ghost predicate LinksRep(m: Metadata, l: Ledger, e: Entry) {
    && |Deps(m, e.id)| == |e.deps|
    && forall i :: 0 <= i < |e.deps| ==>
         Exists(l, e.deps[i].name, e.deps[i].version)
             && Deps(m, e.id)[i] == EntryOf(l, e.deps[i].name, e.deps[i].version).id
  }

  /** Version v of resource n as the index, the version table and the blob store hold it. */
  ghost predicate RowRep(m: Metadata, b: Blobs, n: string, v: nat, e: Entry) {
    && n in m.ids
    && v in Index(m, m.ids[n]) && Index(m, m.ids[n])[v] == e.id
    && e.id in m.versions
    && m.versions[e.id] == Version(e.id, m.ids[n], n, v, StorageUri(n, v), e.isTest, e.error)
    && StorageUri(n, v) in b && b[StorageUri(n, v)] == e.value
  }

  ghost predicate RowsRep(m: Metadata, b: Blobs, l: Ledger) {
    forall n, v {:trigger EntryOf(l, n, v)} :: Exists(l, n, v)
                                               ==> RowRep(m, b, n, v, EntryOf(l, n, v))
                                                   && LinksRep(m, l, EntryOf(l, n, v))
  }

  /** Version numbers are exactly 1..n. */
  ghost predicate IndexRep(m: Metadata, l: Ledger) {
    forall n <- m.ids :: forall v :: v in Index(m, m.ids[n]) <==> Exists(l, n, v)
  }

  ghost predicate CurrentRep(m: Metadata, l: Ledger)
    requires NamesRep(m, l)
  {
    forall n <- m.ids :: var c := HistoryOf(l, n).current;
      if c == 0 then m.resources[m.ids[n]].current == None
      else Exists(l, n, c) && m.resources[m.ids[n]].current == Some(EntryOf(l, n, c).id)
  }

  ghost predicate Rep(m: Metadata, b: Blobs, l: Ledger) {
    NamesRep(m, l) && RowsRep(m, b, l) && IndexRep(m, l) && CurrentRep(m, l) && IdsOrdered(l)
  }

  // ---- the repository operations as functions -----------------------------

  function WithResource(m: Metadata, name: string): Metadata {
    if name in m.ids then m
    else m.(resources := m.resources[m.nextResourceId := Resource(m.nextResourceId, name, None)],
            ids := m.ids[name := m.nextResourceId],
            nextResourceId := m.nextResourceId + 1)
  }

  function WithVersion(m: Metadata, r: nat, version: nat, uri: string, isTest: bool, error: Option<string>): Metadata
    requires r in m.resources
  {
    var id := m.nextVersionId;
    m.(versions := m.versions[id := Version(id, r, m.resources[r].name, version, uri, isTest, error)],
       index := m.index[r := Index(m, r)[version := id]],
       nextVersionId := id + 1)
  }

  function WithDependencies(m: Metadata, id: nat, deps: seq<nat>): Metadata {
    m.(dependencies := m.dependencies[id := deps])
  }

  function WithCurrent(m: Metadata, r: nat, id: nat): Metadata
    requires r in m.resources
  {
    m.(resources := m.resources[r := m.resources[r].(current := Some(id))])
  }

  // ---- refinement ----------------------------------------------------------

  /** A name with no versions yet: what `get_or_create_resource` leaves. */
  function Known(l: Ledger, name: string): Ledger {
    l.(histories := l.histories[name := HistoryOf(l, name)])
  }

  lemma {:induction false} KnownAt(l: Ledger, name: string, n: string, v: nat)
    ensures HistoryOf(Known(l, name), n) == HistoryOf(l, n)
    ensures Exists(Known(l, name), n, v) <==> Exists(l, n, v)
    ensures Exists(l, n, v) ==> EntryOf(Known(l, name), n, v) == EntryOf(l, n, v)
  {
  }

  lemma {:induction false} SameRows(m: Metadata, m': Metadata, b: Blobs, l: Ledger, l': Ledger, n: string, v: nat)
    requires RowsRep(m, b, l) && Exists(l, n, v)
    requires m'.versions == m.versions && m'.index == m.index && m'.dependencies == m.dependencies
    requires n in m.ids && n in m'.ids && m'.ids[n] == m.ids[n]
    requires forall k, w {:trigger EntryOf(l, k, w)} :: Exists(l, k, w)
                                                        ==> Exists(l', k, w) && EntryOf(l', k, w) == EntryOf(l, k, w)
    ensures Exists(l', n, v) && RowRep(m', b, n, v, EntryOf(l', n, v)) && LinksRep(m', l', EntryOf(l', n, v))
  {
    var e := EntryOf(l, n, v);
    assert RowRep(m, b, n, v, e) && LinksRep(m, l, e);
  }

  lemma {:induction false} WithResourceRows(m: Metadata, b: Blobs, l: Ledger, name: string)
    requires NamesRep(m, l) && RowsRep(m, b, l)
    ensures RowsRep(WithResource(m, name), b, Known(l, name))
  {
    var m', l' := WithResource(m, name), Known(l, name);
    forall n, v { KnownAt(l, name, n, v); }
    forall n, v | Exists(l', n, v)
        ensures RowRep(m', b, n, v, EntryOf(l', n, v)) && LinksRep(m', l', EntryOf(l', n, v)) {
      var e := EntryOf(l, n, v);
      assert n in m.ids && n in m'.ids;
      SameRows(m, m', b, l, l', n, v);
    }
  }

  lemma {:induction false} WithResourceNames(m: Metadata, l: Ledger, name: string)
    requires NamesRep(m, l)
    ensures NamesRep(WithResource(m, name), Known(l, name))
  {
  }

  lemma {:induction false} WithResourceIndex(m: Metadata, l: Ledger, name: string)
    requires NamesRep(m, l) && IndexRep(m, l)
    ensures IndexRep(WithResource(m, name), Known(l, name))
  {
    var m', l' := WithResource(m, name), Known(l, name);
    forall n, v | n in m'.ids ensures v in Index(m', m'.ids[n]) <==> Exists(l', n, v) {
      KnownAt(l, name, n, v);
    }
  }

  lemma {:induction false} WithResourceCurrent(m: Metadata, l: Ledger, name: string)
    requires NamesRep(m, l) && CurrentRep(m, l)
    requires NamesRep(WithResource(m, name), Known(l, name))
    ensures CurrentRep(WithResource(m, name), Known(l, name))
  {
    forall n { KnownAt(l, name, n, HistoryOf(l, n).current); }
  }

  lemma {:induction false} KnownIds(l: Ledger, name: string)
    requires IdsOrdered(l)
    ensures IdsOrdered(Known(l, name))
  {
    forall n, v { KnownAt(l, name, n, v); }
  }

  lemma {:induction false} WithResourceRep(m: Metadata, b: Blobs, l: Ledger, name: string)
    requires Rep(m, b, l)
    ensures Rep(WithResource(m, name), b, Known(l, name))
  {
    WithResourceNames(m, l, name);
    WithResourceRows(m, b, l, name);
    WithResourceIndex(m, l, name);
    WithResourceCurrent(m, l, name);
    KnownIds(l, name);
  }

  // ---- upload: one more version at the end --------------------------------

  lemma {:induction false} AppendRow(m: Metadata, b: Blobs, l: Ledger, name: string, value: Value, isTest: bool,
                    error: Option<string>, n: string, v: nat)
    requires NamesRep(m, l) && RowsRep(m, b, l) && IdsOrdered(l) && name in m.ids
    requires Exists(l, n, v)
    ensures var uri := StorageUri(name, NextVersion(l, name));
            var m' := WithVersion(m, m.ids[name], NextVersion(l, name), uri, isTest, error);
            RowRep(m', b[uri := value], n, v, EntryOf(l, n, v)) && LinksRep(m', l, EntryOf(l, n, v))
  {
    var version := NextVersion(l, name);
    var uri, e := StorageUri(name, version), EntryOf(l, n, v);
    assert RowRep(m, b, n, v, e) && LinksRep(m, l, e);
    if uri == StorageUri(n, v) { StorageUriInjective(name, version, n, v); }
    if m.ids[n] == m.ids[name] { assert n == m.resources[m.ids[n]].name == name; }
  }

  lemma {:induction false} AppendRows(m: Metadata, b: Blobs, l: Ledger, name: string, value: Value, isTest: bool,
                    error: Option<string>)
    requires NamesRep(m, l) && RowsRep(m, b, l) && IdsOrdered(l) && name in m.ids
    ensures var uri := StorageUri(name, NextVersion(l, name));
            RowsRep(WithVersion(m, m.ids[name], NextVersion(l, name), uri, isTest, error), b[uri := value],
                    Append(l, name, value, isTest, error))
  {
    var uri := StorageUri(name, NextVersion(l, name));
    var m', l' := WithVersion(m, m.ids[name], NextVersion(l, name), uri, isTest, error),
        Append(l, name, value, isTest, error);
    forall n, v { AppendAt(l, name, value, isTest, error, n, v); }
    forall n, v | Exists(l', n, v)
      ensures RowRep(m', b[uri := value], n, v, EntryOf(l', n, v)) && LinksRep(m', l', EntryOf(l', n, v))
    {
      if Exists(l, n, v) {
        AppendRow(m, b, l, name, value, isTest, error, n, v);
      } else {
        assert n == name && v == NextVersion(l, name);
      }
    }
  }

  lemma {:induction false} AppendIndex(m: Metadata, l: Ledger, name: string, value: Value, uri: string, isTest: bool,
                    error: Option<string>)
    requires NamesRep(m, l) && IndexRep(m, l) && name in m.ids
    ensures IndexRep(WithVersion(m, m.ids[name], NextVersion(l, name), uri, isTest, error),
        Append(l, name, value, isTest, error))
  {
    var m', l' := WithVersion(m, m.ids[name], NextVersion(l, name), uri, isTest, error),
        Append(l, name, value, isTest, error);
    forall n, v | n in m'.ids ensures v in Index(m', m'.ids[n]) <==> Exists(l', n, v) {
      AppendAt(l, name, value, isTest, error, n, v);
      if m.ids[n] == m.ids[name] { assert n == m.resources[m.ids[n]].name == name; }
    }
  }

  lemma {:induction false} AppendNamesCurrent(m: Metadata, l: Ledger, name: string, value: Value, uri: string,
                    isTest: bool, error: Option<string>)
    requires NamesRep(m, l) && CurrentRep(m, l) && name in m.ids
    ensures var m' := WithVersion(m, m.ids[name], NextVersion(l, name), uri, isTest, error);
            NamesRep(m', Append(l, name, value, isTest, error)) && CurrentRep(m', Append(l, name, value, isTest, error))
  {
    forall n { AppendAt(l, name, value, isTest, error, n, HistoryOf(l, n).current); }
  }

  lemma {:induction false} AppendRep(m: Metadata, b: Blobs, l: Ledger, name: string, value: Value, isTest: bool,
                    error: Option<string>)
    requires Rep(m, b, l) && name in m.ids
    ensures var uri := StorageUri(name, NextVersion(l, name));
            Rep(WithVersion(m, m.ids[name], NextVersion(l, name), uri, isTest, error), b[uri := value],
                Append(l, name, value, isTest, error))
  {
    AppendNamesCurrent(m, l, name, value, StorageUri(name, NextVersion(l, name)), isTest, error);
    AppendRows(m, b, l, name, value, isTest, error);
    AppendIndex(m, l, name, value, StorageUri(name, NextVersion(l, name)), isTest, error);
    AppendIds(l, name, value, isTest, error);
  }

  // ---- dependencies and promotion -----------------------------------------

  predicate AllExist(l: Ledger, refs: seq<Ref>) {
    forall i :: 0 <= i < |refs| ==> Exists(l, refs[i].name, refs[i].version)
  }

  function IdsOf(l: Ledger, refs: seq<Ref>): seq<nat>
    requires AllExist(l, refs)
  {
    seq(|refs|, i requires 0 <= i < |refs| => EntryOf(l, refs[i].name, refs[i].version).id)
  }

  lemma {:induction false} IdsSnoc(l: Ledger, refs: seq<Ref>, i: nat)
    requires i < |refs| && AllExist(l, refs[..i])
    ensures AllExist(l, refs[..i + 1]) <==> Exists(l, refs[i].name, refs[i].version)
    ensures AllExist(l, refs[..i + 1])
        ==> IdsOf(l, refs[..i + 1]) == IdsOf(l, refs[..i]) + [EntryOf(l, refs[i].name, refs[i].version).id]
  {
    assert refs[..i + 1] == refs[..i] + [refs[i]];
    assert refs[..i + 1][i] == refs[i];
  }

  /** Two rows with one id are one row. */
  lemma {:induction false} IdOfOneRow(m: Metadata, b: Blobs, l: Ledger, n: string, v: nat, n': string, v': nat)
    requires NamesRep(m, l) && RowsRep(m, b, l)
    requires Exists(l, n, v) && Exists(l, n', v') && EntryOf(l, n, v).id == EntryOf(l, n', v').id
    ensures n == n' && v == v'
  {
    assert RowRep(m, b, n, v, EntryOf(l, n, v)) && RowRep(m, b, n', v', EntryOf(l, n', v'));
  }

  lemma {:induction false} LinkRows(m: Metadata, b: Blobs, l: Ledger, name: string, version: nat, refs: seq<Ref>)
    requires NamesRep(m, l) && RowsRep(m, b, l)
    requires Exists(l, name, version) && AllExist(l, refs)
    ensures RowsRep(WithDependencies(m, EntryOf(l, name, version).id, IdsOf(l, refs)), b, Link(l, name, version, refs))
  {
    var m', l' := WithDependencies(m, EntryOf(l, name, version).id, IdsOf(l, refs)), Link(l, name, version, refs);
    forall n, v { LinkAt(l, name, version, refs, n, v); }
    forall n, v | Exists(l', n, v)
        ensures RowRep(m', b, n, v, EntryOf(l', n, v)) && LinksRep(m', l', EntryOf(l', n, v)) {
      assert RowRep(m, b, n, v, EntryOf(l, n, v)) && LinksRep(m, l, EntryOf(l, n, v));
      if EntryOf(l, n, v).id == EntryOf(l, name, version).id { IdOfOneRow(m, b, l, n, v, name, version); }
    }
  }

  lemma {:induction false} LinkNamesIndex(m: Metadata, l: Ledger, id: nat, deps: seq<nat>, name: string,
                    version: nat, refs: seq<Ref>)
    requires NamesRep(m, l) && IndexRep(m, l)
    requires Exists(l, name, version) && id < l.nextId
    ensures NamesRep(WithDependencies(m, id, deps), Link(l, name, version, refs))
    ensures IndexRep(WithDependencies(m, id, deps), Link(l, name, version, refs))
  {
    var m', l' := WithDependencies(m, id, deps), Link(l, name, version, refs);
    assert name in l.histories;
    forall n, v | n in m'.ids ensures v in Index(m', m'.ids[n]) <==> Exists(l', n, v) {
      LinkAt(l, name, version, refs, n, v);
    }
  }

  lemma {:induction false} LinkCurrent(m: Metadata, l: Ledger, id: nat, deps: seq<nat>, name: string, version: nat,
                    refs: seq<Ref>)
    requires NamesRep(m, l) && CurrentRep(m, l) && Exists(l, name, version)
    requires NamesRep(WithDependencies(m, id, deps), Link(l, name, version, refs))
    ensures CurrentRep(WithDependencies(m, id, deps), Link(l, name, version, refs))
  {
    forall n { LinkAt(l, name, version, refs, n, HistoryOf(l, n).current); }
  }

  lemma {:induction false} LinkRep(m: Metadata, b: Blobs, l: Ledger, name: string, version: nat, refs: seq<Ref>)
    requires Rep(m, b, l) && Exists(l, name, version) && AllExist(l, refs)
    ensures Rep(WithDependencies(m, EntryOf(l, name, version).id, IdsOf(l, refs)), b, Link(l, name, version, refs))
  {
    LinkRows(m, b, l, name, version, refs);
    LinkNamesIndex(m, l, EntryOf(l, name, version).id, IdsOf(l, refs), name, version, refs);
    LinkCurrent(m, l, EntryOf(l, name, version).id, IdsOf(l, refs), name, version, refs);
    LinkIds(l, name, version, refs);
  }

  lemma {:induction false} PromoteRows(m: Metadata, b: Blobs, l: Ledger, name: string, version: nat, id: nat)
    requires RowsRep(m, b, l) && Exists(l, name, version) && name in m.ids && m.ids[name] in m.resources
    ensures RowsRep(WithCurrent(m, m.ids[name], id), b, Promote(l, name, version))
  {
    var m', l' := WithCurrent(m, m.ids[name], id), Promote(l, name, version);
    forall n, v { PromoteAt(l, name, version, n, v); }
    forall n, v | Exists(l', n, v)
        ensures RowRep(m', b, n, v, EntryOf(l', n, v)) && LinksRep(m', l', EntryOf(l', n, v)) {
      assert RowRep(m, b, n, v, EntryOf(l, n, v)) && LinksRep(m, l, EntryOf(l, n, v));
    }
  }

  lemma {:induction false} PromoteNamesIndex(m: Metadata, l: Ledger, name: string, version: nat, id: nat)
    requires NamesRep(m, l) && IndexRep(m, l) && Exists(l, name, version) && name in m.ids
    ensures NamesRep(WithCurrent(m, m.ids[name], id), Promote(l, name, version))
    ensures IndexRep(WithCurrent(m, m.ids[name], id), Promote(l, name, version))
  {
    forall n, v { PromoteAt(l, name, version, n, v); }
  }

  lemma {:induction false} PromoteCurrent(m: Metadata, l: Ledger, name: string, version: nat)
    requires NamesRep(m, l) && CurrentRep(m, l) && Exists(l, name, version) && name in m.ids
    requires NamesRep(WithCurrent(m, m.ids[name], EntryOf(l, name, version).id), Promote(l, name, version))
    ensures CurrentRep(WithCurrent(m, m.ids[name], EntryOf(l, name, version).id), Promote(l, name, version))
  {
    forall n, v { PromoteAt(l, name, version, n, v); }
    forall n | n in m.ids && m.ids[n] == m.ids[name] ensures n == name {
      assert n == m.resources[m.ids[n]].name;
    }
  }

  lemma {:induction false} PromoteRep(m: Metadata, b: Blobs, l: Ledger, name: string, version: nat)
    requires Rep(m, b, l) && Exists(l, name, version)
    ensures RowRep(m, b, name, version, EntryOf(l, name, version))
    ensures Rep(WithCurrent(m, m.ids[name], EntryOf(l, name, version).id), b, Promote(l, name, version))
  {
    assert RowRep(m, b, name, version, EntryOf(l, name, version));
    PromoteRows(m, b, l, name, version, EntryOf(l, name, version).id);
    PromoteNamesIndex(m, l, name, version, EntryOf(l, name, version).id);
    PromoteCurrent(m, l, name, version);
    PromoteIds(l, name, version);
  }

  /** The number computed from the index is the length of the history plus one. */
  lemma {:induction false} NextIsNext(m: Metadata, b: Blobs, l: Ledger, name: string, n: nat)
    requires NamesRep(m, l) && IndexRep(m, l) && name in m.ids
    requires n >= 1 && (forall v <- Index(m, m.ids[name]) :: v < n)
    requires n == 1 || n - 1 in Index(m, m.ids[name])
    ensures n == NextVersion(l, name)
  {
    var k := |HistoryOf(l, name).entries|;
    assert k in Index(m, m.ids[name]) <==> Exists(l, name, k);
    assert n - 1 in Index(m, m.ids[name]) ==> Exists(l, name, n - 1);
  }

  /** One whole upload on the tables is one more version on the histories. */
  lemma {:induction false} UploadRep(m: Metadata, b: Blobs, l: Ledger, name: string, value: Value, isTest: bool,
                    error: Option<string>)
    requires Rep(m, b, l)
    ensures var m' := WithResource(m, name);
            var uri := StorageUri(name, NextVersion(l, name));
            && name in m'.ids && m'.ids[name] in m'.resources && m'.resources[m'.ids[name]].id == m'.ids[name]
            && Rep(WithVersion(m', m'.ids[name], NextVersion(l, name), uri, isTest, error), b[uri := value],
                   Append(l, name, value, isTest, error))
  {
    WithResourceRep(m, b, l, name);
    KnownName(WithResource(m, name), b, Known(l, name), name);
    AppendRep(WithResource(m, name), b, Known(l, name), name, value, isTest, error);
    AppendKnown(l, name, value, isTest, error);
  }

  lemma {:induction false} KnownName(m: Metadata, b: Blobs, l: Ledger, name: string)
    requires NamesRep(m, l) && name in l.histories
    ensures name in m.ids && m.ids[name] in m.resources && m.resources[m.ids[name]].id == m.ids[name]
  {
  }

  lemma {:induction false} AppendKnown(l: Ledger, name: string, value: Value, isTest: bool, error: Option<string>)
    ensures Append(Known(l, name), name, value, isTest, error) == Append(l, name, value, isTest, error)
    ensures NextVersion(Known(l, name), name) == NextVersion(l, name)
  {
  }

  lemma {:induction false} UploadNumber(m: Metadata, b: Blobs, l: Ledger, name: string, n: nat)
    requires Rep(m, b, l)
    requires var m' := WithResource(m, name); name in m'.ids
    requires var m' := WithResource(m, name);
             n >= 1 && (forall v <- Index(m', m'.ids[name]) :: v < n) && (n == 1 || n - 1 in Index(m', m'.ids[name]))
    ensures n == NextVersion(l, name)
  {
    WithResourceRep(m, b, l, name);
    NextIsNext(WithResource(m, name), b, Known(l, name), name, n);
  }

  lemma {:induction false} RowOf(m: Metadata, b: Blobs, l: Ledger, name: string, version: nat)
    requires Rep(m, b, l)
    ensures Exists(l, name, version) <==>
              name in m.ids && version in Index(m, m.ids[name]) && Index(m, m.ids[name])[version] in m.versions
    ensures name in m.ids ==> m.ids[name] in m.resources && m.resources[m.ids[name]].id == m.ids[name]
    ensures Exists(l, name, version) ==> RowRep(m, b, name, version, EntryOf(l, name, version))
    ensures Exists(l, name, version) ==> LinksRep(m, l, EntryOf(l, name, version))
  {
    if Exists(l, name, version) { assert RowRep(m, b, name, version, EntryOf(l, name, version)); }
  }

  /** The dependency ids of a version lead to the rows of its recorded dependencies. */
  lemma {:induction false} LinksOf(m: Metadata, b: Blobs, l: Ledger, name: string, version: nat)
    requires Rep(m, b, l) && Exists(l, name, version)
    ensures var e := EntryOf(l, name, version);
            && |Deps(m, e.id)| == |e.deps|
            && forall i :: 0 <= i < |e.deps| ==>
                 && Deps(m, e.id)[i] in m.versions
                 && m.versions[Deps(m, e.id)[i]].name == e.deps[i].name
                     && m.versions[Deps(m, e.id)[i]].version == e.deps[i].version
  {
    var e := EntryOf(l, name, version);
    assert LinksRep(m, l, e);
    forall i | 0 <= i < |e.deps|
      ensures Deps(m, e.id)[i] in m.versions
      ensures m.versions[Deps(m, e.id)[i]].name == e.deps[i].name
          && m.versions[Deps(m, e.id)[i]].version == e.deps[i].version
    {
      assert RowRep(m, b, e.deps[i].name, e.deps[i].version, EntryOf(l, e.deps[i].name, e.deps[i].version));
    }
  }

  lemma {:induction false} CurrentRow(m: Metadata, b: Blobs, l: Ledger, name: string)
    requires Rep(m, b, l) && name in m.ids
    ensures m.ids[name] in m.resources
    ensures m.resources[m.ids[name]].current == if HasCurrent(l, name) && Exists(l, name, HistoryOf(l, name).current)
                                                then Some(EntryOf(l, name, HistoryOf(l, name).current).id) else None
    ensures HasCurrent(l, name) ==> Exists(l, name, HistoryOf(l, name).current)
  {
  }

  // ---- the adapters --------------------------------------------------------

  class InMemoryMetadataRepository {
    var resources: map<nat, Resource>
    var resourceIdsByName: map<string, nat>
    var nextResourceId: nat
    var versions: map<nat, Version>
    var versionIdsByResource: map<nat, map<nat, nat>>
    var nextVersionId: nat
    var dependencies: map<nat, seq<nat>>

    ghost function View(): Metadata
      reads this
    {
      Metadata(resources, resourceIdsByName, nextResourceId, versions, versionIdsByResource, nextVersionId,
          dependencies)
    }

    constructor ()
      ensures View() == Metadata(map[], map[], 1, map[], map[], 1, map[])
    {
      resources, resourceIdsByName, nextResourceId := map[], map[], 1;
      versions, versionIdsByResource, nextVersionId := map[], map[], 1;
      dependencies := map[];
    }

    method GetOrCreateResource(name: string) returns (r: Resource)
      requires name in resourceIdsByName ==> resourceIdsByName[name] in resources
      modifies this
      ensures View() == WithResource(old(View()), name)
      ensures name in View().ids && View().ids[name] in View().resources && r == View().resources[View().ids[name]]
    {
      if name in resourceIdsByName { return resources[resourceIdsByName[name]]; }
      var id := nextResourceId;
      nextResourceId := nextResourceId + 1;
      r := Resource(id, name, None);
      resources := resources[id := r];
      resourceIdsByName := resourceIdsByName[name := id];
    }

    method GetResource(name: string) returns (r: Option<Resource>)
      ensures r == if name in View().ids && View().ids[name] in View().resources
                   then Some(View().resources[View().ids[name]]) else None
    {
      r := if name in resourceIdsByName && resourceIdsByName[name] in resources
           then Some(resources[resourceIdsByName[name]]) else None;
    }

    /** One more than the largest existing number, starting from 1. */
    method NextVersion(resourceId: nat) returns (n: nat)
      ensures n >= 1 && (forall v <- Index(View(), resourceId) :: v < n)
      ensures n == 1 || n - 1 in Index(View(), resourceId)
    {
      var existing := if resourceId in versionIdsByResource then versionIdsByResource[resourceId] else map[];
      var rest := existing.Keys;
      n := 1;
      while rest != {}
        invariant rest <= existing.Keys && n >= 1
        invariant forall v <- existing :: v in rest || v < n
        invariant n == 1 || n - 1 in existing
        decreases rest
      {
        var v :| v in rest;
        rest := rest - {v};
        if n <= v { n := v + 1; }
      }
    }

    method RecordVersion(resourceId: nat, version: nat, storageUri: string, isTest: bool,
                      error: Option<string>) returns (record: Version)
      requires resourceId in resources
      modifies this
      ensures View() == WithVersion(old(View()), resourceId, version, storageUri, isTest, error)
      ensures record == View().versions[old(nextVersionId)]
    {
      var id := nextVersionId;
      nextVersionId := nextVersionId + 1;
      record := Version(id, resourceId, resources[resourceId].name, version, storageUri, isTest, error);
      versions := versions[id := record];
      var existing := if resourceId in versionIdsByResource then versionIdsByResource[resourceId] else map[];
      versionIdsByResource := versionIdsByResource[resourceId := existing[version := id]];
    }

    method GetVersion(resourceId: nat, version: nat) returns (v: Option<Version>)
      ensures v == if version in Index(View(), resourceId) && Index(View(), resourceId)[version] in View().versions
                   then Some(View().versions[Index(View(), resourceId)[version]]) else None
    {
      var existing := if resourceId in versionIdsByResource then versionIdsByResource[resourceId] else map[];
      v := if version in existing && existing[version] in versions then Some(versions[existing[version]]) else None;
    }

    method GetVersionById(id: nat) returns (v: Option<Version>)
      ensures v == if id in View().versions then Some(View().versions[id]) else None
    {
      v := if id in versions then Some(versions[id]) else None;
    }

    method SetDependencies(id: nat, deps: seq<nat>)
      modifies this
      ensures View() == WithDependencies(old(View()), id, deps)
    {
      dependencies := dependencies[id := deps];
    }

    method GetDependencies(id: nat) returns (deps: seq<nat>)
      ensures deps == Deps(View(), id)
    {
      deps := if id in dependencies then dependencies[id] else [];
    }

    method SetCurrent(resourceId: nat, id: nat)
      requires resourceId in resources
      modifies this
      ensures View() == WithCurrent(old(View()), resourceId, id)
    {
      resources := resources[resourceId := resources[resourceId].(current := Some(id))];
    }
  }

  class InMemoryBlobStore {
    var blobs: Blobs

    constructor ()
      ensures blobs == map[]
    {
      blobs := map[];
    }

    method Put(uri: string, value: Value)
      modifies this
      ensures blobs == old(blobs)[uri := value]
    {
      blobs := blobs[uri := value];
    }

    method Get(uri: string) returns (value: Value)
      requires uri in blobs
      ensures value == blobs[uri]
    {
      value := blobs[uri];
    }
  }

  // ---- the service ---------------------------------------------------------

  /** The declared contracts: a validator returns the reason for which it rejects a value. */
  type Contracts = map<string, Value -> Option<string>>

  datatype UploadResult = Uploaded(version: nat) | NoContract | Rejected(reason: string)

  datatype Snapshot = Snapshot(version: nat, value: Value)

  class ResourceStoreService {
    const metadata: InMemoryMetadataRepository
    const blobs: InMemoryBlobStore
    const contracts: Contracts
    ghost var ledger: Ledger

    ghost predicate Valid()
      reads this, metadata, blobs
    {
      Rep(metadata.View(), blobs.blobs, ledger)
    }

    constructor (contracts: Contracts)
      ensures Valid() && fresh(metadata) && fresh(blobs)
      ensures this.contracts == contracts && ledger == Ledger(map[], 1)
    {
      metadata := new InMemoryMetadataRepository();
      blobs := new InMemoryBlobStore();
      this.contracts := contracts;
      ledger := Ledger(map[], 1);
    }

    /** The row of a version, given its entry in the history. */
    ghost function VersionRow(name: string, version: nat, e: Entry): Version
      reads metadata
    {
      var r := if name in metadata.View().ids then metadata.View().ids[name] else 0;
      Version(e.id, r, name, version, StorageUri(name, version), e.isTest, e.error)
    }

    /** Persists every value of a declared resource, valid or not, as its next version; promotes nothing. */
    method UploadVersion(name: string, value: Value, isTest: bool) returns (r: UploadResult)
      requires Valid()
      modifies this`ledger, metadata, blobs
      ensures Valid()
      ensures name !in contracts ==> r == NoContract && ledger == old(ledger)
      ensures name in contracts ==>
                && ledger == Append(old(ledger), name, value, isTest, contracts[name](value))
                && r == match contracts[name](value)
                        case None => Uploaded(NextVersion(old(ledger), name))
                        case Some(reason) => Rejected(reason)
    {
      if name !in contracts { return NoContract; }
      var error := contracts[name](value);
      ghost var m, b := metadata.View(), blobs.blobs;
      UploadRep(m, b, ledger, name, value, isTest, error);
      var resource := metadata.GetOrCreateResource(name);
      var version := metadata.NextVersion(resource.id);
      UploadNumber(m, b, ledger, name, version);
      var uri := StorageUri(name, version);
      blobs.Put(uri, value);
      var record := metadata.RecordVersion(resource.id, version, uri, isTest, error);
      ledger := Append(ledger, name, value, isTest, error);
      r := if error.Some? then Rejected(error.value) else Uploaded(record.version);
    }

    /** The version row behind `_require_resource` and `_require_version`. */
    method RequireVersion(name: string, version: nat) returns (v: Option<Version>)
      requires Valid()
      ensures v == if Exists(ledger, name, version) then Some(VersionRow(name, version, EntryOf(ledger, name, version)))
          else None
    {
      RowOf(metadata.View(), blobs.blobs, ledger, name, version);
      var resource := metadata.GetResource(name);
      if resource.None? { return None; }
      v := metadata.GetVersion(resource.value.id, version);
    }

    /** The ids of the upstream versions, if all of them exist. */
    method RequireAll(refs: seq<Ref>) returns (ids: Option<seq<nat>>)
      requires Valid()
      ensures ids == if AllExist(ledger, refs) then Some(IdsOf(ledger, refs)) else None
    {
      hide Rep;
      var found: seq<nat> := [];
      for i := 0 to |refs|
        invariant AllExist(ledger, refs[..i]) && found == IdsOf(ledger, refs[..i])
      {
        var upstream := RequireVersion(refs[i].name, refs[i].version);
        if upstream.None? { return None; }
        IdsSnoc(ledger, refs, i);
        hide IdsOf, AllExist, Exists;
        found := found + [upstream.value.id];
      }
      assert refs[..|refs|] == refs;
      ids := Some(found);
    }

    /** Replaces the direct dependencies; takes effect only if all the versions named exist. */
    method UpdateDependencies(name: string, version: nat, dependsOn: seq<Ref>) returns (ok: bool)
      requires Valid()
      modifies this`ledger, metadata
      ensures Valid()
      ensures ok <==> Exists(old(ledger), name, version) && AllExist(old(ledger), dependsOn)
      ensures ledger == if ok then Link(old(ledger), name, version, dependsOn) else old(ledger)
    {
      var record := RequireVersion(name, version);
      if record.None? { return false; }
      var ids := RequireAll(dependsOn);
      if ids.None? { return false; }
      LinkRep(metadata.View(), blobs.blobs, ledger, name, version, dependsOn);
      metadata.SetDependencies(record.value.id, ids.value);
      ledger := Link(ledger, name, version, dependsOn);
      ok := true;
    }

    /** Makes any existing version current, whether or not it passed its contract. */
    method PromoteVersion(name: string, version: nat) returns (ok: bool)
      requires Valid()
      modifies this`ledger, metadata
      ensures Valid()
      ensures ok <==> Exists(old(ledger), name, version)
      ensures ledger == if ok then Promote(old(ledger), name, version) else old(ledger)
    {
      var record := RequireVersion(name, version);
      if record.None? { return false; }
      PromoteRep(metadata.View(), blobs.blobs, ledger, name, version);
      metadata.SetCurrent(record.value.resourceId, record.value.id);
      ledger := Promote(ledger, name, version);
      ok := true;
    }

    /** A given version, or the current one: the very value that was uploaded. */
    method Get(name: string, version: Option<nat>) returns (r: Option<Snapshot>)
      requires Valid()
      ensures var v := if version.Some? then version.value else HistoryOf(ledger, name).current;
              r == if Exists(ledger, name, v) then Some(Snapshot(v, EntryOf(ledger, name, v).value)) else None
    {
      ghost var m, b, c := metadata.View(), blobs.blobs, HistoryOf(ledger, name).current;
      var record: Option<Version>;
      if version.None? {
        var resource := metadata.GetResource(name);
        if name in m.ids { CurrentRow(m, b, ledger, name); }
        RowOf(m, b, ledger, name, c);
        if resource.None? || resource.value.current.None? { return None; }
        record := metadata.GetVersionById(resource.value.current.value);
      } else {
        RowOf(m, b, ledger, name, version.value);
        record := RequireVersion(name, version.value);
      }
      if record.None? { return None; }
      var value := blobs.Get(record.value.storageUri);
      r := Some(Snapshot(record.value.version, value));
    }

    /** The recorded direct dependencies of a version. */
    method Dependencies(name: string, version: nat) returns (r: Option<seq<Ref>>)
      requires Valid()
      ensures r == if Exists(ledger, name, version) then Some(EntryOf(ledger, name, version).deps) else None
    {
      var record := RequireVersion(name, version);
      if record.None? { return None; }
      var ids := metadata.GetDependencies(record.value.id);
      LinksOf(metadata.View(), blobs.blobs, ledger, name, version);
      var refs := ReadRefs(ids, EntryOf(ledger, name, version).deps);
      r := Some(refs);
    }

    method ReadRefs(ids: seq<nat>, ghost deps: seq<Ref>) returns (refs: seq<Ref>)
      requires |ids| == |deps|
      requires forall i :: 0 <= i < |ids| ==> ids[i] in metadata.versions
      requires forall i :: 0 <= i < |ids|
                           ==> Ref(metadata.versions[ids[i]].name, metadata.versions[ids[i]].version) == deps[i]
      ensures refs == deps
    {
      refs := [];
      for i := 0 to |ids|
        invariant |refs| == i && forall k :: 0 <= k < i ==> refs[k] == deps[k]
      {
        var v := metadata.GetVersionById(ids[i]);
        refs := refs + [Ref(v.value.name, v.value.version)];
      }
    }
  }
}
