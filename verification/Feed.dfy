/**
 * The branching feed workflow: counting, scoring, ranking and the fan-in (workflows/feed_branching,
 * resources/rank_feed.py).
 */
module Feed {
  import opened Stages

  datatype Kind = Impression | Click | Like

  /** An event that passed the raw_events contract. */
  datatype Event = Event(item: string, kind: Kind)

  predicate ValidEvents(events: seq<Event>) {
    forall e <- events :: e.item != ""
  }

  /** A Python dictionary: values by key, and the keys in insertion order. */
  datatype Dict<V> = Dict(keys: seq<string>, values: map<string, V>)

  ghost predicate IsDict<V>(d: Dict<V>) {
    && (forall n :: n in d.keys <==> n in d.values)
    && Distinct(d.keys)
  }

  ghost predicate Distinct(names: seq<string>) {
    forall i, j :: 0 <= i < j < |names| ==> names[i] != names[j]
  }

  // ---- aggregate_signals ---------------------------------------------------

  datatype Counts = Counts(impressions: nat, clicks: nat, likes: nat)

  function Bump(c: Counts, kind: Kind): Counts {
    match kind
    case Impression => c.(impressions := c.impressions + 1)
    case Click => c.(clicks := c.clicks + 1)
    case Like => c.(likes := c.likes + 1)
  }

  /** How many events of a kind an item has. */
  function CountOf(events: seq<Event>, item: string, kind: Kind): nat {
    if events == [] then 0
    else CountOf(events[..|events| - 1], item, kind) + if events[|events| - 1] == Event(item, kind) then 1 else 0
  }

  function CountsOf(events: seq<Event>, item: string): Counts {
    Counts(CountOf(events, item, Impression), CountOf(events, item, Click), CountOf(events, item, Like))
  }

  /** The items in the order of their first event. */
  function ItemsOf(events: seq<Event>): (items: seq<string>)
    ensures forall n :: n in items <==> exists e :: e in events && e.item == n
  {
    if events == [] then []
    else
      var init, last := events[..|events| - 1], events[|events| - 1];
      assert events == init + [last];
      assert last in events;
      if last.item in ItemsOf(init) then ItemsOf(init) else ItemsOf(init) + [last.item]
  }

  ghost predicate IsAggregate(events: seq<Event>, d: Dict<Counts>) {
    && d.keys == ItemsOf(events)
    && (forall n :: n in d.values <==> n in d.keys)
    && forall n <- d.values :: d.values[n] == CountsOf(events, n)
  }

  lemma {:induction false} CountsSnoc(events: seq<Event>, e: Event, item: string)
    ensures CountsOf(events + [e], item) == if item == e.item then Bump(CountsOf(events, item), e.kind)
        else CountsOf(events, item)
  {
    assert (events + [e])[..|events|] == events;
  }

  lemma {:induction false} CountsOfAbsent(events: seq<Event>, item: string)
    requires item !in ItemsOf(events)
    ensures CountsOf(events, item) == Counts(0, 0, 0)
  {
    if events != [] {
      var init, last := events[..|events| - 1], events[|events| - 1];
      CountsOfAbsent(init, item);
      assert last.item in ItemsOf(events);
    }
  }

  lemma {:induction false} ItemsDistinct(events: seq<Event>)
    ensures Distinct(ItemsOf(events))
  {
    if events != [] { ItemsDistinct(events[..|events| - 1]); }
  }

  /** One pass over the events with a nested dictionary of counters. */
  method AggregateSignals(events: seq<Event>) returns (signals: Dict<Counts>)
    ensures IsAggregate(events, signals)
  {
    var keys: seq<string>, values: map<string, Counts> := [], map[];
    for i := 0 to |events|
      invariant IsAggregate(events[..i], Dict(keys, values))
    {
      var e := events[i];
      assert events[..i + 1] == events[..i] + [e];
      assert (events[..i] + [e])[..i] == events[..i];
      forall n { CountsSnoc(events[..i], e, n); }
      if e.item !in values {
        CountsOfAbsent(events[..i], e.item);
        keys := keys + [e.item];
        values := values[e.item := Counts(0, 0, 0)];
      }
      values := values[e.item := Bump(values[e.item], e.kind)];
    }
    assert events[..|events|] == events;
    signals := Dict(keys, values);
  }

  lemma {:induction false} CountIsExact(events: seq<Event>, item: string, kind: Kind)
    ensures CountOf(events, item, kind) == multiset(events)[Event(item, kind)]
  {
    if events != [] {
      CountIsExact(events[..|events| - 1], item, kind);
      assert events == events[..|events| - 1] + [events[|events| - 1]];
    }
  }

  /** Each counter is the number of events of its own kind. */
  lemma {:induction false} AggregateCounts(events: seq<Event>, d: Dict<Counts>, n: string)
    requires IsAggregate(events, d) && n in d.values
    ensures d.values[n].impressions == multiset(events)[Event(n, Impression)]
    ensures d.values[n].clicks == multiset(events)[Event(n, Click)]
    ensures d.values[n].likes == multiset(events)[Event(n, Like)]
  {
    CountIsExact(events, n, Impression);
    CountIsExact(events, n, Click);
    CountIsExact(events, n, Like);
  }

  /** Items stand in the order of their first events. */
  lemma {:induction false} ItemsByFirstEvent(events: seq<Event>, i: nat, j: nat) returns (p: nat)
    requires i < j < |ItemsOf(events)|
    ensures p < |events| && events[p].item == ItemsOf(events)[i]
    ensures forall q :: 0 <= q <= p ==> events[q].item != ItemsOf(events)[j]
  {
    var init, last := events[..|events| - 1], events[|events| - 1];
    if j < |ItemsOf(init)| {
      p := ItemsByFirstEvent(init, i, j);
    } else {
      var x := ItemsOf(init)[i];
      assert x in ItemsOf(init);
      var e :| e in init && e.item == x;
      p :| 0 <= p < |init| && init[p] == e;
      forall q | 0 <= q <= p ensures events[q].item != last.item {
        assert events[q] == init[q] && init[q] in init;
      }
    }
  }

  function Total(keys: seq<string>, values: map<string, Counts>): nat
    requires forall n <- keys :: n in values
  {
    if keys == [] then 0
    else
      var c := values[keys[|keys| - 1]];
      Total(keys[..|keys| - 1], values) + c.impressions + c.clicks + c.likes
  }

  /** Events of the listed items. */
  function EventsOf(events: seq<Event>, keys: seq<string>): nat {
    if events == [] then 0
    else EventsOf(events[..|events| - 1], keys) + if events[|events| - 1].item in keys then 1 else 0
  }

  lemma {:induction false} EventsOfSnoc(events: seq<Event>, keys: seq<string>, n: string)
    requires n !in keys
    ensures var c := CountsOf(events, n);
            EventsOf(events, keys + [n]) == EventsOf(events, keys) + c.impressions + c.clicks + c.likes
  {
    if events != [] {
      var init := events[..|events| - 1];
      EventsOfSnoc(init, keys, n);
      assert n in keys + [n];
      var e := events[|events| - 1];
      CountsSnoc(init, e, n);
      assert events == init + [e];
      assert e.item in keys + [n] <==> e.item in keys || e.item == n;
    }
  }

  lemma {:induction false} TotalIsEvents(events: seq<Event>, keys: seq<string>, values: map<string, Counts>)
    requires Distinct(keys) && forall n <- keys :: n in values && values[n] == CountsOf(events, n)
    ensures Total(keys, values) == EventsOf(events, keys)
  {
    if keys == [] {
      NoKeys(events);
    } else {
      var init, n := keys[..|keys| - 1], keys[|keys| - 1];
      assert keys == init + [n];
      TotalIsEvents(events, init, values);
      EventsOfSnoc(events, init, n);
    }
  }

  lemma {:induction false} NoKeys(events: seq<Event>)
    ensures EventsOf(events, []) == 0
  {
    if events != [] { NoKeys(events[..|events| - 1]); }
  }

  lemma {:induction false} AllKeys(events: seq<Event>, keys: seq<string>)
    requires forall e <- events :: e.item in keys
    ensures EventsOf(events, keys) == |events|
  {
    if events != [] {
      assert events[|events| - 1] in events;
      AllKeys(events[..|events| - 1], keys);
    }
  }

  /** Counting loses no event and invents none. */
  lemma {:induction false} CountsConserve(events: seq<Event>, d: Dict<Counts>)
    requires IsAggregate(events, d)
    ensures IsDict(d) && Total(d.keys, d.values) == |events|
  {
    ItemsDistinct(events);
    TotalIsEvents(events, d.keys, d.values);
    AllKeys(events, d.keys);
  }

  // ---- score_items ---------------------------------------------------------

  /** A simple weighted score: the click rate counts tenfold, a like counts half. */
  function RawScore(c: Counts): real {
    c.clicks as real / (if c.impressions > 1 then c.impressions else 1) as real * 10.0 + c.likes as real * 0.5
  }

  /** One score per item, in the same order. */
  method ScoreItems(signals: Dict<Counts>, round: real -> real) returns (scores: Dict<real>)
    requires IsDict(signals)
    ensures IsScored(signals, round, scores)
    ensures scores.keys == signals.keys && scores.values.Keys == signals.values.Keys
    ensures forall n <- scores.values ::
              var c := signals.values[n];
              var impressions: real := if c.impressions == 0 then 1.0 else c.impressions as real;
              scores.values[n] == round(c.clicks as real / impressions * 10.0 + c.likes as real * 0.5)
  {
    var values: map<string, real> := map[];
    for i := 0 to |signals.keys|
      invariant forall n :: n in values <==> n in signals.keys[..i]
      invariant forall n <- values :: n in signals.values && values[n] == round(RawScore(signals.values[n]))
    {
      var c := signals.values[signals.keys[i]];
      var impressions := if c.impressions > 1 then c.impressions else 1;
      var ctr := c.clicks as real / impressions as real;
      values := values[signals.keys[i] := round(ctr * 10.0 + c.likes as real * 0.5)];
    }
    assert signals.keys[..|signals.keys|] == signals.keys;
    scores := Dict(signals.keys, values);
  }

  ghost predicate IsScored(signals: Dict<Counts>, round: real -> real, scores: Dict<real>) {
    && scores.keys == signals.keys && scores.values.Keys == signals.values.Keys
    && forall n <- scores.values :: scores.values[n] == round(RawScore(signals.values[n]))
  }

  /** More clicks or likes on fewer impressions. */
  predicate Engages(better: Counts, c: Counts) {
    better.clicks >= c.clicks && better.likes >= c.likes && better.impressions <= c.impressions
  }

  lemma {:induction false} RateFalls(clicks: real, impressions: real, clicks': real, impressions': real)
    requires 0.0 <= clicks <= clicks' && 0.0 < impressions' <= impressions
    ensures clicks / impressions <= clicks' / impressions'
  {
    assert clicks / impressions <= clicks' / impressions by { assert (clicks' - clicks) / impressions >= 0.0; }
    var q := clicks' / impressions';
    assert q >= 0.0 && clicks' == q * impressions';
    assert q * impressions' <= q * impressions;
    assert clicks' / impressions <= (q * impressions) / impressions == q;
  }

  lemma {:induction false} EngagedScoresHigher(better: Counts, c: Counts)
    requires Engages(better, c)
    ensures RawScore(c) <= RawScore(better)
  {
    RateFalls(c.clicks as real, (if c.impressions > 1 then c.impressions else 1) as real,
              better.clicks as real, (if better.impressions > 1 then better.impressions else 1) as real);
  }

  // ---- rank_feed -----------------------------------------------------------

  datatype Entry = Entry(item: string, score: real)

  function EntriesOf(scores: Dict<real>): seq<Entry>
    requires forall n <- scores.keys :: n in scores.values
  {
    seq(|scores.keys|, i requires 0 <= i < |scores.keys| => Entry(scores.keys[i], scores.values[scores.keys[i]]))
  }

  /** x goes behind every entry that scores at least as much. */
  function Inserted(s: seq<Entry>, x: Entry): seq<Entry> {
    if s == [] || s[|s| - 1].score >= x.score then s + [x]
    else Inserted(s[..|s| - 1], x) + [s[|s| - 1]]
  }

  /** `sorted(…, reverse=True)`: descending, equal scores in their original order. */
  function Sorted(s: seq<Entry>): seq<Entry> {
    if s == [] then [] else Inserted(Sorted(s[..|s| - 1]), s[|s| - 1])
  }

  function RankFeed(scores: Dict<real>): seq<Entry>
    requires forall n <- scores.keys :: n in scores.values
  {
    Sorted(EntriesOf(scores))
  }

  ghost predicate Descending(s: seq<Entry>) {
    forall i, j :: 0 <= i < j < |s| ==> s[i].score >= s[j].score
  }

  /** The entries of one score, in order. */
  function Scoring(s: seq<Entry>, v: real): seq<Entry> {
    if s == [] then []
    else Scoring(s[..|s| - 1], v) + if s[|s| - 1].score == v then [s[|s| - 1]] else []
  }

  ghost predicate SameScoring(r: seq<Entry>, r': seq<Entry>) {
    forall v :: Scoring(r, v) == Scoring(r', v)
  }

  /** Descending, and for each score exactly the original entries in the original order. */
  ghost predicate IsStableSort(s: seq<Entry>, r: seq<Entry>) {
    Descending(r) && multiset(r) == multiset(s) && SameScoring(r, s)
  }

  lemma {:induction false} InsertedPermutes(s: seq<Entry>, x: Entry)
    ensures multiset(Inserted(s, x)) == multiset(s) + multiset{x}
  {
    if !(s == [] || s[|s| - 1].score >= x.score) {
      assert s == s[..|s| - 1] + [s[|s| - 1]];
      InsertedPermutes(s[..|s| - 1], x);
    }
  }

  lemma {:induction false} InsertedMembers(s: seq<Entry>, x: Entry, y: Entry)
    ensures y in Inserted(s, x) <==> y in s || y == x
  {
    InsertedPermutes(s, x);
    assert y in multiset(Inserted(s, x)) <==> y in Inserted(s, x);
    assert y in multiset(s) <==> y in s;
  }

  lemma {:induction false} InsertedDescends(s: seq<Entry>, x: Entry)
    requires Descending(s)
    ensures Descending(Inserted(s, x))
  {
    if !(s == [] || s[|s| - 1].score >= x.score) {
      var init, last := s[..|s| - 1], s[|s| - 1];
      InsertedDescends(init, x);
      var r := Inserted(init, x);
      forall i | 0 <= i < |r| ensures r[i].score >= last.score {
        InsertedMembers(init, x, r[i]);
      }
    }
  }

  lemma {:induction false} ScoringSnoc(s: seq<Entry>, x: Entry, v: real)
    ensures Scoring(s + [x], v) == Scoring(s, v) + if x.score == v then [x] else []
  {
    assert (s + [x])[..|s|] == s;
  }

  lemma {:induction false} InsertedScoring(s: seq<Entry>, x: Entry, v: real)
    requires Descending(s)
    ensures Scoring(Inserted(s, x), v) == Scoring(s, v) + if x.score == v then [x] else []
  {
    if s == [] || s[|s| - 1].score >= x.score {
      ScoringSnoc(s, x, v);
    } else {
      var init, last := s[..|s| - 1], s[|s| - 1];
      assert s == init + [last];
      InsertedScoring(init, x, v);
      ScoringSnoc(Inserted(init, x), last, v);
      ScoringSnoc(init, last, v);
    }
  }

  lemma {:induction false} SortedIsStableSort(s: seq<Entry>)
    ensures IsStableSort(s, Sorted(s))
  {
    if s != [] {
      var init, last := s[..|s| - 1], s[|s| - 1];
      assert s == init + [last];
      SortedIsStableSort(init);
      InsertedDescends(Sorted(init), last);
      InsertedPermutes(Sorted(init), last);
      forall v ensures Scoring(Sorted(s), v) == Scoring(s, v) {
        InsertedScoring(Sorted(init), last, v);
      }
    }
  }

  lemma {:induction false} ScoringMembers(s: seq<Entry>, v: real, x: Entry)
    ensures x in Scoring(s, v) <==> x in s && x.score == v
  {
    if s != [] { ScoringMembers(s[..|s| - 1], v, x); }
  }

  lemma {:induction false} ScoringCancels(s: seq<Entry>, s': seq<Entry>, x: Entry, v: real)
    requires Scoring(s + [x], v) == Scoring(s' + [x], v)
    ensures Scoring(s, v) == Scoring(s', v)
  {
    ScoringSnoc(s, x, v);
    ScoringSnoc(s', x, v);
    hide Scoring;
    var a, b, tail := Scoring(s, v), Scoring(s', v), if x.score == v then [x] else [];
    assert (a + tail)[..|a|] == a && (b + tail)[..|b|] == b;
  }

  /** The last entry of a descending sequence is the last among the entries of the lowest score. */
  lemma {:induction false} SameLast(r: seq<Entry>, r': seq<Entry>)
    requires Descending(r) && Descending(r') && SameScoring(r, r') && r != []
    ensures r' != [] && r[|r| - 1] == r'[|r'| - 1]
  {
    var x := r[|r| - 1];
    ScoringMembers(r, x.score, x);
    ScoringMembers(r', x.score, x);
    var y := r'[|r'| - 1];
    ScoringMembers(r, y.score, y);
    ScoringMembers(r', y.score, y);
    assert x in r' && y in r;
    assert x.score == y.score;
    LastScoring(r);
    LastScoring(r');
  }

  lemma {:induction false} LastScoring(r: seq<Entry>)
    requires r != []
    ensures var t := Scoring(r, r[|r| - 1].score); t != [] && t[|t| - 1] == r[|r| - 1]
  {
  }

  /** A stable descending sort is unique, so it does not matter which algorithm computes it. */
  lemma {:induction false} StableSortIsUnique(r: seq<Entry>, r': seq<Entry>)
    requires Descending(r) && Descending(r') && SameScoring(r, r')
    ensures r == r'
    decreases |r|
  {
    hide SameScoring;
    if r == [] {
      if r' != [] { OtherNotEmpty(r', r); }
    } else {
      SameLast(r, r');
      var init, init', x := r[..|r| - 1], r'[..|r'| - 1], r[|r| - 1];
      assert r == init + [x] && r' == init' + [x];
      SameInit(init, init', x);
      StableSortIsUnique(init, init');
    }
  }

  lemma {:induction false} OtherNotEmpty(r: seq<Entry>, r': seq<Entry>)
    requires Descending(r) && Descending(r') && SameScoring(r', r) && r != []
    ensures r' != []
  {
    SameLast(r, r');
  }

  lemma {:induction false} SameInit(s: seq<Entry>, s': seq<Entry>, x: Entry)
    requires SameScoring(s + [x], s' + [x])
    ensures SameScoring(s, s')
  {
    forall v ensures Scoring(s, v) == Scoring(s', v) {
      assert Scoring(s + [x], v) == Scoring(s' + [x], v);
      ScoringCancels(s, s', x, v);
    }
  }

  /** The ranking is the one and only stable descending sort of the scores. */
  lemma {:induction false} SortedExactly(s: seq<Entry>, r: seq<Entry>)
    ensures IsStableSort(s, r) <==> r == Sorted(s)
  {
    SortedIsStableSort(s);
    if IsStableSort(s, r) {
      forall v ensures Scoring(r, v) == Scoring(Sorted(s), v) {
        assert Scoring(r, v) == Scoring(s, v) && Scoring(Sorted(s), v) == Scoring(s, v);
      }
      StableSortIsUnique(r, Sorted(s));
    }
  }

  // ---- the contract of rank_feed -------------------------------------------

  /** What the contract is for: non-empty distinct ids, sorted by score, descending. */
  ghost predicate Acceptable(value: seq<Entry>) {
    && (forall i :: 0 <= i < |value| ==> value[i].item != "")
    && (forall i, j :: 0 <= i < j < |value| ==> value[i].item != value[j].item)
    && Descending(value)
  }

  datatype Violation = EmptyId | DuplicateId(item: string) | NotSorted

  /** Entry k is the first that breaks the contract, in this way. */
  ghost predicate Breaks(value: seq<Entry>, k: nat, violation: Violation)
    requires k < |value|
  {
    match violation
    case EmptyId => value[k].item == ""
    case DuplicateId(item) => item != "" && value[k].item == item && exists j :: 0 <= j < k && value[j].item == item
    case NotSorted =>
      && value[k].item != "" && (forall j :: 0 <= j < k ==> value[j].item != value[k].item)
      && k > 0 && value[k].score > value[k - 1].score
  }

  /** One pass that remembers the ids seen and only the previous score. */
  method Validate(value: seq<Entry>) returns (violation: Option<Violation>)
    ensures violation.None? <==> Acceptable(value)
    ensures violation.Some? ==> exists k :: 0 <= k < |value| && Acceptable(value[..k])
                                            && Breaks(value, k, violation.value)
  {
    var seenIds: set<string>, previousScore: Option<real> := {}, None;
    for i := 0 to |value|
      invariant Acceptable(value[..i])
      invariant forall n :: n in seenIds <==> exists k :: 0 <= k < i && value[k].item == n
      invariant previousScore == if i == 0 then None else Some(value[i - 1].score)
    {
      var x := value[i];
      if x.item == "" {
        assert Breaks(value, i, EmptyId);
        return Some(EmptyId);
      }
      if x.item in seenIds {
        assert Breaks(value, i, DuplicateId(x.item));
        return Some(DuplicateId(x.item));
      }
      seenIds := seenIds + {x.item};
      if previousScore.Some? && x.score > previousScore.value {
        assert Breaks(value, i, NotSorted);
        return Some(NotSorted);
      }
      previousScore := Some(x.score);
      assert value[..i + 1] == value[..i] + [x];
    }
    assert value[..|value|] == value;
    violation := None;
  }

  // ---- trending_topics and publish_feed ------------------------------------

  const TRENDING_THRESHOLD := 5.0

  function TrendingTopics(scores: Dict<real>): seq<string>
    requires forall n <- scores.keys :: n in scores.values
  {
    Trending(scores.keys, scores.values)
  }

  function Trending(keys: seq<string>, values: map<string, real>): seq<string>
    requires forall n <- keys :: n in values
  {
    if keys == [] then []
    else
      var n := keys[|keys| - 1];
      Trending(keys[..|keys| - 1], values) + if values[n] >= TRENDING_THRESHOLD then [n] else []
  }

  lemma {:induction false} TrendingMembers(keys: seq<string>, values: map<string, real>, n: string)
    requires forall n <- keys :: n in values
    ensures n in Trending(keys, values) <==> n in keys && values[n] >= 5.0
  {
    if keys != [] { TrendingMembers(keys[..|keys| - 1], values, n); }
  }

  /** Trending items stand in the order of the scores. */
  lemma {:induction false} TrendingInOrder(keys: seq<string>, values: map<string, real>, i: nat,
                    j: nat) returns (p: nat, q: nat)
    requires (forall n <- keys :: n in values) && i < j < |Trending(keys, values)|
    ensures p < q < |keys| && keys[p] == Trending(keys, values)[i] && keys[q] == Trending(keys, values)[j]
  {
    var init := keys[..|keys| - 1];
    if j < |Trending(init, values)| {
      p, q := TrendingInOrder(init, values, i, j);
    } else {
      q := |keys| - 1;
      TrendingMembers(init, values, Trending(init, values)[i]);
      p :| 0 <= p < |init| && init[p] == Trending(init, values)[i];
    }
  }

  datatype Published = Published(item: string, score: real, trending: bool)

  function PublishFeed(ranked: seq<Entry>, trending: seq<string>): seq<Published> {
    seq(|ranked|, i requires 0 <= i < |ranked| => Published(ranked[i].item, ranked[i].score,
        ranked[i].item in trending))
  }

  // ---- the pipeline --------------------------------------------------------

  lemma {:induction false} RankedMembers(scores: Dict<real>, i: nat)
    requires IsDict(scores) && i < |RankFeed(scores)|
    ensures var x := RankFeed(scores)[i]; x.item in scores.keys && x.score == scores.values[x.item]
  {
    var s, r := EntriesOf(scores), RankFeed(scores);
    SortedIsStableSort(s);
    assert r[i] in multiset(r);
    assert r[i] in s;
  }

  lemma {:induction false} RankedDistinct(scores: Dict<real>)
    requires IsDict(scores)
    ensures forall i, j :: 0 <= i < j < |RankFeed(scores)| ==> RankFeed(scores)[i].item != RankFeed(scores)[j].item
  {
    var s, r := EntriesOf(scores), RankFeed(scores);
    SortedIsStableSort(s);
    forall i, j | 0 <= i < j < |r| ensures r[i].item != r[j].item {
      if r[i].item == r[j].item {
        RankedMembers(scores, i);
        RankedMembers(scores, j);
        TwiceIn(r, i, j);
        OnceIn(scores, r[i]);
      }
    }
  }

  lemma {:induction false} TwiceIn(r: seq<Entry>, i: nat, j: nat)
    requires i < j < |r| && r[i] == r[j]
    ensures multiset(r)[r[i]] >= 2
  {
    assert r == r[..j] + [r[j]] + r[j + 1..];
    assert r[i] in multiset(r[..j]) by { assert r[..j][i] == r[i]; }
  }

  lemma {:induction false} OnceIn(scores: Dict<real>, x: Entry)
    requires IsDict(scores)
    ensures multiset(EntriesOf(scores))[x] <= 1
  {
    OnceAmong(EntriesOf(scores), x);
  }

  lemma {:induction false} OnceAmong(s: seq<Entry>, x: Entry)
    requires forall i, j :: 0 <= i < j < |s| ==> s[i].item != s[j].item
    ensures multiset(s)[x] <= 1
  {
    if s != [] {
      var init, last := s[..|s| - 1], s[|s| - 1];
      assert s == init + [last];
      OnceAmong(init, x);
      assert last !in init;
    }
  }

  /** Whatever events pass their contract and whatever the score, the ranked feed passes its own contract. */
  lemma {:induction false} RankedIsAcceptable(events: seq<Event>, signals: Dict<Counts>, round: real -> real,
                    scores: Dict<real>)
    requires ValidEvents(events) && IsAggregate(events, signals) && IsScored(signals, round, scores)
    ensures IsDict(scores) && Acceptable(RankFeed(scores))
  {
    CountsConserve(events, signals);
    SortedIsStableSort(EntriesOf(scores));
    RankedDistinct(scores);
    forall i | 0 <= i < |RankFeed(scores)| ensures RankFeed(scores)[i].item != "" {
      RankedMembers(scores, i);
    }
  }

  lemma {:induction false} ScoringKeepsOrder(s: seq<Entry>, v: real, i: nat, j: nat) returns (a: nat, b: nat)
    requires i < j < |s| && s[i].score == v && s[j].score == v
    ensures a < b < |Scoring(s, v)| && Scoring(s, v)[a] == s[i] && Scoring(s, v)[b] == s[j]
  {
    var init := s[..|s| - 1];
    if j < |init| {
      a, b := ScoringKeepsOrder(init, v, i, j);
    } else {
      ScoringMembers(init, v, init[i]);
      a :| 0 <= a < |Scoring(init, v)| && Scoring(init, v)[a] == init[i];
      b := |Scoring(init, v)|;
    }
  }

  lemma {:induction false} ScoringComesFrom(s: seq<Entry>, v: real, a: nat, b: nat) returns (i: nat, j: nat)
    requires a < b < |Scoring(s, v)|
    ensures i < j < |s| && s[i] == Scoring(s, v)[a] && s[j] == Scoring(s, v)[b]
  {
    var init := s[..|s| - 1];
    if b < |Scoring(init, v)| {
      i, j := ScoringComesFrom(init, v, a, b);
    } else {
      j := |init|;
      ScoringMembers(init, v, Scoring(init, v)[a]);
      i :| 0 <= i < |init| && init[i] == Scoring(init, v)[a];
    }
  }

  /** Items of the same score are ranked in the order of the scores. */
  lemma {:induction false} TiesInOrder(scores: Dict<real>, i: nat, j: nat) returns (p: nat, q: nat)
    requires IsDict(scores) && i < j < |RankFeed(scores)| && RankFeed(scores)[i].score == RankFeed(scores)[j].score
    ensures p < q < |scores.keys|
    ensures scores.keys[p] == RankFeed(scores)[i].item && scores.keys[q] == RankFeed(scores)[j].item
  {
    var s, r := EntriesOf(scores), RankFeed(scores);
    SortedIsStableSort(s);
    var v := r[i].score;
    assert Scoring(r, v) == Scoring(s, v);
    var a, b := ScoringKeepsOrder(r, v, i, j);
    p, q := ScoringComesFrom(s, v, a, b);
  }

  ghost predicate Monotone(round: real -> real) {
    forall x, y :: x <= y ==> round(x) <= round(y)
  }

  /** An item is never ranked behind one that engaged its viewers less, except at the same score. */
  lemma {:induction false} EngagedRanksFirst(events: seq<Event>, signals: Dict<Counts>, round: real -> real,
                    scores: Dict<real>, i: nat, j: nat)
    requires IsAggregate(events, signals) && IsScored(signals, round, scores) && Monotone(round)
    requires IsDict(scores) && i < j < |RankFeed(scores)|
    requires var r := RankFeed(scores); Engages(CountsOf(events, r[j].item), CountsOf(events, r[i].item))
    ensures RankFeed(scores)[i].score == RankFeed(scores)[j].score
  {
    var r := RankFeed(scores);
    SortedIsStableSort(EntriesOf(scores));
    assert r[i].score >= r[j].score;
    RankedMembers(scores, i);
    RankedMembers(scores, j);
    hide RankFeed, EntriesOf, CountsOf, RawScore, Engages, IsStableSort, Sorted, Descending;
    EngagedScoresHigher(CountsOf(events, r[j].item), CountsOf(events, r[i].item));
  }

  /** In the published feed the trending items come first: they are exactly a prefix. */
  lemma {:induction false} TrendingIsPrefix(scores: Dict<real>, i: nat, j: nat)
    requires IsDict(scores) && i <= j < |PublishFeed(RankFeed(scores), TrendingTopics(scores))|
    ensures var feed := PublishFeed(RankFeed(scores), TrendingTopics(scores));
            && feed[j].trending == (feed[j].score >= TRENDING_THRESHOLD)
            && (feed[j].trending ==> feed[i].trending)
  {
    SortedIsStableSort(EntriesOf(scores));
    var r := RankFeed(scores);
    RankedMembers(scores, i);
    RankedMembers(scores, j);
    TrendingMembers(scores.keys, scores.values, r[i].item);
    TrendingMembers(scores.keys, scores.values, r[j].item);
  }

  /** The merge drops no item and adds none: the published feed is the scores, each exactly once. */
  lemma {:induction false} PublishedIsScores(scores: Dict<real>)
    requires IsDict(scores)
    ensures var feed := PublishFeed(RankFeed(scores), TrendingTopics(scores));
            && |feed| == |scores.keys|
            && forall n <- scores.keys :: exists i :: 0 <= i < |feed| && feed[i].item == n
                                                      && feed[i].score == scores.values[n]
  {
    var s, r := EntriesOf(scores), RankFeed(scores);
    var feed := PublishFeed(r, TrendingTopics(scores));
    SortedIsStableSort(s);
    assert |multiset(r)| == |multiset(s)|;
    forall n | n in scores.keys
        ensures exists i :: 0 <= i < |feed| && feed[i].item == n && feed[i].score == scores.values[n] {
      var k :| 0 <= k < |scores.keys| && scores.keys[k] == n;
      assert s[k] in multiset(s);
      assert s[k] in multiset(r);
      var i :| 0 <= i < |r| && r[i] == s[k];
      assert feed[i].item == n;
    }
  }
}
