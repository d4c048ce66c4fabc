/**
  The two burst statistics printed next to the deduplicated count, and the inequalities that
  bind the three independently computed numbers on every event list.
*/
module DrivingEventCounters {
  import opened Sorting
  import opened DrivingEventDedupe

  // ---------------------------------------------------------------- adjacent bursts

  ghost predicate BurstPair(prev: DrivingEvent, cur: DrivingEvent) {
    prev.eventType == cur.eventType && -2000 <= cur.recordedAt - prev.recordedAt <= 2000
  }

  ghost predicate BurstAt(s: seq<DrivingEvent>, i: int) {
    1 <= i < |s| && BurstPair(s[i - 1], s[i])
  }

  /** The positions from `from` on whose event repeats its predecessor's raw type within 2 s. */
  ghost function BurstsFrom(s: seq<DrivingEvent>, from: nat): set<int>
  {
    set i | from <= i < |s| && BurstAt(s, i)
  }

  method BurstDuplicateCount(events: seq<DrivingEvent>) returns (bursts: nat)
    ensures bursts == |BurstsFrom(SortByTime(events), 1)|
  {
    var sorted := SortByTime(events);
    assert |sorted| == |events| by { SortByTimeSorts(events); }
    if |events| < 2 {
      assert BurstsFrom(sorted, 1) == {};
      return 0;
    }
    bursts := 0;
    for i := 1 to |sorted|
      invariant bursts + |BurstsFrom(sorted, i)| == |BurstsFrom(sorted, 1)|
    {
      var prev, cur := sorted[i - 1], sorted[i];
      BurstsFromStep(sorted, i);
      if prev.eventType == cur.eventType && WithinBucket(cur.recordedAt, prev.recordedAt) {
        bursts := bursts + 1;
      }
    }
    assert BurstsFrom(sorted, |sorted|) == {};
  }

  lemma BurstsFromStep(s: seq<DrivingEvent>, i: nat)
    requires 1 <= i < |s|
    ensures |BurstsFrom(s, i)| == (if BurstPair(s[i - 1], s[i]) then 1 else 0) + |BurstsFrom(s, i + 1)|
  {
    assert BurstsFrom(s, i) == (if BurstAt(s, i) then {i as int} else {}) + BurstsFrom(s, i + 1);
  }

  /** Each dropped event belongs to at most two burst pairs, and each burst pair has one. */
  lemma {:induction false} BurstsAtMostTwicePerDrop(s: seq<DrivingEvent>, i: nat, last: map<DedupeType, int>)
    requires i < |s|
    ensures |BurstsFrom(s, i + 1)| <=
      2 * (|s| - i - |KeepFirst(s[i..], last)|) - (if Drops(last, s[i]) then 1 else 0)
    decreases |s| - i
  {
    var e := s[i];
    var later := if Drops(last, e) then last else last[TypeOf(e) := e.recordedAt];
    assert s[i..][1..] == s[i + 1..];
    if i + 1 < |s| {
      BurstsFromStep(s, i + 1);
      BurstsAtMostTwicePerDrop(s, i + 1, later);
    } else {
      assert BurstsFrom(s, i + 1) == {};
    }
  }

  /** With a single raw type a dropped event always bursts with its direct predecessor. */
  lemma {:induction false} DropsAtMostBursts(s: seq<DrivingEvent>, i: nat, last: map<DedupeType, int>)
    requires 1 <= i <= |s|
    requires InTimeOrder(s)
    requires forall j :: 0 <= j < |s| ==> s[j].eventType == s[0].eventType
    requires TypeOf(s[0]) in last && last[TypeOf(s[0])] <= s[i - 1].recordedAt
    ensures |s| - i - |KeepFirst(s[i..], last)| <= |BurstsFrom(s, i)|
    decreases |s| - i
  {
    if i < |s| {
      var e := s[i];
      assert NotLater(s[i - 1], e);
      assert s[i..][1..] == s[i + 1..];
      BurstsFromStep(s, i);
      DropsAtMostBursts(s, i + 1, if Drops(last, e) then last else last[TypeOf(e) := e.recordedAt]);
    }
  }

  // ---------------------------------------------------------------- same-second groups

  type SecondKey = (int, DrivingEventType)

  datatype SecondGroup = SecondGroup(second: int, eventType: DrivingEventType, count: nat)

  function KeyOf(e: DrivingEvent): SecondKey {
    (e.recordedAt / 1000, e.eventType)
  }

  /** How many events of raw type `t` lie in the given second. */
  ghost function CountInSecond(s: seq<DrivingEvent>, second: int, t: DrivingEventType): nat {
    if s == [] then 0
    else
      var e := s[|s| - 1];
      CountInSecond(s[..|s| - 1], second, t) +
      (if e.eventType == t && second * 1000 <= e.recordedAt < second * 1000 + 1000 then 1 else 0)
  }

  lemma {:induction false} KeyCountsAre(s: seq<DrivingEvent>, second: int, t: DrivingEventType)
    ensures KeyCounts(s)[(second, t)] == CountInSecond(s, second, t)
  {
    if s != [] {
      KeyCountsAre(s[..|s| - 1], second, t);
    }
  }

  lemma ListsWhatCounts(events: seq<DrivingEvent>, groups: seq<SecondGroup>)
    requires ListsDuplicates(groups, KeyCounts(events))
    ensures forall i :: 0 <= i < |groups| ==>
      groups[i].count == CountInSecond(events, groups[i].second, groups[i].eventType) > 1
    ensures forall second, t :: CountInSecond(events, second, t) > 1 ==> Listed(groups, (second, t))
  {
    forall i | 0 <= i < |groups|
      ensures groups[i].count == CountInSecond(events, groups[i].second, groups[i].eventType) > 1
    {
      KeyCountsAre(events, groups[i].second, groups[i].eventType);
    }
    forall second, t | CountInSecond(events, second, t) > 1 ensures Listed(groups, (second, t)) {
      KeyCountsAre(events, second, t);
    }
  }

  /** How many events share each (second, raw type). */
  ghost function KeyCounts(s: seq<DrivingEvent>): multiset<SecondKey> {
    if s == [] then multiset{} else KeyCounts(s[..|s| - 1]) + multiset{KeyOf(s[|s| - 1])}
  }

  function GroupKey(g: SecondGroup): SecondKey {
    (g.second, g.eventType)
  }

  predicate LargerFirst(a: SecondGroup, b: SecondGroup) {
    b.count <= a.count
  }

  ghost predicate Listed(groups: seq<SecondGroup>, key: SecondKey) {
    exists i :: 0 <= i < |groups| && GroupKey(groups[i]) == key
  }

  ghost predicate DistinctGroups(groups: seq<SecondGroup>) {
    forall i, j :: 0 <= i < j < |groups| ==> GroupKey(groups[i]) != GroupKey(groups[j])
  }

  /** `groups` lists each key that occurs more than once exactly once, with its count. */
  ghost predicate ListsDuplicates(groups: seq<SecondGroup>, counts: multiset<SecondKey>) {
    && (forall i :: 0 <= i < |groups| ==> groups[i].count == counts[GroupKey(groups[i])] > 1)
    && DistinctGroups(groups)
    && (forall key :: counts[key] > 1 ==> Listed(groups, key))
  }

  /** The bucket map in insertion order. */
  ghost predicate Tally(order: seq<SecondKey>, buckets: map<SecondKey, nat>, counts: multiset<SecondKey>) {
    && (forall key :: key in order <==> key in buckets)
    && (forall i, j :: 0 <= i < j < |order| ==> order[i] != order[j])
    && (forall key :: counts[key] == if key in buckets then buckets[key] else 0)
  }

  /** The entries of the bucket map in insertion order, singletons left out. */
  function GroupsOf(order: seq<SecondKey>, buckets: map<SecondKey, nat>): seq<SecondGroup>
    requires forall key :: key in order ==> key in buckets
  {
    if order == [] then []
    else
      var key := order[0];
      if buckets[key] > 1 then [SecondGroup(key.0, key.1, buckets[key])] + GroupsOf(order[1..], buckets)
      else GroupsOf(order[1..], buckets)
  }

  method SameSecondDuplicateGroups(events: seq<DrivingEvent>) returns (groups: seq<SecondGroup>)
    ensures ListsDuplicates(groups, KeyCounts(events))
    ensures forall i :: 0 <= i < |groups| ==>
      groups[i].count == CountInSecond(events, groups[i].second, groups[i].eventType) > 1
    ensures forall second, t :: CountInSecond(events, second, t) > 1 ==> Listed(groups, (second, t))
    ensures forall i, j :: 0 <= i < j < |groups| ==> groups[j].count <= groups[i].count
  {
    var buckets: map<SecondKey, nat> := map[];
    var order: seq<SecondKey> := [];
    for n := 0 to |events|
      invariant Tally(order, buckets, KeyCounts(events[..n]))
    {
      var key := KeyOf(events[n]);
      assert events[..n + 1][..n] == events[..n];
      TallyStep(order, buckets, KeyCounts(events[..n]), key);
      if key !in buckets { order := order + [key]; }
      buckets := buckets[key := (if key in buckets then buckets[key] else 0) + 1];
    }
    assert events[..|events|] == events;
    GroupsOfListsDuplicates(order, buckets, KeyCounts(events));
    groups := StableSort(GroupsOf(order, buckets), LargerFirst);
    StableSortSorts(GroupsOf(order, buckets), LargerFirst);
    PermutationListsDuplicates(GroupsOf(order, buckets), groups, KeyCounts(events));
    ListsWhatCounts(events, groups);
  }

  lemma TallyStep(order: seq<SecondKey>, buckets: map<SecondKey, nat>, counts: multiset<SecondKey>, key: SecondKey)
    requires Tally(order, buckets, counts)
    ensures Tally(if key in buckets then order else order + [key],
                  buckets[key := (if key in buckets then buckets[key] else 0) + 1],
                  counts + multiset{key})
  {
  }

  lemma {:induction false} GroupsOfEntries(order: seq<SecondKey>, buckets: map<SecondKey, nat>)
    requires forall key :: key in order ==> key in buckets
    requires forall i, j :: 0 <= i < j < |order| ==> order[i] != order[j]
    ensures var groups := GroupsOf(order, buckets);
      && DistinctGroups(groups)
      && (forall i :: 0 <= i < |groups| ==>
            GroupKey(groups[i]) in order && groups[i].count == buckets[GroupKey(groups[i])] > 1)
  {
    if order != [] {
      GroupsOfEntries(order[1..], buckets);
    }
  }

  lemma {:induction false} GroupsOfListsAll(order: seq<SecondKey>, buckets: map<SecondKey, nat>, key: SecondKey)
    requires forall k :: k in order ==> k in buckets
    requires key in order && buckets[key] > 1
    ensures Listed(GroupsOf(order, buckets), key)
  {
    var rest := GroupsOf(order[1..], buckets);
    var groups := GroupsOf(order, buckets);
    if key == order[0] {
      assert GroupKey(groups[0]) == key;
    } else {
      GroupsOfListsAll(order[1..], buckets, key);
      var i :| 0 <= i < |rest| && GroupKey(rest[i]) == key;
      assert groups[i + |groups| - |rest|] == rest[i];
    }
  }

  lemma GroupsOfListsDuplicates(order: seq<SecondKey>, buckets: map<SecondKey, nat>, counts: multiset<SecondKey>)
    requires Tally(order, buckets, counts)
    ensures ListsDuplicates(GroupsOf(order, buckets), counts)
  {
    GroupsOfEntries(order, buckets);
    forall key | counts[key] > 1 ensures Listed(GroupsOf(order, buckets), key) {
      GroupsOfListsAll(order, buckets, key);
    }
  }

  lemma {:induction false} DistinctGroupsSurvivePermutation(g: seq<SecondGroup>, h: seq<SecondGroup>)
    requires multiset(g) == multiset(h) && DistinctGroups(g)
    ensures DistinctGroups(h)
  {
    if g == [] {
      assert |multiset(h)| == 0;
    } else {
      var a, b := SplitAtHead(g, h);
      DistinctGroupsSurvivePermutation(g[1..], a + b);
      forall i | 0 <= i < |a + b| ensures GroupKey((a + b)[i]) != GroupKey(g[0]) {
        assert (a + b)[i] in multiset(g[1..]);
      }
      assert forall i :: 0 <= i < |a| ==> h[i] == (a + b)[i];
      assert forall i :: |a| < i < |h| ==> h[i] == (a + b)[i - 1];
    }
  }

  lemma PermutationListsDuplicates(g: seq<SecondGroup>, h: seq<SecondGroup>, counts: multiset<SecondKey>)
    requires multiset(g) == multiset(h) && ListsDuplicates(g, counts)
    ensures ListsDuplicates(h, counts)
  {
    DistinctGroupsSurvivePermutation(g, h);
    forall i | 0 <= i < |h| ensures h[i] in g {
      assert h[i] in multiset(g);
    }
    forall key | counts[key] > 1 ensures Listed(h, key) {
      assert Listed(g, key);
      var j :| 0 <= j < |g| && GroupKey(g[j]) == key;
      assert g[j] in multiset(h);
    }
  }

  /** The number of events beyond the first in all listed groups. */
  ghost function Surplus(groups: seq<SecondGroup>): int {
    if groups == [] then 0 else groups[0].count - 1 + Surplus(groups[1..])
  }

  ghost function Support(counts: multiset<SecondKey>): set<SecondKey> {
    set key | key in counts
  }

  lemma {:induction false} SurplusOfCounts(groups: seq<SecondGroup>, counts: multiset<SecondKey>)
    requires ListsDuplicates(groups, counts)
    ensures Surplus(groups) == |counts| - |Support(counts)|
  {
    if groups == [] {
      AllSingle(counts);
    } else {
      var key := GroupKey(groups[0]);
      var rest := counts[key := 0];
      assert Support(rest) == Support(counts) - {key};
      forall other | rest[other] > 1 ensures Listed(groups[1..], other) {
        assert counts[other] > 1 && Listed(groups, other);
        var i :| 0 <= i < |groups| && GroupKey(groups[i]) == other;
        assert groups[1..][i - 1] == groups[i];
      }
      SurplusOfCounts(groups[1..], rest);
    }
  }

  lemma {:induction false} AllSingle(counts: multiset<SecondKey>)
    requires forall key :: counts[key] <= 1
    ensures |counts| == |Support(counts)|
    decreases |counts|
  {
    if key :| key in counts {
      var rest := counts[key := 0];
      assert Support(rest) == Support(counts) - {key};
      AllSingle(rest);
    } else {
      assert Support(counts) == {};
      assert counts == multiset{};
    }
  }

  lemma {:induction false} KeyCountsSize(s: seq<DrivingEvent>)
    ensures |KeyCounts(s)| == |s|
    ensures forall e :: e in s ==> KeyOf(e) in KeyCounts(s)
  {
    if s != [] {
      KeyCountsSize(s[..|s| - 1]);
      forall e | e in s ensures KeyOf(e) in KeyCounts(s) {
        assert e == s[|s| - 1] || e in s[..|s| - 1];
      }
    }
  }

  // ---------------------------------------------------------------- how the counters relate

  ghost predicate KeptApart(s: seq<DrivingEvent>) {
    forall i, j :: 0 <= i < j < |s| && TypeOf(s[i]) == TypeOf(s[j]) ==> !WithinBucket(s[i].recordedAt, s[j].recordedAt)
  }

  lemma {:induction false} KeepFirstKeepsApart(s: seq<DrivingEvent>, last: map<DedupeType, int>)
    requires InTimeOrder(s)
    requires forall k, i :: k in last && 0 <= i < |s| ==> last[k] <= s[i].recordedAt
    ensures KeptApart(KeepFirst(s, last))
  {
    if s != [] {
      var e := s[0];
      if Drops(last, e) {
        KeepFirstKeepsApart(s[1..], last);
      } else {
        var later := last[TypeOf(e) := e.recordedAt];
        assert forall i :: 1 <= i < |s| ==> NotLater(e, s[i]);
        KeepFirstKeepsApart(s[1..], later);
        var rest := KeepFirst(s[1..], later);
        forall i | 0 <= i < |rest| && TypeOf(rest[i]) == TypeOf(e)
          ensures !WithinBucket(e.recordedAt, rest[i].recordedAt)
        {
          KeptEventsWereNotDropped(s[1..], later, i);
        }
      }
    }
  }

  lemma {:induction false} DistinctKeysFit(s: seq<DrivingEvent>, keys: set<SecondKey>)
    requires forall i, j :: 0 <= i < j < |s| ==> KeyOf(s[i]) != KeyOf(s[j])
    requires forall i :: 0 <= i < |s| ==> KeyOf(s[i]) in keys
    ensures |s| <= |keys|
  {
    if s != [] {
      DistinctKeysFit(s[1..], keys - {KeyOf(s[0])});
    }
  }

  lemma KeptEventsHaveDistinctSeconds(events: seq<DrivingEvent>)
    ensures |Dedupe(events)| <= |Support(KeyCounts(events))|
  {
    SortByTimeSorts(events);
    KeyCountsSize(events);
    KeepFirstKeepsApart(SortByTime(events), map[]);
    var kept := Dedupe(events);
    forall i | 0 <= i < |kept| ensures KeyOf(kept[i]) in Support(KeyCounts(events)) {
      KeptEventsWereNotDropped(SortByTime(events), map[], i);
      assert kept[i] in multiset(events);
    }
    DistinctKeysFit(kept, Support(KeyCounts(events)));
  }

  /**
    With `raw` events of which `visible` are kept: the surplus of the same-second groups never
    exceeds raw - visible, and the burst count never exceeds twice that difference.
   */
  lemma DuplicateCountersBound(events: seq<DrivingEvent>, groups: seq<SecondGroup>)
    requires ListsDuplicates(groups, KeyCounts(events))
    ensures Surplus(groups) <= |events| - |Dedupe(events)|
    ensures |BurstsFrom(SortByTime(events), 1)| <= 2 * (|events| - |Dedupe(events)|)
  {
    SurplusOfCounts(groups, KeyCounts(events));
    KeyCountsSize(events);
    KeptEventsHaveDistinctSeconds(events);
    SortByTimeSorts(events);
    var sorted := SortByTime(events);
    if sorted == [] {
      assert BurstsFrom(sorted, 1) == {};
    } else {
      assert sorted[0..] == sorted;
      BurstsAtMostTwicePerDrop(sorted, 0, map[]);
    }
  }

  /** When all events share one raw type, every hidden event is also counted as a burst. */
  lemma SingleTypeHiddenAtMostBursts(events: seq<DrivingEvent>)
    requires forall i, j :: 0 <= i < j < |events| ==> events[i].eventType == events[j].eventType
    ensures |events| - |Dedupe(events)| <= |BurstsFrom(SortByTime(events), 1)|
  {
    SortByTimeSorts(events);
    var sorted := SortByTime(events);
    if sorted != [] {
      forall i | 0 <= i < |sorted| ensures sorted[i] in events {
        assert sorted[i] in multiset(events);
      }
      DropsAtMostBursts(sorted, 1, map[TypeOf(sorted[0]) := sorted[0].recordedAt]);
    }
  }

  /** Two alternating raw types, under one label or two, hide an event without any burst. */
  lemma MixedTypesHideWithoutBursts(a: DrivingEventType, b: DrivingEventType)
    requires a != b
    ensures var events := Alternating(a, b);
      |Dedupe(events)| < |events| && BurstsFrom(SortByTime(events), 1) == {}
  {
    var events := Alternating(a, b);
    StableSortOfSorted(events, NotLater);
    var one: map<DedupeType, int> := map[TypeOf(events[0]) := 0];
    var rest := events[1..];
    assert KeepFirst(rest[1..][1..], one) == [];
    assert rest[1..][0].recordedAt == 2;
    if TypeOf(rest[0]) == TypeOf(events[0]) {
      assert KeepFirst(rest[1..], one) == [];
    } else {
      var both := one[TypeOf(rest[0]) := 1];
      assert KeepFirst(rest[1..], both) == KeepFirst(rest[1..][1..], both) == [];
    }
    assert |KeepFirst(rest, one)| <= 1;
    assert KeepFirst(events, map[]) == [events[0]] + KeepFirst(rest, one);
  }

  function Alternating(a: DrivingEventType, b: DrivingEventType): seq<DrivingEvent> {
    [DrivingEvent("first", a, 0), DrivingEvent("second", b, 1), DrivingEvent("third", a, 2)]
  }

  predicate OverTypes(events: seq<DrivingEvent>, types: set<DrivingEventType>) {
    forall i :: 0 <= i < |events| ==> events[i].eventType in types
  }

  /**
    Raw - visible is at most the burst count on every event list over a set of raw types exactly
    when the set holds at most one type.
   */
  lemma HiddenAtMostBurstsIff(types: set<DrivingEventType>)
    ensures (forall events :: OverTypes(events, types) ==>
              |events| - |Dedupe(events)| <= |BurstsFrom(SortByTime(events), 1)|)
      <==> |types| <= 1
  {
    if |types| <= 1 {
      forall events | OverTypes(events, types)
        ensures |events| - |Dedupe(events)| <= |BurstsFrom(SortByTime(events), 1)|
      {
        forall a, b | a in types && b in types ensures a == b {
          assert |types - {a}| == 0;
          assert b !in types - {a};
        }
        SingleTypeHiddenAtMostBursts(events);
      }
    } else {
      var a :| a in types;
      assert |types - {a}| > 0;
      var b :| b in types - {a};
      MixedTypesHideWithoutBursts(a, b);
      assert OverTypes(Alternating(a, b), types);
    }
  }
}
