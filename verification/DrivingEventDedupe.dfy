/**
  Native driving-event deduplication: the backward-scanning merge, the one-pass rule it
  implements, and why the number of events it keeps is the best possible.
*/
module DrivingEventDedupe {
  import opened Options
  import opened Filtering
  import opened Sorting

  const TIMESTAMP_BUCKET_MS := 2000

  datatype DrivingEventType =
    | HarshBraking
    | ExtremeBraking
    | HarshAcceleration
    | HarshCornering
    | Speeding
    | IdleExcessive
    | UnmappedProviderEvent
    | SafetyCollision

  /** The labels events are merged under; `Native` stands for the label `native:<raw type>`. */
  datatype DedupeType = Braking | Acceleration | Cornering | Native(raw: DrivingEventType)

  datatype DrivingEvent = DrivingEvent(id: string, eventType: DrivingEventType, recordedAt: int)

  function NormalizeDedupeEventType(eventType: DrivingEventType): DedupeType {
    match eventType
    case HarshBraking | ExtremeBraking => Braking
    case HarshAcceleration => Acceleration
    case HarshCornering => Cornering
    case other => Native(other)
  }

  function TypeOf(event: DrivingEvent): DedupeType {
    NormalizeDedupeEventType(event.eventType)
  }

  predicate WithinBucket(a: int, b: int) {
    (if a < b then b - a else a - b) <= TIMESTAMP_BUCKET_MS
  }

  predicate NotLater(a: DrivingEvent, b: DrivingEvent) {
    a.recordedAt <= b.recordedAt
  }

  function SortByTime(events: seq<DrivingEvent>): seq<DrivingEvent> {
    StableSort(events, NotLater)
  }

  ghost predicate InTimeOrder(s: seq<DrivingEvent>) {
    SortedBy(s, NotLater)
  }

  lemma SortByTimeSorts(events: seq<DrivingEvent>)
    ensures multiset(SortByTime(events)) == multiset(events)
    ensures |SortByTime(events)| == |events|
    ensures InTimeOrder(SortByTime(events))
  {
    StableSortSorts(events, NotLater);
  }

  // ---------------------------------------------------------------- which raw types are one

  /** Hard and extreme braking are merged with each other; every other raw type stands alone. */
  ghost predicate SameClass(a: DrivingEventType, b: DrivingEventType) {
    a == b || (a in {HarshBraking, ExtremeBraking} && b in {HarshBraking, ExtremeBraking})
  }

  lemma LabelsAreClasses(a: DrivingEventType, b: DrivingEventType)
    ensures NormalizeDedupeEventType(a) == NormalizeDedupeEventType(b) <==> SameClass(a, b)
  {
  }

  /** The times of the events in the class of raw type `t`, in sequence order. */
  ghost function ClassTimes(s: seq<DrivingEvent>, t: DrivingEventType): seq<int> {
    if s == [] then []
    else if SameClass(s[0].eventType, t) then [s[0].recordedAt] + ClassTimes(s[1..], t)
    else ClassTimes(s[1..], t)
  }

  lemma {:induction false} ClassTimesAreTypeTimes(s: seq<DrivingEvent>, t: DrivingEventType)
    ensures ClassTimes(s, t) == TypeTimes(s, NormalizeDedupeEventType(t))
  {
    if s != [] {
      LabelsAreClasses(s[0].eventType, t);
      ClassTimesAreTypeTimes(s[1..], t);
    }
  }

  /** The events of the class and the time of `e`. */
  ghost function LikeEvent(e: DrivingEvent): DrivingEvent -> bool {
    (x: DrivingEvent) => SameClass(x.eventType, e.eventType) && x.recordedAt == e.recordedAt
  }

  // ---------------------------------------------------------------- the one-pass rule

  /** Keeps an event exactly when no kept event of its type lies within the bucket before it. */
  function KeepFirst(s: seq<DrivingEvent>, last: map<DedupeType, int>): seq<DrivingEvent> {
    if s == [] then []
    else
      var k := TypeOf(s[0]);
      if k in last && WithinBucket(last[k], s[0].recordedAt) then KeepFirst(s[1..], last)
      else [s[0]] + KeepFirst(s[1..], last[k := s[0].recordedAt])
  }

  function Dedupe(events: seq<DrivingEvent>): seq<DrivingEvent> {
    KeepFirst(SortByTime(events), map[])
  }

  /** The time of the most recently kept event of each type. */
  ghost function LastKept(merged: seq<DrivingEvent>): map<DedupeType, int> {
    if merged == [] then map[]
    else
      var event := merged[|merged| - 1];
      LastKept(merged[..|merged| - 1])[TypeOf(event) := event.recordedAt]
  }

  lemma KeepFirstStep(sorted: seq<DrivingEvent>, n: nat, merged: seq<DrivingEvent>)
    requires n < |sorted|
    ensures var event, last := sorted[n], LastKept(merged);
      var merges := TypeOf(event) in last && WithinBucket(last[TypeOf(event)], event.recordedAt);
      var merged' := if merges then merged else merged + [event];
      merged + KeepFirst(sorted[n..], last) == merged' + KeepFirst(sorted[n + 1..], LastKept(merged'))
  {
  }

  /** The nested scan with its early exit computes the one-pass rule. */
  method DedupeNativeEvents(events: seq<DrivingEvent>) returns (merged: seq<DrivingEvent>)
    ensures merged == Dedupe(events)
  {
    var sorted := SortByTime(events);
    merged := [];
    for n := 0 to |sorted|
      invariant merged + KeepFirst(sorted[n..], LastKept(merged)) == Dedupe(events)
    {
      var event := sorted[n];
      var normType := TypeOf(event);
      var t := event.recordedAt;
      var mergedInto := false;
      ghost var last := LastKept(merged);
      assert merged[..|merged|] == merged;
      for i := |merged| downto 0
        invariant !mergedInto
        invariant normType in last <==> normType in LastKept(merged[..i])
        invariant normType in last ==> last[normType] == LastKept(merged[..i])[normType]
      {
        var existing := merged[i];
        assert merged[..i + 1][..i] == merged[..i];
        if TypeOf(existing) != normType { continue; }
        if !WithinBucket(existing.recordedAt, t) { break; }
        mergedInto := true;
        break;
      }
      assert mergedInto <==> normType in last && WithinBucket(last[normType], t);
      KeepFirstStep(sorted, n, merged);
      if !mergedInto { merged := merged + [event]; }
    }
  }

  // ---------------------------------------------------------------- one type at a time

  /** The times of the events of type `k`, in sequence order. */
  ghost function TypeTimes(s: seq<DrivingEvent>, k: DedupeType): seq<int> {
    if s == [] then []
    else if TypeOf(s[0]) == k then [s[0].recordedAt] + TypeTimes(s[1..], k)
    else TypeTimes(s[1..], k)
  }

  ghost function GreedyTimes(ts: seq<int>, last: Option<int>): seq<int> {
    if ts == [] then []
    else if last.Some? && WithinBucket(last.value, ts[0]) then GreedyTimes(ts[1..], last)
    else [ts[0]] + GreedyTimes(ts[1..], Some(ts[0]))
  }

  ghost function Lookup(last: map<DedupeType, int>, k: DedupeType): Option<int> {
    if k in last then Some(last[k]) else None
  }

  lemma GreedyOfCons(t: int, rest: seq<int>, last: Option<int>)
    ensures GreedyTimes([t] + rest, last) ==
      if last.Some? && WithinBucket(last.value, t) then GreedyTimes(rest, last)
      else [t] + GreedyTimes(rest, Some(t))
  {
  }

  lemma TypeTimesOfCons(e: DrivingEvent, s: seq<DrivingEvent>, k: DedupeType)
    ensures TypeTimes([e] + s, k) == if TypeOf(e) == k then [e.recordedAt] + TypeTimes(s, k) else TypeTimes(s, k)
  {
  }

  /** Seen one type at a time, the rule forgets all other types. */
  lemma {:induction false} KeepFirstIsGreedyPerType(s: seq<DrivingEvent>, last: map<DedupeType, int>, k: DedupeType)
    ensures TypeTimes(KeepFirst(s, last), k) == GreedyTimes(TypeTimes(s, k), Lookup(last, k))
  {
    if s != [] {
      var k0, t0 := TypeOf(s[0]), s[0].recordedAt;
      GreedyOfCons(t0, TypeTimes(s[1..], k), Lookup(last, k));
      if k0 in last && WithinBucket(last[k0], t0) {
        KeepFirstIsGreedyPerType(s[1..], last, k);
      } else {
        var later := last[k0 := t0];
        KeepFirstIsGreedyPerType(s[1..], later, k);
        TypeTimesOfCons(s[0], KeepFirst(s[1..], later), k);
      }
    }
  }

  ghost predicate Ascending(ts: seq<int>) {
    forall i, j :: 0 <= i < j < |ts| ==> ts[i] <= ts[j]
  }

  /** Pairwise more than 2000 ms apart. */
  ghost predicate Separated(ts: seq<int>) {
    forall i, j :: 0 <= i < j < |ts| ==> ts[i] + 2000 < ts[j] || ts[j] + 2000 < ts[i]
  }

  ghost predicate InWindow(t: int, start: int) {
    start <= t <= start + 2000
  }

  ghost predicate Covered(starts: seq<int>, t: int) {
    exists i :: 0 <= i < |starts| && InWindow(t, starts[i])
  }

  /** Every time lies in one of the windows [start, start + 2000]. */
  ghost predicate Covers(starts: seq<int>, ts: seq<int>) {
    forall i :: 0 <= i < |ts| ==> Covered(starts, ts[i])
  }

  ghost predicate DrawnFrom(chosen: seq<int>, ts: seq<int>) {
    forall i :: 0 <= i < |chosen| ==> chosen[i] in ts
  }

  lemma {:induction false} TypeTimesAscending(s: seq<DrivingEvent>, k: DedupeType)
    requires InTimeOrder(s)
    ensures Ascending(TypeTimes(s, k))
    ensures forall i :: 0 <= i < |TypeTimes(s, k)| ==> s != [] && s[0].recordedAt <= TypeTimes(s, k)[i]
  {
    if s != [] {
      TypeTimesAscending(s[1..], k);
      if |s| > 1 {
        assert NotLater(s[0], s[1]);
      }
      var rest := TypeTimes(s[1..], k);
      assert forall i :: 0 <= i < |rest| ==> s[0].recordedAt <= s[1..][0].recordedAt <= rest[i];
    }
  }

  lemma {:induction false} GreedySeparates(ts: seq<int>, last: Option<int>)
    requires Ascending(ts)
    requires last.Some? && ts != [] ==> last.value <= ts[0]
    ensures var kept := GreedyTimes(ts, last);
      && Separated(kept)
      && (forall t :: t in kept ==> t in ts)
      && (last.Some? ==> forall i :: 0 <= i < |kept| ==> last.value + 2000 < kept[i])
  {
    if ts != [] {
      var rest := ts[1..];
      if last.Some? && WithinBucket(last.value, ts[0]) {
        GreedySeparates(rest, last);
      } else {
        GreedySeparates(rest, Some(ts[0]));
        assert GreedyTimes(ts, last) == [ts[0]] + GreedyTimes(rest, Some(ts[0]));
      }
    }
  }

  lemma {:induction false} GreedyCovers(ts: seq<int>, last: Option<int>)
    requires Ascending(ts)
    requires last.Some? && ts != [] ==> last.value <= ts[0]
    ensures forall i :: 0 <= i < |ts| ==>
      (last.Some? && InWindow(ts[i], last.value)) || Covered(GreedyTimes(ts, last), ts[i])
  {
    if ts != [] {
      var rest := ts[1..];
      if last.Some? && WithinBucket(last.value, ts[0]) {
        GreedyCovers(rest, last);
        assert forall i :: 1 <= i < |ts| ==> ts[i] == rest[i - 1];
      } else {
        GreedyCovers(rest, Some(ts[0]));
        var later := GreedyTimes(rest, Some(ts[0]));
        var kept := GreedyTimes(ts, last);
        assert kept == [ts[0]] + later;
        forall i | 0 <= i < |ts| ensures Covered(kept, ts[i]) {
          assert InWindow(ts[0], kept[0]);
          if i > 0 && !InWindow(ts[i], kept[0]) {
            assert ts[i] == rest[i - 1] && Covered(later, rest[i - 1]);
            var j :| 0 <= j < |later| && InWindow(ts[i], later[j]);
            assert InWindow(ts[i], kept[j + 1]);
          }
        }
      }
    }
  }

  /** A window holds at most one of a set of separated times, so a cover is never smaller. */
  lemma {:induction false} SeparatedNeverOutnumberCover(chosen: seq<int>, starts: seq<int>)
    requires Separated(chosen) && Covers(starts, chosen)
    ensures |chosen| <= |starts|
  {
    if chosen != [] {
      assert Covered(starts, chosen[0]);
      var j :| 0 <= j < |starts| && InWindow(chosen[0], starts[j]);
      var rest, others := chosen[1..], starts[..j] + starts[j + 1..];
      forall i | 0 <= i < |rest| ensures Covered(others, rest[i]) {
        assert Covered(starts, chosen[i + 1]) && rest[i] == chosen[i + 1];
        var m :| 0 <= m < |starts| && InWindow(rest[i], starts[m]);
        assert InWindow(rest[i], others[if m < j then m else m - 1]);
      }
      SeparatedNeverOutnumberCover(rest, others);
    }
  }

  // ---------------------------------------------------------------- permutations

  lemma {:induction false} TypeTimesConcat(a: seq<DrivingEvent>, b: seq<DrivingEvent>, k: DedupeType)
    ensures TypeTimes(a + b, k) == TypeTimes(a, k) + TypeTimes(b, k)
  {
    if a == [] {
      assert a + b == b;
    } else {
      assert (a + b)[1..] == a[1..] + b;
      TypeTimesConcat(a[1..], b, k);
    }
  }

  lemma {:induction false} TypeTimesOfPermutation(s: seq<DrivingEvent>, t: seq<DrivingEvent>, k: DedupeType)
    requires multiset(s) == multiset(t)
    ensures multiset(TypeTimes(s, k)) == multiset(TypeTimes(t, k))
  {
    if s == [] {
      assert |multiset(t)| == 0;
    } else {
      var a, b := SplitAtHead(s, t);
      TypeTimesOfPermutation(s[1..], a + b, k);
      TypeTimesConcat(a, [s[0]] + b, k);
      TypeTimesOfCons(s[0], b, k);
      TypeTimesConcat(a, b, k);
    }
  }

  predicate NotGreater(a: int, b: int) {
    a <= b
  }

  lemma SortedTypeTimesAgree(s: seq<DrivingEvent>, t: seq<DrivingEvent>, k: DedupeType)
    requires multiset(s) == multiset(t) && InTimeOrder(s) && InTimeOrder(t)
    ensures TypeTimes(s, k) == TypeTimes(t, k)
  {
    TypeTimesOfPermutation(s, t, k);
    TypeTimesAscending(s, k);
    TypeTimesAscending(t, k);
    SortedPermutationsAgree(TypeTimes(s, k), TypeTimes(t, k), NotGreater);
  }

  // ---------------------------------------------------------------- which of several equal events is kept

  ghost predicate Drops(last: map<DedupeType, int>, e: DrivingEvent) {
    TypeOf(e) in last && WithinBucket(last[TypeOf(e)], e.recordedAt)
  }

  lemma {:induction false} KeptEventsWereNotDropped(s: seq<DrivingEvent>, last: map<DedupeType, int>, i: nat)
    requires InTimeOrder(s) && i < |KeepFirst(s, last)|
    requires forall k, j :: k in last && 0 <= j < |s| ==> last[k] <= s[j].recordedAt
    ensures KeepFirst(s, last)[i] in s && !Drops(last, KeepFirst(s, last)[i])
  {
    var e := s[0];
    if Drops(last, e) {
      KeptEventsWereNotDropped(s[1..], last, i);
    } else if i > 0 {
      var later := last[TypeOf(e) := e.recordedAt];
      assert forall j :: 1 <= j < |s| ==> NotLater(e, s[j]);
      KeptEventsWereNotDropped(s[1..], later, i - 1);
      var kept := KeepFirst(s[1..], later)[i - 1];
      assert NotLater(e, kept);
      assert TypeOf(kept) in last ==> last[TypeOf(kept)] <= e.recordedAt;
    }
  }

  lemma {:induction false} KeptLeadsItsEquals(s: seq<DrivingEvent>, last: map<DedupeType, int>, i: nat)
    requires InTimeOrder(s) && i < |KeepFirst(s, last)|
    requires forall k, j :: k in last && 0 <= j < |s| ==> last[k] <= s[j].recordedAt
    ensures var e := KeepFirst(s, last)[i]; Filter(s, LikeEvent(e)) != [] && Filter(s, LikeEvent(e))[0] == e
  {
    var x, e := s[0], KeepFirst(s, last)[i];
    LabelsAreClasses(x.eventType, e.eventType);
    if Drops(last, x) {
      KeptEventsWereNotDropped(s, last, i);
      KeptLeadsItsEquals(s[1..], last, i);
    } else if i > 0 {
      var later := last[TypeOf(x) := x.recordedAt];
      assert forall j :: 1 <= j < |s| ==> NotLater(x, s[j]);
      KeptEventsWereNotDropped(s[1..], later, i - 1);
      KeptLeadsItsEquals(s[1..], later, i - 1);
    }
  }

  // ---------------------------------------------------------------- main results

  lemma PermutationsShareElements(xs: seq<int>, ys: seq<int>)
    requires multiset(xs) == multiset(ys)
    ensures DrawnFrom(xs, ys)
  {
    forall i | 0 <= i < |xs| ensures xs[i] in ys {
      assert xs[i] in multiset(ys);
    }
  }

  lemma GreedyFromScratch(ts: seq<int>)
    requires Ascending(ts)
    ensures var kept := GreedyTimes(ts, None); DrawnFrom(kept, ts) && Separated(kept) && Covers(kept, ts)
  {
    GreedySeparates(ts, None);
    GreedyCovers(ts, None);
  }

  lemma KeptEventsSeparateAndCover(events: seq<DrivingEvent>, k: DedupeType)
    ensures var kept, all := TypeTimes(Dedupe(events), k), TypeTimes(events, k);
      DrawnFrom(kept, all) && Separated(kept) && Covers(kept, all)
  {
    var sorted := SortByTime(events);
    var ts, all := TypeTimes(sorted, k), TypeTimes(events, k);
    var kept := TypeTimes(Dedupe(events), k);
    SortByTimeSorts(events);
    TypeTimesOfPermutation(sorted, events, k);
    PermutationsShareElements(ts, all);
    PermutationsShareElements(all, ts);
    TypeTimesAscending(sorted, k);
    assert kept == GreedyTimes(ts, None) by { KeepFirstIsGreedyPerType(sorted, map[], k); }
    GreedyFromScratch(ts);
    CoversDrawn(kept, all, ts);
    forall i | 0 <= i < |kept| ensures kept[i] in all {
      var j :| 0 <= j < |ts| && ts[j] == kept[i];
    }
  }

  /**
    For each class of raw types, what is kept is drawn from the input and is optimal: no larger
    choice of that class's times is pairwise more than 2000 ms apart, and no smaller list of
    2000 ms windows covers them.
   */
  lemma KeptEventsAreOptimal(events: seq<DrivingEvent>, t: DrivingEventType)
    ensures var kept, all := ClassTimes(Dedupe(events), t), ClassTimes(events, t);
      && DrawnFrom(kept, all) && Separated(kept) && Covers(kept, all)
      && (forall chosen :: DrawnFrom(chosen, all) && Separated(chosen) ==> |chosen| <= |kept|)
      && (forall starts :: Covers(starts, all) ==> |kept| <= |starts|)
  {
    var kept, all := ClassTimes(Dedupe(events), t), ClassTimes(events, t);
    ClassTimesAreTypeTimes(Dedupe(events), t);
    ClassTimesAreTypeTimes(events, t);
    KeptEventsSeparateAndCover(events, NormalizeDedupeEventType(t));
    forall chosen | DrawnFrom(chosen, all) && Separated(chosen) ensures |chosen| <= |kept| {
      CoversDrawn(kept, chosen, all);
      SeparatedNeverOutnumberCover(chosen, kept);
    }
    forall starts | Covers(starts, all) ensures |kept| <= |starts| {
      CoversDrawn(starts, kept, all);
      SeparatedNeverOutnumberCover(kept, starts);
    }
  }

  /** Of several events of one class and time the one that arrived first is kept. */
  lemma FirstArrivalIsKept(events: seq<DrivingEvent>, e: DrivingEvent)
    requires e in Dedupe(events)
    ensures Filter(events, LikeEvent(e)) != [] && Filter(events, LikeEvent(e))[0] == e
  {
    var i :| 0 <= i < |Dedupe(events)| && Dedupe(events)[i] == e;
    SortByTimeSorts(events);
    KeptLeadsItsEquals(SortByTime(events), map[], i);
    SortOfFilter(events, NotLater, LikeEvent(e));
    FilterElements(events, LikeEvent(e));
    StableSortOfSorted(Filter(events, LikeEvent(e)), NotLater);
  }

  /** Two events are one exactly when they lie at most 2000 ms apart and are of one class. */
  lemma PairIsMergedIff(x: DrivingEvent, y: DrivingEvent)
    requires x.recordedAt <= y.recordedAt
    ensures Dedupe([x, y]) ==
      if y.recordedAt - x.recordedAt <= 2000
         && (x.eventType == y.eventType || {x.eventType, y.eventType} == {HarshBraking, ExtremeBraking})
      then [x] else [x, y]
  {
    StableSortOfSorted([x, y], NotLater);
    LabelsAreClasses(x.eventType, y.eventType);
    SetOfTwo(x.eventType, y.eventType);
    var none: map<DedupeType, int> := map[];
    var one := none[TypeOf(x) := x.recordedAt];
    assert [x, y][1..] == [y];
    assert KeepFirst([x, y], none) == [x] + KeepFirst([y], one);
    assert [y][1..] == [];
    assert KeepFirst([y], one) == if TypeOf(y) == TypeOf(x) && y.recordedAt - x.recordedAt <= 2000 then [] else [y];
  }

  lemma SetOfTwo(a: DrivingEventType, b: DrivingEventType)
    ensures a == b || {a, b} == {HarshBraking, ExtremeBraking} <==> SameClass(a, b)
  {
    assert a in {a, b} && b in {a, b};
    if {a, b} == {HarshBraking, ExtremeBraking} {
      assert a in {HarshBraking, ExtremeBraking} && b in {HarshBraking, ExtremeBraking};
    }
  }

  lemma CoversDrawn(starts: seq<int>, chosen: seq<int>, ts: seq<int>)
    requires Covers(starts, ts) && DrawnFrom(chosen, ts)
    ensures Covers(starts, chosen)
  {
  }

  lemma {:induction false} KeepFirstIsSubsequence(s: seq<DrivingEvent>, last: map<DedupeType, int>)
    requires InTimeOrder(s)
    ensures multiset(KeepFirst(s, last)) <= multiset(s)
    ensures InTimeOrder(KeepFirst(s, last))
  {
    if s != [] {
      var k := TypeOf(s[0]);
      assert s == [s[0]] + s[1..];
      if k in last && WithinBucket(last[k], s[0].recordedAt) {
        KeepFirstIsSubsequence(s[1..], last);
      } else {
        KeepFirstIsSubsequence(s[1..], last[k := s[0].recordedAt]);
        var rest := KeepFirst(s[1..], last[k := s[0].recordedAt]);
        forall i | 0 <= i < |rest| ensures NotLater(s[0], rest[i]) {
          assert rest[i] in multiset(s[1..]);
        }
      }
    }
  }

  lemma {:induction false} KeepFirstTwice(s: seq<DrivingEvent>, last: map<DedupeType, int>)
    ensures KeepFirst(KeepFirst(s, last), last) == KeepFirst(s, last)
  {
    if s != [] {
      var k := TypeOf(s[0]);
      if k in last && WithinBucket(last[k], s[0].recordedAt) {
        KeepFirstTwice(s[1..], last);
      } else {
        KeepFirstTwice(s[1..], last[k := s[0].recordedAt]);
        assert KeepFirst(s, last)[1..] == KeepFirst(s[1..], last[k := s[0].recordedAt]);
      }
    }
  }

  /** Only input events are kept, in time order, and a second run removes nothing. */
  lemma DedupeIsIdempotent(events: seq<DrivingEvent>)
    ensures multiset(Dedupe(events)) <= multiset(events)
    ensures InTimeOrder(Dedupe(events))
    ensures Dedupe(Dedupe(events)) == Dedupe(events)
  {
    SortByTimeSorts(events);
    KeepFirstIsSubsequence(SortByTime(events), map[]);
    StableSortOfSorted(Dedupe(events), NotLater);
    KeepFirstTwice(SortByTime(events), map[]);
  }

  /** The order in which events arrive changes, in no class, the times kept. */
  lemma DedupeIgnoresInputOrder(events: seq<DrivingEvent>, shuffled: seq<DrivingEvent>)
    requires multiset(events) == multiset(shuffled)
    ensures forall t :: ClassTimes(Dedupe(events), t) == ClassTimes(Dedupe(shuffled), t)
  {
    var s, u := SortByTime(events), SortByTime(shuffled);
    SortByTimeSorts(events);
    SortByTimeSorts(shuffled);
    forall t ensures ClassTimes(Dedupe(events), t) == ClassTimes(Dedupe(shuffled), t) {
      var k := NormalizeDedupeEventType(t);
      ClassTimesAreTypeTimes(Dedupe(events), t);
      ClassTimesAreTypeTimes(Dedupe(shuffled), t);
      SortedTypeTimesAgree(s, u, k);
      KeepFirstIsGreedyPerType(s, map[], k);
      KeepFirstIsGreedyPerType(u, map[], k);
    }
  }
}
