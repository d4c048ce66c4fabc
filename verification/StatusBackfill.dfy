/**
  The limited backfill pass over trips without an analysis status: what a pass touches, how far
  repeated passes get, and when they stall.
*/
module StatusBackfill {
  import opened Options
  import opened Filtering
  import opened Sorting

  datatype AnalysisStatus = Pending | InProgress | Completed | Skipped | Failed

  datatype ImpactStatus = ImpactPending | ImpactReady | ImpactOther

  datatype Trip = Trip(
    id: string,
    organizationId: string,
    isCompleted: bool,
    endTime: Option<int>,
    analysis: Option<AnalysisStatus>,
    behavior: Option<string>,
    impact: Option<ImpactStatus>,
    impactComputedAt: Option<int>)

  /** The legacy inference; an unknown behaviour status cannot be inferred. */
  function Infer(trip: Trip): Option<AnalysisStatus> {
    if trip.analysis.Some? then trip.analysis
    else if !trip.isCompleted then None
    else
      var b := trip.behavior.GetOr("");
      if b == "" then Some(Pending)
      else if b == "PENDING" || b == "IN_PROGRESS" then Some(InProgress)
      else if b == "COMPLETED" then Some(Completed)
      else if b == "SKIPPED_NO_HF_DATA" then Some(Skipped)
      else if b == "FAILED_PERMANENT" || b == "FAILED_TRANSIENT" then Some(Failed)
      else None
  }

  /** What the query asks for; `org` is None without the --org option. */
  predicate Open(trip: Trip, org: Option<string>) {
    trip.isCompleted && trip.analysis.None? && (org.None? || trip.organizationId == org.value)
  }

  /** endTime descending, with null first as PostgreSQL orders it. */
  predicate LatestFirst(a: Trip, b: Trip) {
    a.endTime.None? || (b.endTime.Some? && b.endTime.value <= a.endTime.value)
  }

  function IsOpen(org: Option<string>): Trip -> bool {
    (trip: Trip) => Open(trip, org)
  }

  function OpenTrips(trips: seq<Trip>, org: Option<string>): seq<Trip> {
    Filter(trips, IsOpen(org))
  }

  /** All open trips in the order in which passes reach them. */
  function Queue(trips: seq<Trip>, org: Option<string>): seq<Trip> {
    StableSort(OpenTrips(trips, org), LatestFirst)
  }

  function Page(queue: seq<Trip>, limit: nat): seq<Trip> {
    if |queue| <= limit then queue else queue[..limit]
  }

  function Select(trips: seq<Trip>, org: Option<string>, limit: nat): seq<Trip> {
    Page(Queue(trips, org), limit)
  }

  predicate NeedsImpactSync(trip: Trip, impacts: set<string>) {
    trip.id in impacts && (trip.impact.None? || trip.impact.value == ImpactPending)
  }

  function Updated(trip: Trip, impacts: set<string>, now: int): Trip {
    var synced := NeedsImpactSync(trip, impacts);
    trip.(analysis := Infer(trip),
          impact := if synced then Some(ImpactReady) else trip.impact,
          impactComputedAt := if synced then Some(now) else trip.impactComputedAt)
  }

  /** UPDATE ... WHERE id = trip.id, for a selected trip that can be inferred. */
  function UpdateRow(trips: seq<Trip>, trip: Trip, impacts: set<string>, now: int): seq<Trip> {
    if Infer(trip).None? then trips
    else
      var updated := Updated(trip, impacts, now);
      seq(|trips|, i requires 0 <= i < |trips| => if trips[i].id == trip.id then updated else trips[i])
  }

  function UpdateAll(trips: seq<Trip>, selected: seq<Trip>, impacts: set<string>, now: int): seq<Trip>
    decreases |selected|
  {
    if selected == [] then trips
    else UpdateAll(UpdateRow(trips, selected[0], impacts, now), selected[1..], impacts, now)
  }

  function Pass(trips: seq<Trip>, org: Option<string>, limit: nat, impacts: set<string>, now: int): seq<Trip> {
    UpdateAll(trips, Select(trips, org, limit), impacts, now)
  }

  ghost function CountInferable(selected: seq<Trip>): nat {
    if selected == [] then 0 else (if Infer(selected[0]).Some? then 1 else 0) + CountInferable(selected[1..])
  }

  /** The trip's impact has been computed since but is not marked as such. */
  ghost predicate ImpactIsDue(trip: Trip, impacts: set<string>) {
    trip.id in impacts && (trip.impact == None || trip.impact == Some(ImpactPending))
  }

  /** The selected trips that a pass closes and whose impact status it also brings up to date. */
  ghost function CountSynced(selected: seq<Trip>, impacts: set<string>): nat {
    if selected == [] then 0
    else
      (if Infer(selected[0]).Some? && ImpactIsDue(selected[0], impacts) then 1 else 0) +
      CountSynced(selected[1..], impacts)
  }

  class TripTable {
    var trips: seq<Trip>

    /** One run of the script; a dry run counts but writes nothing. */
    method RunPass(apply: bool, dryRunFlag: bool, org: Option<string>, limit: nat, impacts: set<string>, now: int)
      returns (scanned: nat, statusUpdates: nat, impactUpdates: nat)
      modifies this
      ensures trips == if apply && !dryRunFlag then Pass(old(trips), org, limit, impacts, now) else old(trips)
      ensures scanned == |Select(old(trips), org, limit)|
      ensures statusUpdates == CountInferable(Select(old(trips), org, limit))
      ensures impactUpdates == CountSynced(Select(old(trips), org, limit), impacts)
    {
      var dryRun := !apply || dryRunFlag;
      var selected := Select(trips, org, limit);
      SelectIsOpen(trips, org, limit);
      scanned, statusUpdates, impactUpdates := |selected|, 0, 0;
      for n := 0 to |selected|
        invariant UpdateAll(trips, if dryRun then [] else selected[n..], impacts, now) ==
          if dryRun then old(trips) else Pass(old(trips), org, limit, impacts, now)
        invariant statusUpdates + CountInferable(selected[n..]) == CountInferable(selected)
        invariant impactUpdates + CountSynced(selected[n..], impacts) == CountSynced(selected, impacts)
      {
        var trip := selected[n];
        assert selected[n..][1..] == selected[n + 1..];
        var inferred := Infer(trip);
        if inferred.None? { continue; }
        var needsStatus := trip.analysis.None?;
        var needsImpactSync := NeedsImpactSync(trip, impacts);
        if !needsStatus && !needsImpactSync { continue; }
        if !dryRun {
          trips := UpdateRow(trips, trip, impacts, now);
        }
        if needsStatus { statusUpdates := statusUpdates + 1; }
        if needsImpactSync { impactUpdates := impactUpdates + 1; }
      }
    }
  }

  // ---------------------------------------------------------------- what can be inferred

  lemma BehaviorsDiffer()
    ensures |"PENDING"| == 7 && |"IN_PROGRESS"| == 11 && |"COMPLETED"| == 9
    ensures |"SKIPPED_NO_HF_DATA"| == 18 && |"FAILED_PERMANENT"| == |"FAILED_TRANSIENT"| == 16
  {
  }

  /** The status inferred for a completed trip without one follows from its legacy behaviour status alone. */
  lemma InferenceIs(trip: Trip)
    requires trip.isCompleted && trip.analysis == None
    ensures Infer(trip) == Some(Pending) <==> trip.behavior == None || trip.behavior == Some("")
    ensures Infer(trip) == Some(InProgress) <==>
      trip.behavior == Some("PENDING") || trip.behavior == Some("IN_PROGRESS")
    ensures Infer(trip) == Some(Completed) <==> trip.behavior == Some("COMPLETED")
    ensures Infer(trip) == Some(Skipped) <==> trip.behavior == Some("SKIPPED_NO_HF_DATA")
    ensures Infer(trip) == Some(Failed) <==>
      trip.behavior == Some("FAILED_PERMANENT") || trip.behavior == Some("FAILED_TRANSIENT")
  {
    BehaviorsDiffer();
  }

  /** The status of another trip: a stored one stays, an unfinished trip has none. */
  lemma InferenceOfOthers(trip: Trip)
    ensures trip.analysis.Some? ==> Infer(trip) == trip.analysis
    ensures trip.analysis.None? && !trip.isCompleted ==> Infer(trip) == None
  {
  }

  // ---------------------------------------------------------------- what is selected

  ghost predicate UniqueIds(trips: seq<Trip>) {
    forall i, j :: 0 <= i < j < |trips| ==> trips[i].id != trips[j].id
  }

  lemma {:induction false} UniqueIdsOfPermutation(s: seq<Trip>, t: seq<Trip>)
    requires multiset(s) == multiset(t) && UniqueIds(s)
    ensures UniqueIds(t)
  {
    if s == [] {
      assert |multiset(t)| == 0;
    } else {
      var a, b := SplitAtHead(s, t);
      var rest: seq<Trip> := a + b;
      UniqueIdsOfPermutation(s[1..], rest);
      forall i | 0 <= i < |rest| ensures rest[i].id != s[0].id {
        assert rest[i] in multiset(s[1..]);
      }
      assert forall i :: 0 <= i < |a| ==> t[i] == rest[i];
      assert forall i :: |a| < i < |t| ==> t[i] == rest[i - 1];
    }
  }

  lemma QueueIsOpen(trips: seq<Trip>, org: Option<string>)
    ensures forall t: Trip :: t in Queue(trips, org) <==> t in trips && Open(t, org)
    ensures |Queue(trips, org)| == |OpenTrips(trips, org)|
  {
    var open := OpenTrips(trips, org);
    StableSortSorts(open, LatestFirst);
    FilterElements(trips, IsOpen(org));
    forall t: Trip ensures t in Queue(trips, org) <==> t in open {
      assert t in Queue(trips, org) <==> t in multiset(open);
    }
  }

  lemma QueueIsUnique(trips: seq<Trip>, org: Option<string>)
    requires UniqueIds(trips)
    ensures UniqueIds(Queue(trips, org))
  {
    var open := OpenTrips(trips, org);
    FilterKeepsPairs(trips, IsOpen(org), (a: Trip, b: Trip) => a.id != b.id);
    StableSortSorts(open, LatestFirst);
    UniqueIdsOfPermutation(open, Queue(trips, org));
  }

  /** The trip belongs in the queue and ends when `trip` ends. */
  ghost function EndsWith(trip: Trip): Trip -> bool {
    (t: Trip) => t.endTime == trip.endTime
  }

  /** A missing end comes first, then the latest end. */
  ghost predicate EndsInOrder(queue: seq<Trip>) {
    forall i, j :: 0 <= i < j < |queue| ==>
      queue[i].endTime == None || (queue[j].endTime.Some? && queue[i].endTime.value >= queue[j].endTime.value)
  }

  /** A completed trip without a status, of the organisation if one is given. */
  ghost function Selectable(org: Option<string>): Trip -> bool {
    (t: Trip) => t.isCompleted && t.analysis == None && (org == None || Some(t.organizationId) == org)
  }

  lemma SortedEnds(open: seq<Trip>)
    ensures EndsInOrder(StableSort(open, LatestFirst))
    ensures forall trip :: Filter(StableSort(open, LatestFirst), EndsWith(trip)) == Filter(open, EndsWith(trip))
  {
    StableSortSorts(open, LatestFirst);
    var queue := StableSort(open, LatestFirst);
    assert forall i, j :: 0 <= i < j < |queue| ==> LatestFirst(queue[i], queue[j]);
    forall trip ensures Filter(queue, EndsWith(trip)) == Filter(open, EndsWith(trip)) {
      StableSortIsStable(open, LatestFirst, trip, EndsWith(trip));
    }
  }

  /**
    The queue holds exactly the trips that can be selected, missing ends first and then the latest
    end first, trips that end together in table order; a pass takes its first `limit` trips.
   */
  lemma QueueIsOrdered(trips: seq<Trip>, org: Option<string>, limit: nat)
    ensures var queue, candidates := Queue(trips, org), Filter(trips, Selectable(org));
      && multiset(queue) == multiset(candidates) && EndsInOrder(queue)
      && (forall trip :: Filter(queue, EndsWith(trip)) == Filter(candidates, EndsWith(trip)))
    ensures var queue := Queue(trips, org);
      Select(trips, org, limit) == queue[..if |queue| < limit then |queue| else limit]
  {
    var open := OpenTrips(trips, org);
    FilterAgrees(trips, IsOpen(org), Selectable(org));
    StableSortSorts(open, LatestFirst);
    SortedEnds(open);
  }

  lemma SelectIsOpen(trips: seq<Trip>, org: Option<string>, limit: nat)
    ensures forall i :: 0 <= i < |Select(trips, org, limit)| ==>
      Select(trips, org, limit)[i] in trips && Open(Select(trips, org, limit)[i], org)
  {
    QueueIsOpen(trips, org);
    var queue := Queue(trips, org);
    assert forall i :: 0 <= i < |queue| ==> queue[i] in queue;
  }

  lemma SelectIsUnique(trips: seq<Trip>, org: Option<string>, limit: nat)
    requires UniqueIds(trips)
    ensures UniqueIds(Select(trips, org, limit))
  {
    QueueIsUnique(trips, org);
  }

  // ---------------------------------------------------------------- what a pass changes

  ghost function Remaining(trips: seq<Trip>, org: Option<string>): nat {
    |OpenTrips(trips, org)|
  }

  /** The table with exactly the selected trips that can be inferred written, and nothing else. */
  function Written(trips: seq<Trip>, selected: seq<Trip>, impacts: set<string>, now: int): seq<Trip> {
    seq(|trips|, i requires 0 <= i < |trips| =>
      if trips[i] in selected && Infer(trips[i]).Some? then Updated(trips[i], impacts, now) else trips[i])
  }

  lemma {:induction false} UpdateAllCloses(trips: seq<Trip>, org: Option<string>, selected: seq<Trip>,
                                           impacts: set<string>, now: int)
    requires UniqueIds(trips) && UniqueIds(selected)
    requires forall i :: 0 <= i < |selected| ==> selected[i] in trips && Open(selected[i], org)
    ensures UpdateAll(trips, selected, impacts, now) == Written(trips, selected, impacts, now)
    ensures Remaining(UpdateAll(trips, selected, impacts, now), org) == Remaining(trips, org) - CountInferable(selected)
    decreases |selected|
  {
    if selected == [] {
      assert Written(trips, selected, impacts, now) == trips;
    } else {
      var trip, rest := selected[0], selected[1..];
      var next := UpdateRow(trips, trip, impacts, now);
      var k :| 0 <= k < |trips| && trips[k] == trip;
      if Infer(trip).Some? {
        assert next == trips[k := Updated(trip, impacts, now)];
        FilterSizeOfUpdate(trips, k, Updated(trip, impacts, now), IsOpen(org));
      }
      forall i | 0 <= i < |rest| ensures rest[i] in next {
        var j :| 0 <= j < |trips| && trips[j] == selected[i + 1];
        assert next[j] == trips[j];
      }
      UpdateAllCloses(next, org, rest, impacts, now);
      WrittenStep(trips, org, selected, impacts, now, k);
    }
  }

  lemma WrittenStep(trips: seq<Trip>, org: Option<string>, selected: seq<Trip>, impacts: set<string>, now: int, k: nat)
    requires UniqueIds(trips) && UniqueIds(selected) && selected != [] && k < |trips| && trips[k] == selected[0]
    requires forall i :: 0 <= i < |selected| ==> Open(selected[i], org)
    ensures Written(UpdateRow(trips, selected[0], impacts, now), selected[1..], impacts, now) ==
      Written(trips, selected, impacts, now)
  {
    var trip, rest := selected[0], selected[1..];
    var next := UpdateRow(trips, trip, impacts, now);
    assert selected == [trip] + rest;
    assert trip !in rest;
    forall i | 0 <= i < |trips|
      ensures Written(next, rest, impacts, now)[i] == Written(trips, selected, impacts, now)[i]
    {
      if i == k {
        assert Infer(trip).Some? ==> next[k].analysis.Some? && next[k] !in rest;
      } else {
        assert next[i] == trips[i] && trips[i] != trip;
      }
    }
  }

  /** The row with its inferred status and, where due, its impact fields; nothing else changes. */
  ghost predicate IsClosed(before: Trip, after: Trip, impacts: set<string>, now: int) {
    && after.id == before.id && after.organizationId == before.organizationId
    && after.isCompleted == before.isCompleted && after.endTime == before.endTime && after.behavior == before.behavior
    && after.analysis.Some? && after.analysis == Infer(before)
    && after.impact == (if ImpactIsDue(before, impacts) then Some(ImpactReady) else before.impact)
    && after.impactComputedAt == (if ImpactIsDue(before, impacts) then Some(now) else before.impactComputedAt)
  }

  lemma UpdatedIsClosed(trip: Trip, impacts: set<string>, now: int)
    requires Infer(trip).Some?
    ensures IsClosed(trip, Updated(trip, impacts, now), impacts, now)
  {
  }

  lemma PassIsWritten(trips: seq<Trip>, org: Option<string>, limit: nat, impacts: set<string>, now: int)
    requires UniqueIds(trips)
    ensures var after, selected := Pass(trips, org, limit, impacts, now), Select(trips, org, limit);
      && after == Written(trips, selected, impacts, now) && UniqueIds(after)
      && Remaining(after, org) == Remaining(trips, org) - CountInferable(selected)
  {
    SelectIsOpen(trips, org, limit);
    SelectIsUnique(trips, org, limit);
    UpdateAllCloses(trips, org, Select(trips, org, limit), impacts, now);
  }

  /** Exactly the selected trips that can be inferred are closed, and every other row stays. */
  ghost predicate ClosesSelected(trips: seq<Trip>, after: seq<Trip>, selected: seq<Trip>,
                                 impacts: set<string>, now: int)
  {
    |after| == |trips| && forall i :: 0 <= i < |trips| ==>
      if trips[i] in selected && Infer(trips[i]).Some? then IsClosed(trips[i], after[i], impacts, now)
      else after[i] == trips[i]
  }

  lemma WrittenCloses(trips: seq<Trip>, selected: seq<Trip>, impacts: set<string>, now: int)
    ensures ClosesSelected(trips, Written(trips, selected, impacts, now), selected, impacts, now)
  {
    forall i | 0 <= i < |trips| && trips[i] in selected && Infer(trips[i]).Some?
      ensures IsClosed(trips[i], Updated(trips[i], impacts, now), impacts, now)
    {
      UpdatedIsClosed(trips[i], impacts, now);
    }
  }

  /**
    A pass writes exactly the selected trips that can be inferred: their status and, where due,
    their impact fields. Every other row and every other field stays as it is, and the number of
    open trips falls by exactly the number of rows written.
   */
  lemma PassClosesInferable(trips: seq<Trip>, org: Option<string>, limit: nat, impacts: set<string>, now: int)
    requires UniqueIds(trips)
    ensures var after, selected := Pass(trips, org, limit, impacts, now), Select(trips, org, limit);
      && ClosesSelected(trips, after, selected, impacts, now) && UniqueIds(after)
      && Remaining(after, org) == Remaining(trips, org) - CountInferable(selected)
  {
    PassIsWritten(trips, org, limit, impacts, now);
    WrittenCloses(trips, Select(trips, org, limit), impacts, now);
  }

  lemma {:induction false} NothingInferable(trips: seq<Trip>, selected: seq<Trip>, impacts: set<string>, now: int)
    requires CountInferable(selected) == 0
    ensures UpdateAll(trips, selected, impacts, now) == trips
    decreases |selected|
  {
    if selected != [] {
      NothingInferable(trips, selected[1..], impacts, now);
    }
  }

  // ---------------------------------------------------------------- repeated passes

  /** What changes between two runs of the script: the impact table and the clock. */
  datatype Moment = Moment(impacts: set<string>, now: int)

  function Passes(trips: seq<Trip>, org: Option<string>, limit: nat, moments: seq<Moment>): seq<Trip>
    decreases |moments|
  {
    if moments == [] then trips
    else Passes(Pass(trips, org, limit, moments[0].impacts, moments[0].now), org, limit, moments[1..])
  }

  ghost predicate Stalled(trips: seq<Trip>, org: Option<string>, limit: nat) {
    CountInferable(Select(trips, org, limit)) == 0
  }

  lemma UnstalledPassProgresses(trips: seq<Trip>, org: Option<string>, limit: nat, impacts: set<string>, now: int)
    requires UniqueIds(trips) && !Stalled(trips, org, limit)
    ensures UniqueIds(Pass(trips, org, limit, impacts, now))
    ensures Remaining(Pass(trips, org, limit, impacts, now), org) < Remaining(trips, org)
  {
    PassClosesInferable(trips, org, limit, impacts, now);
  }

  /**
    Repeated passes terminate: after as many passes as there are open trips, no selected trip can
    be inferred, and no further pass changes anything.
   */
  lemma {:induction false} PassesStall(trips: seq<Trip>, org: Option<string>, limit: nat, moments: seq<Moment>)
    requires UniqueIds(trips) && Remaining(trips, org) <= |moments|
    ensures var last := Passes(trips, org, limit, moments);
      && Stalled(last, org, limit)
      && (forall later :: Passes(last, org, limit, later) == last)
    decreases |moments|
  {
    if Stalled(trips, org, limit) {
      StalledStays(trips, org, limit, moments);
      forall later ensures Passes(trips, org, limit, later) == trips {
        StalledStays(trips, org, limit, later);
      }
    } else {
      UnstalledPassProgresses(trips, org, limit, moments[0].impacts, moments[0].now);
      PassesStall(Pass(trips, org, limit, moments[0].impacts, moments[0].now), org, limit, moments[1..]);
    }
  }

  lemma {:induction false} StalledStays(trips: seq<Trip>, org: Option<string>, limit: nat, moments: seq<Moment>)
    requires Stalled(trips, org, limit)
    ensures Passes(trips, org, limit, moments) == trips
    decreases |moments|
  {
    if moments != [] {
      NothingInferable(trips, Select(trips, org, limit), moments[0].impacts, moments[0].now);
      StalledStays(trips, org, limit, moments[1..]);
    }
  }

  // ---------------------------------------------------------------- which trips are ever closed

  predicate IsStuck(trip: Trip) {
    Infer(trip).None?
  }

  /** The trips of a stretch of the queue that no pass can close. */
  function Stuck(queue: seq<Trip>): seq<Trip> {
    Filter(queue, IsStuck)
  }

  /** The queue after one pass: the page keeps its stuck trips, the rest moves up. */
  function Drained(queue: seq<Trip>, limit: nat): seq<Trip> {
    if |queue| <= limit then Stuck(queue) else Stuck(queue[..limit]) + queue[limit..]
  }

  /** A trip that can be inferred is left exactly when `limit` stuck trips stand before it. */
  function Leftover(queue: seq<Trip>, limit: nat, ahead: nat): seq<Trip> {
    if queue == [] then []
    else if IsStuck(queue[0]) then [queue[0]] + Leftover(queue[1..], limit, ahead + 1)
    else if ahead < limit then Leftover(queue[1..], limit, ahead)
    else [queue[0]] + Leftover(queue[1..], limit, ahead)
  }

  lemma {:induction false} OpenAfterWriting(trips: seq<Trip>, org: Option<string>, selected: seq<Trip>,
                                            impacts: set<string>, now: int, stays: Trip -> bool)
    requires forall t :: stays(t) <==> !(t in selected && Infer(t).Some?)
    ensures OpenTrips(Written(trips, selected, impacts, now), org) == Filter(OpenTrips(trips, org), stays)
  {
    if trips != [] {
      var after := Written(trips, selected, impacts, now);
      assert after[1..] == Written(trips[1..], selected, impacts, now);
      OpenAfterWriting(trips[1..], org, selected, impacts, now, stays);
    }
  }

  lemma FilterOfPage(queue: seq<Trip>, limit: nat, stays: Trip -> bool)
    requires UniqueIds(queue)
    requires forall t :: stays(t) <==> !(t in Page(queue, limit) && Infer(t).Some?)
    ensures Filter(queue, stays) == Drained(queue, limit)
  {
    var page := Page(queue, limit);
    FilterAgrees(page, stays, IsStuck);
    if |queue| > limit {
      var tail := queue[limit..];
      assert queue == page + tail;
      FilterConcat(page, tail, stays);
      forall i | 0 <= i < |tail| ensures stays(tail[i]) {
        assert tail[i] == queue[limit + i];
      }
      FilterKeepsAll(tail, stays);
    }
  }

  lemma PassDrainsQueue(trips: seq<Trip>, org: Option<string>, limit: nat, impacts: set<string>, now: int)
    requires UniqueIds(trips)
    ensures Queue(Pass(trips, org, limit, impacts, now), org) == Drained(Queue(trips, org), limit)
  {
    var selected := Select(trips, org, limit);
    var stays := (t: Trip) => !(t in selected && Infer(t).Some?);
    SelectIsOpen(trips, org, limit);
    SelectIsUnique(trips, org, limit);
    UpdateAllCloses(trips, org, selected, impacts, now);
    OpenAfterWriting(trips, org, selected, impacts, now, stays);
    SortOfFilter(OpenTrips(trips, org), LatestFirst, stays);
    QueueIsUnique(trips, org);
    FilterOfPage(Queue(trips, org), limit, stays);
  }

  /** Within the first `limit` places only stuck trips are left. */
  lemma {:induction false} LeftoverSplits(page: seq<Trip>, rest: seq<Trip>, limit: nat, ahead: nat)
    requires ahead + |page| <= limit
    ensures Leftover(page + rest, limit, ahead) == Stuck(page) + Leftover(rest, limit, ahead + |Stuck(page)|)
  {
    if page == [] {
      assert page + rest == rest;
    } else {
      assert (page + rest)[1..] == page[1..] + rest;
      LeftoverSplits(page[1..], rest, limit, if IsStuck(page[0]) then ahead + 1 else ahead);
    }
  }

  lemma {:induction false} StuckStaysStuck(queue: seq<Trip>)
    ensures |Stuck(queue)| <= |queue| && Stuck(Stuck(queue)) == Stuck(queue)
    ensures forall i :: 0 <= i < |Stuck(queue)| ==> IsStuck(Stuck(queue)[i])
  {
    if queue != [] {
      StuckStaysStuck(queue[1..]);
    }
  }

  lemma DrainingKeepsLeftover(queue: seq<Trip>, limit: nat)
    ensures Leftover(Drained(queue, limit), limit, 0) == Leftover(queue, limit, 0)
  {
    var page := Page(queue, limit);
    var rest := queue[|page|..];
    assert queue == page + rest;
    assert Drained(queue, limit) == Stuck(page) + rest;
    StuckStaysStuck(page);
    LeftoverSplits(page, rest, limit, 0);
    LeftoverSplits(Stuck(page), rest, limit, 0);
  }

  lemma {:induction false} BlockedIsLeft(queue: seq<Trip>, limit: nat, ahead: nat)
    requires limit <= ahead
    ensures Leftover(queue, limit, ahead) == queue
  {
    if queue != [] {
      BlockedIsLeft(queue[1..], limit, if IsStuck(queue[0]) then ahead + 1 else ahead);
    }
  }

  lemma {:induction false} NoneInferableIsStuck(selected: seq<Trip>)
    requires CountInferable(selected) == 0
    ensures Stuck(selected) == selected
  {
    if selected != [] {
      NoneInferableIsStuck(selected[1..]);
    }
  }

  lemma StalledQueueIsLeft(queue: seq<Trip>, limit: nat)
    requires CountInferable(Page(queue, limit)) == 0
    ensures Leftover(queue, limit, 0) == queue
  {
    var page := Page(queue, limit);
    var rest := queue[|page|..];
    assert queue == page + rest;
    NoneInferableIsStuck(page);
    LeftoverSplits(page, rest, limit, 0);
    if |page| == limit {
      BlockedIsLeft(rest, limit, limit);
    }
  }

  /** What repeated passes leave in the queue is determined by the queue they start with. */
  lemma {:induction false} PassesLeaveLeftover(trips: seq<Trip>, org: Option<string>, limit: nat, moments: seq<Moment>)
    requires UniqueIds(trips) && Remaining(trips, org) <= |moments|
    ensures Queue(Passes(trips, org, limit, moments), org) == Leftover(Queue(trips, org), limit, 0)
    decreases |moments|
  {
    if Stalled(trips, org, limit) {
      StalledStays(trips, org, limit, moments);
      StalledQueueIsLeft(Queue(trips, org), limit);
    } else {
      var next := Pass(trips, org, limit, moments[0].impacts, moments[0].now);
      UnstalledPassProgresses(trips, org, limit, moments[0].impacts, moments[0].now);
      PassDrainsQueue(trips, org, limit, moments[0].impacts, moments[0].now);
      DrainingKeepsLeftover(Queue(trips, org), limit);
      PassesLeaveLeftover(next, org, limit, moments[1..]);
    }
  }

  lemma {:induction false} LeftoverElements(queue: seq<Trip>, limit: nat, ahead: nat)
    ensures forall t: Trip :: t in Leftover(queue, limit, ahead) ==> t in queue
  {
    if queue != [] {
      LeftoverElements(queue[1..], limit, if IsStuck(queue[0]) then ahead + 1 else ahead);
      assert queue == [queue[0]] + queue[1..];
    }
  }

  lemma {:induction false} LeftoverIff(queue: seq<Trip>, limit: nat, ahead: nat, i: nat)
    requires UniqueIds(queue) && i < |queue| && !IsStuck(queue[i])
    ensures queue[i] in Leftover(queue, limit, ahead) <==> limit <= ahead + |Stuck(queue[..i])|
  {
    var rest := queue[1..];
    if i == 0 {
      LeftoverElements(rest, limit, ahead);
    } else {
      LeftoverIff(rest, limit, if IsStuck(queue[0]) then ahead + 1 else ahead, i - 1);
      assert queue[..i][1..] == rest[..i - 1];
      assert rest[i - 1] == queue[i] != queue[0];
    }
  }

  /**
    An open trip that can be inferred is closed by enough repeated passes exactly when fewer than
    `limit` trips that cannot be inferred stand before it in the initial queue.
   */
  lemma TripIsClosedIff(trips: seq<Trip>, org: Option<string>, limit: nat, moments: seq<Moment>, i: nat)
    requires UniqueIds(trips) && Remaining(trips, org) <= |moments|
    requires i < |Queue(trips, org)| && Infer(Queue(trips, org)[i]).Some?
    ensures Queue(trips, org)[i] !in Passes(trips, org, limit, moments) <==> |Stuck(Queue(trips, org)[..i])| < limit
  {
    var queue, last := Queue(trips, org), Passes(trips, org, limit, moments);
    PassesLeaveLeftover(trips, org, limit, moments);
    QueueIsUnique(trips, org);
    LeftoverIff(queue, limit, 0, i);
    QueueIsOpen(trips, org);
    QueueIsOpen(last, org);
    assert queue[i] in queue;
  }

  /** In the initial queue fewer than `limit` stuck trips stand before each trip that can be inferred. */
  ghost predicate WithinReach(queue: seq<Trip>, limit: nat) {
    forall i :: 0 <= i < |queue| && Infer(queue[i]).Some? ==> |Stuck(queue[..i])| < limit
  }

  /** Enough repeated passes leave no open trip that could be inferred exactly when all are within reach. */
  lemma PassesCompleteIff(trips: seq<Trip>, org: Option<string>, limit: nat, moments: seq<Moment>)
    requires UniqueIds(trips) && Remaining(trips, org) <= |moments|
    ensures var last := Passes(trips, org, limit, moments);
      (forall t: Trip :: t in last && Open(t, org) ==> Infer(t).None?) <==> WithinReach(Queue(trips, org), limit)
  {
    var queue, last := Queue(trips, org), Passes(trips, org, limit, moments);
    QueueIsOpen(trips, org);
    QueueIsOpen(last, org);
    PassesLeaveLeftover(trips, org, limit, moments);
    LeftoverElements(queue, limit, 0);
    forall t: Trip | t in last && Open(t, org) && Infer(t).Some? && WithinReach(queue, limit) ensures false {
      assert t in queue;
      var i :| 0 <= i < |queue| && queue[i] == t;
      TripIsClosedIff(trips, org, limit, moments, i);
    }
    forall i | 0 <= i < |queue| && Infer(queue[i]).Some? && limit <= |Stuck(queue[..i])|
      ensures queue[i] in last && Open(queue[i], org)
    {
      TripIsClosedIff(trips, org, limit, moments, i);
      assert queue[i] in queue;
    }
  }

  lemma UnknownIsStuck(trip: Trip)
    requires trip.analysis.None? && trip.isCompleted && trip.behavior == Some("UNKNOWN")
    ensures IsStuck(trip)
  {
    assert "UNKNOWN"[0] == 'U';
  }

  lemma UnknownsAreStuck(newer: seq<Trip>)
    requires forall i :: 0 <= i < |newer| ==>
      newer[i].isCompleted && newer[i].analysis.None? && newer[i].behavior == Some("UNKNOWN")
    ensures Stuck(newer) == newer
  {
    forall i | 0 <= i < |newer| ensures IsStuck(newer[i]) {
      UnknownIsStuck(newer[i]);
    }
    FilterKeepsAll(newer, IsStuck);
  }

  /** A page of newer trips with an unknown status, of any size, blocks an older trip for good. */
  lemma UnknownStatusBlocksOlderTrips(newer: seq<Trip>, older: Trip, org: Option<string>, limit: nat,
                                      moments: seq<Moment>)
    requires UniqueIds(newer + [older]) && SortedBy(newer + [older], LatestFirst) && limit <= |newer|
    requires forall i :: 0 <= i < |newer| ==> Open(newer[i], org) && newer[i].behavior == Some("UNKNOWN")
    requires Open(older, org) && older.behavior == Some("COMPLETED")
    requires |newer| < |moments|
    ensures Infer(older) == Some(Completed) && older in Passes(newer + [older], org, limit, moments)
  {
    var trips := newer + [older];
    FilterKeepsAll(trips, IsOpen(org));
    StableSortOfSorted(trips, LatestFirst);
    assert Queue(trips, org) == trips;
    assert trips[..|newer|] == newer && trips[|newer|] == older;
    UnknownsAreStuck(newer);
    CompletedIsInferable(older);
    TripIsClosedIff(trips, org, limit, moments, |newer|);
  }

  lemma CompletedIsInferable(trip: Trip)
    requires trip.analysis.None? && trip.isCompleted && trip.behavior == Some("COMPLETED")
    ensures Infer(trip) == Some(Completed)
  {
    assert "COMPLETED"[0] == 'C';
  }
}
