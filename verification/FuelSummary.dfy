/**
  The fuel summary of one trip: a one-pass scan over the time-ordered signals, its three result
  paths, and exactly when the result is independent of the order in which signals arrive.
*/
module FuelSummary {
  import opened Options
  import opened Filtering
  import opened Sorting

  /** `timestamp` is None when the provider row carries no timestamp string. */
  datatype Signal = Signal(timestamp: Option<int>, absolute: Option<real>, relative: Option<real>)

  datatype Confidence = High | Medium | Low | SingleSample | RelativeFallback

  datatype Summary = Summary(
    startAbs: Option<real>,
    endAbs: Option<real>,
    startRel: Option<real>,
    endRel: Option<real>,
    startAt: Option<int>,
    endAt: Option<int>,
    refuel: bool,
    liters: Option<real>,
    confidence: Option<Confidence>,
    absCount: nat,
    relCount: nat)

  type Reading = (int, real)

  const REFUEL_MIN_RISE := 2.0
  const REFUEL_MIN_TRIP_MS := 180_000
  const HIGH_BAND_MS := 300_000
  const MEDIUM_BAND_MS := 900_000

  predicate NotLater(a: Signal, b: Signal) {
    a.timestamp.GetOr(0) <= b.timestamp.GetOr(0)
  }

  predicate HasTime(s: Signal) {
    s.timestamp.Some?
  }

  function Timed(signals: seq<Signal>): seq<Signal> {
    Filter(signals, HasTime)
  }

  function Ordered(signals: seq<Signal>): seq<Signal> {
    StableSort(Timed(signals), NotLater)
  }

  function Absolute(s: Signal): Option<real> { s.absolute }

  function Relative(s: Signal): Option<real> { s.relative }

  /** The readings of one level, with their times, in sequence order. */
  ghost function Readings(s: seq<Signal>, level: Signal -> Option<real>): seq<Reading> {
    if s == [] then []
    else
      var last := s[|s| - 1];
      Readings(s[..|s| - 1], level) +
      (if level(last).Some? then [(last.timestamp.GetOr(0), level(last).value)] else [])
  }

  ghost function First(r: seq<Reading>): Option<Reading> {
    if r == [] then None else Some(r[0])
  }

  ghost function Last(r: seq<Reading>): Option<Reading> {
    if r == [] then None else Some(r[|r| - 1])
  }

  // ---------------------------------------------------------------- the summary of given readings

  /** JavaScript's Math.round. */
  function Round(x: real): int {
    (x + 0.5).Floor
  }

  function RelativeLiters(drop: real, tank: real): real {
    Round(drop / 100.0 * tank * 100.0) as real / 100.0
  }

  function Distance(a: int, b: int): nat {
    if a < b then b - a else a - b
  }

  function Band(dStart: nat, dEnd: nat): Confidence {
    if dStart <= HIGH_BAND_MS && dEnd <= HIGH_BAND_MS then High
    else if dStart <= MEDIUM_BAND_MS && dEnd <= MEDIUM_BAND_MS then Medium
    else Low
  }

  function Value(r: Option<Reading>): Option<real> {
    if r.Some? then Some(r.value.1) else None
  }

  function Conclude(firstAbs: Option<Reading>, lastAbs: Option<Reading>, absCount: nat,
                    firstRel: Option<real>, lastRel: Option<real>, relCount: nat,
                    tripStart: int, tripEnd: int, tank: Option<real>): Summary
  {
    if firstAbs.None? || lastAbs.None? then
      var usable := firstRel.Some? && lastRel.Some? && tank.Some? && tank.value > 0.0 && relCount >= 2
        && 0.0 <= firstRel.value - lastRel.value <= 100.0;
      Summary(None, None, firstRel, lastRel, None, None, false,
              if usable then Some(RelativeLiters(firstRel.value - lastRel.value, tank.value)) else None,
              if usable then Some(RelativeFallback) else None, absCount, relCount)
    else
      var (start, end) := (firstAbs.value, lastAbs.value);
      if absCount < 2 then
        Summary(Some(start.1), Some(end.1), firstRel, lastRel, Some(start.0), Some(end.0), false, None,
                Some(SingleSample), absCount, relCount)
      else
        var refuel := end.1 - start.1 > REFUEL_MIN_RISE && tripEnd - tripStart >= REFUEL_MIN_TRIP_MS;
        var drop := start.1 - end.1;
        Summary(Some(start.1), Some(end.1), firstRel, lastRel, Some(start.0), Some(end.0), refuel,
                if refuel then None else Some(if drop > 0.0 then drop else 0.0),
                Some(if refuel then Low else Band(Distance(start.0, tripStart), Distance(end.0, tripEnd))),
                absCount, relCount)
  }

  /** The summary as a function of the time-ordered readings. */
  ghost function Summarize(signals: seq<Signal>, tripStart: int, tripEnd: int, tank: Option<real>): Summary {
    var abs, rel := Readings(Ordered(signals), Absolute), Readings(Ordered(signals), Relative);
    Conclude(First(abs), Last(abs), |abs|, Value(First(rel)), Value(Last(rel)), |rel|, tripStart, tripEnd, tank)
  }

  /** The scan keeps first, last and count of both levels. */
  method ComputeFuelSummary(signals: seq<Signal>, tripStart: int, tripEnd: int, tank: Option<real>) returns (r: Summary)
    ensures r == Summarize(signals, tripStart, tripEnd, tank)
  {
    var ordered := Ordered(signals);
    var firstAbs: Option<Reading>, lastAbs: Option<Reading>, absCount := None, None, 0;
    var firstRel: Option<real>, lastRel: Option<real>, relCount := None, None, 0;
    ghost var abs: seq<Reading>, rel: seq<Reading> := [], [];
    for n := 0 to |ordered|
      invariant abs == Readings(ordered[..n], Absolute) && rel == Readings(ordered[..n], Relative)
      invariant firstAbs == First(abs) && lastAbs == Last(abs) && absCount == |abs|
      invariant firstRel == Value(First(rel)) && lastRel == Value(Last(rel)) && relCount == |rel|
    {
      var s := ordered[n];
      ReadingsStep(ordered, n, Absolute);
      ReadingsStep(ordered, n, Relative);
      if s.absolute.Some? {
        absCount := absCount + 1;
        if firstAbs.None? { firstAbs := Some((s.timestamp.GetOr(0), s.absolute.value)); }
        lastAbs := Some((s.timestamp.GetOr(0), s.absolute.value));
        abs := abs + [(s.timestamp.GetOr(0), s.absolute.value)];
      }
      if s.relative.Some? {
        relCount := relCount + 1;
        if firstRel.None? { firstRel := Some(s.relative.value); }
        lastRel := Some(s.relative.value);
        rel := rel + [(s.timestamp.GetOr(0), s.relative.value)];
      }
    }
    assert ordered[..|ordered|] == ordered;
    r := Conclude(firstAbs, lastAbs, absCount, firstRel, lastRel, relCount, tripStart, tripEnd, tank);
  }

  lemma ReadingsStep(s: seq<Signal>, n: nat, level: Signal -> Option<real>)
    requires n < |s|
    ensures Readings(s[..n + 1], level) == Readings(s[..n], level) +
      (if level(s[n]).Some? then [(s[n].timestamp.GetOr(0), level(s[n]).value)] else [])
  {
    assert s[..n + 1][..n] == s[..n];
  }

  // ---------------------------------------------------------------- what the readings are

  /** The signal has a timestamp and a reading of this level. */
  ghost predicate Reads(s: Signal, level: Signal -> Option<real>) {
    s.timestamp.Some? && level(s).Some?
  }

  ghost function ReadingOf(s: Signal, level: Signal -> Option<real>): Reading
    requires Reads(s, level)
  {
    (s.timestamp.value, level(s).value)
  }

  ghost predicate IsReading(signals: seq<Signal>, level: Signal -> Option<real>, r: Reading) {
    exists i :: 0 <= i < |signals| && Reads(signals[i], level) && r == ReadingOf(signals[i], level)
  }

  /** How many signals carry a timestamp and a reading of this level. */
  ghost function CountReads(signals: seq<Signal>, level: Signal -> Option<real>): nat {
    if signals == [] then 0
    else (if Reads(signals[0], level) then 1 else 0) + CountReads(signals[1..], level)
  }

  lemma {:induction false} ReadingsConcat(a: seq<Signal>, b: seq<Signal>, level: Signal -> Option<real>)
    ensures Readings(a + b, level) == Readings(a, level) + Readings(b, level)
  {
    if b == [] {
      assert a + b == a;
    } else {
      assert (a + b)[..|a + b| - 1] == a + b[..|b| - 1];
      ReadingsConcat(a, b[..|b| - 1], level);
    }
  }

  lemma ReadingsOfOne(s: Signal, level: Signal -> Option<real>)
    ensures Readings([s], level) == if level(s).Some? then [(s.timestamp.GetOr(0), level(s).value)] else []
  {
  }

  lemma {:induction false} ReadingsOfPermutation(s: seq<Signal>, t: seq<Signal>, level: Signal -> Option<real>)
    requires multiset(s) == multiset(t)
    ensures multiset(Readings(s, level)) == multiset(Readings(t, level))
    ensures |Readings(s, level)| == |Readings(t, level)|
  {
    if s == [] {
      assert |multiset(t)| == 0;
    } else {
      var a, b := SplitAtHead(s, t);
      ReadingsOfPermutation(s[1..], a + b, level);
      ReadingsConcat(a, [s[0]] + b, level);
      ReadingsConcat([s[0]], b, level);
      ReadingsConcat(a, b, level);
      assert s == [s[0]] + s[1..];
      ReadingsConcat([s[0]], s[1..], level);
    }
  }

  lemma {:induction false} ReadingsOfTimed(signals: seq<Signal>, level: Signal -> Option<real>)
    ensures |Readings(Timed(signals), level)| == CountReads(signals, level)
    ensures forall r :: r in Readings(Timed(signals), level) <==> IsReading(signals, level, r)
  {
    if signals != [] {
      var s, rest := signals[0], signals[1..];
      ReadingsOfTimed(rest, level);
      if s.timestamp.Some? {
        ReadingsConcat([s], Timed(rest), level);
        ReadingsOfOne(s, level);
      }
      forall r
        ensures IsReading(signals, level, r) <==>
          (Reads(s, level) && r == ReadingOf(s, level)) || IsReading(rest, level, r)
      {
        IsReadingOfCons(signals, level, r);
      }
    }
  }

  lemma IsReadingOfCons(signals: seq<Signal>, level: Signal -> Option<real>, r: Reading)
    requires signals != []
    ensures IsReading(signals, level, r) <==>
      (Reads(signals[0], level) && r == ReadingOf(signals[0], level)) || IsReading(signals[1..], level, r)
  {
  }

  ghost predicate Chronological(r: seq<Reading>) {
    forall i, j :: 0 <= i < j < |r| ==> r[i].0 <= r[j].0
  }

  lemma {:induction false} OrderedReadings(s: seq<Signal>, level: Signal -> Option<real>)
    requires SortedBy(s, NotLater)
    ensures Chronological(Readings(s, level))
    ensures forall i :: 0 <= i < |Readings(s, level)| ==>
      s != [] && Readings(s, level)[i].0 <= s[|s| - 1].timestamp.GetOr(0)
  {
    if s != [] {
      var front := s[..|s| - 1];
      OrderedReadings(front, level);
      if front != [] {
        assert NotLater(front[|front| - 1], s[|s| - 1]);
      }
    }
  }

  /** What the scan finds for one level, without reference to any ordering. */
  ghost predicate Extremes(signals: seq<Signal>, level: Signal -> Option<real>,
                           first: Option<Reading>, last: Option<Reading>)
  {
    && (first.None? <==> CountReads(signals, level) == 0)
    && (last.None? <==> CountReads(signals, level) == 0)
    && (first.Some? ==> IsReading(signals, level, first.value))
    && (first.Some? ==> forall r :: IsReading(signals, level, r) ==> first.value.0 <= r.0)
    && (last.Some? ==> IsReading(signals, level, last.value))
    && (last.Some? ==> forall r :: IsReading(signals, level, r) ==> r.0 <= last.value.0)
  }

  lemma OrderedReadingsAre(signals: seq<Signal>, level: Signal -> Option<real>)
    ensures |Readings(Ordered(signals), level)| == CountReads(signals, level)
    ensures forall x :: x in Readings(Ordered(signals), level) <==> IsReading(signals, level, x)
  {
    var timed := Timed(signals);
    assert multiset(Ordered(signals)) == multiset(timed) by { StableSortSorts(timed, NotLater); }
    ReadingsOfPermutation(Ordered(signals), timed, level);
    ReadingsOfTimed(signals, level);
    forall x ensures x in Readings(Ordered(signals), level) <==> IsReading(signals, level, x) {
      assert x in Readings(Ordered(signals), level) <==> x in multiset(Readings(Ordered(signals), level));
      assert x in Readings(timed, level) <==> x in multiset(Readings(timed, level));
    }
  }

  lemma OuterBounds(r: seq<Reading>, x: Reading)
    requires Chronological(r) && x in r
    ensures r[0].0 <= x.0 <= r[|r| - 1].0
  {
  }

  /** The scan's first and last readings are an earliest and a latest one, and its count is exact. */
  lemma ScanFindsExtremes(signals: seq<Signal>, level: Signal -> Option<real>)
    ensures var r := Readings(Ordered(signals), level);
      |r| == CountReads(signals, level) && Extremes(signals, level, First(r), Last(r))
  {
    var r := Readings(Ordered(signals), level);
    OrderedReadingsAre(signals, level);
    assert Chronological(r) by {
      StableSortSorts(Timed(signals), NotLater);
      OrderedReadings(Ordered(signals), level);
    }
    if r != [] {
      assert r[0] in r && r[|r| - 1] in r;
      forall x | IsReading(signals, level, x) ensures r[0].0 <= x.0 <= r[|r| - 1].0 {
        OuterBounds(r, x);
      }
    }
  }

  /** The summary shows an earliest and a latest reading of each level and their exact counts. */
  lemma SummaryShowsExtremes(signals: seq<Signal>, tripStart: int, tripEnd: int, tank: Option<real>)
    ensures var s := Summarize(signals, tripStart, tripEnd, tank);
      && s.absCount == CountReads(signals, Absolute) && s.relCount == CountReads(signals, Relative)
      && (exists first, last :: Extremes(signals, Absolute, first, last)
            && s.startAbs == Value(first) && s.endAbs == Value(last)
            && (s.startAt.Some? <==> first.Some?) && (first.Some? ==> s.startAt == Some(first.value.0))
            && (s.endAt.Some? <==> last.Some?) && (last.Some? ==> s.endAt == Some(last.value.0)))
      && (exists first, last :: Extremes(signals, Relative, first, last)
            && s.startRel == Value(first) && s.endRel == Value(last))
  {
    ScanFindsExtremes(signals, Absolute);
    ScanFindsExtremes(signals, Relative);
    var abs, rel := Readings(Ordered(signals), Absolute), Readings(Ordered(signals), Relative);
    assert Extremes(signals, Absolute, First(abs), Last(abs));
    assert Extremes(signals, Relative, First(rel), Last(rel));
  }

  // ---------------------------------------------------------------- fuel arithmetic

  /** The rounded value lies within half a hundredth of the drop's share of the tank. */
  ghost predicate NearShare(liters: real, drop: real, tank: real) {
    var exact := drop / 100.0 * tank;
    exact - 0.005 <= liters <= exact + 0.005 && 0.0 <= liters <= tank + 0.005
  }

  lemma RelativeLitersNearShare(drop: real, tank: real)
    requires 0.0 <= drop <= 100.0 && tank > 0.0
    ensures NearShare(RelativeLiters(drop, tank), drop, tank)
  {
  }

  ghost predicate IsRefuel(s: Summary, tripMs: int) {
    && s.absCount >= 2 && s.startAbs.Some? && s.endAbs.Some?
    && s.endAbs.value - s.startAbs.value > 2.0 && tripMs >= 180_000
  }

  ghost predicate UsesRelative(s: Summary, tank: Option<real>) {
    && s.absCount == 0 && s.relCount >= 2 && tank.Some? && tank.value > 0.0
    && s.startRel.Some? && s.endRel.Some? && 0.0 <= s.startRel.value - s.endRel.value <= 100.0
  }

  /**
    Liters are reported exactly on two paths: two or more absolute readings without a refuel, or
    no absolute and two or more relative readings with a known tank and a drop of 0 to 100 percent.
    They are never negative: the former are max(0, first - last), the latter lie within 0.005 of
    the drop's share of the tank.
   */
  lemma LitersAreSound(signals: seq<Signal>, tripStart: int, tripEnd: int, tank: Option<real>)
    ensures var s := Summarize(signals, tripStart, tripEnd, tank);
      && (s.refuel <==> IsRefuel(s, tripEnd - tripStart))
      && (s.liters.Some? <==> (s.absCount >= 2 && !s.refuel) || UsesRelative(s, tank))
      && (s.liters.Some? ==> s.liters.value >= 0.0)
      && (s.confidence == Some(RelativeFallback) <==> UsesRelative(s, tank))
    ensures var s := Summarize(signals, tripStart, tripEnd, tank);
      s.absCount >= 2 && !s.refuel ==>
        && s.startAbs.Some? && s.endAbs.Some?
        && s.liters.value == if s.endAbs.value <= s.startAbs.value then s.startAbs.value - s.endAbs.value else 0.0
    ensures var s := Summarize(signals, tripStart, tripEnd, tank);
      UsesRelative(s, tank) ==> NearShare(s.liters.value, s.startRel.value - s.endRel.value, tank.value)
  {
    var s := Summarize(signals, tripStart, tripEnd, tank);
    if UsesRelative(s, tank) {
      RelativeLitersNearShare(s.startRel.value - s.endRel.value, tank.value);
    }
  }

  ghost predicate Within(at: Option<int>, end: int, ms: int) {
    at.Some? && -ms <= at.value - end <= ms
  }

  /**
    The confidence label classifies the result: HIGH and MEDIUM tell how close both readings lie
    to the two ends of the trip, and no label means that nothing usable was found.
   */
  lemma ConfidenceClassifies(signals: seq<Signal>, tripStart: int, tripEnd: int, tank: Option<real>)
    ensures var s := Summarize(signals, tripStart, tripEnd, tank);
      var measured := s.absCount >= 2 && !s.refuel;
      var near := Within(s.startAt, tripStart, 300_000) && Within(s.endAt, tripEnd, 300_000);
      var fair := Within(s.startAt, tripStart, 900_000) && Within(s.endAt, tripEnd, 900_000);
      && (s.confidence == Some(High) <==> measured && near)
      && (s.confidence == Some(Medium) <==> measured && fair && !near)
      && (s.confidence == Some(Low) <==> s.refuel || (measured && !fair))
      && (s.confidence == Some(SingleSample) <==> s.absCount == 1)
      && (s.confidence == None <==> s.absCount == 0 && !UsesRelative(s, tank))
  {
  }
}
