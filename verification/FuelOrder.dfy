/**
  When the fuel summary depends on the order in which signals arrive: exactly when two readings
  with the same earliest, or the same latest, time differ in value.
*/
module FuelOrder {
  import opened Options
  import opened Filtering
  import opened Sorting
  import opened FuelSummary

  /** Simultaneous readings of different value are neither the earliest nor the latest ones. */
  ghost predicate NoBoundaryTies(signals: seq<Signal>, level: Signal -> Option<real>) {
    forall a, b :: IsReading(signals, level, a) && IsReading(signals, level, b) && a.0 == b.0 && a.1 != b.1 ==>
      HasEarlier(signals, level, a) && HasLater(signals, level, a)
  }

  ghost predicate HasEarlier(signals: seq<Signal>, level: Signal -> Option<real>, a: Reading) {
    exists r :: IsReading(signals, level, r) && r.0 < a.0
  }

  ghost predicate HasLater(signals: seq<Signal>, level: Signal -> Option<real>, a: Reading) {
    exists r :: IsReading(signals, level, r) && a.0 < r.0
  }

  lemma ReadingsSurvivePermutation(s: seq<Signal>, t: seq<Signal>, level: Signal -> Option<real>, r: Reading)
    requires multiset(s) == multiset(t) && IsReading(s, level, r)
    ensures IsReading(t, level, r)
  {
    var i :| 0 <= i < |s| && Reads(s[i], level) && r == ReadingOf(s[i], level);
    assert s[i] in multiset(t);
    var j :| 0 <= j < |t| && t[j] == s[i];
  }

  lemma {:induction false} CountSurvivesPermutation(s: seq<Signal>, t: seq<Signal>, level: Signal -> Option<real>)
    requires multiset(s) == multiset(t)
    ensures |Readings(Ordered(s), level)| == |Readings(Ordered(t), level)|
  {
    ScanFindsExtremes(s, level);
    ScanFindsExtremes(t, level);
    CountReadsOfPermutation(s, t, level);
  }

  lemma {:induction false} CountReadsConcat(a: seq<Signal>, b: seq<Signal>, level: Signal -> Option<real>)
    ensures CountReads(a + b, level) == CountReads(a, level) + CountReads(b, level)
  {
    if a == [] {
      assert a + b == b;
    } else {
      assert (a + b)[1..] == a[1..] + b;
      CountReadsConcat(a[1..], b, level);
    }
  }

  lemma {:induction false} CountReadsOfPermutation(s: seq<Signal>, t: seq<Signal>, level: Signal -> Option<real>)
    requires multiset(s) == multiset(t)
    ensures CountReads(s, level) == CountReads(t, level)
  {
    if s == [] {
      assert |multiset(t)| == 0;
    } else {
      var a, b := SplitAtHead(s, t);
      CountReadsOfPermutation(s[1..], a + b, level);
      CountReadsConcat(a, [s[0]] + b, level);
      CountReadsConcat([s[0]], b, level);
      CountReadsConcat([s[0]], s[1..], level);
      CountReadsConcat(a, b, level);
      assert s == [s[0]] + s[1..];
    }
  }

  /** An earliest and a latest reading are determined up to ties at the two ends. */
  lemma ExtremesAreUnique(signals: seq<Signal>, level: Signal -> Option<real>, a: Reading, b: Reading)
    requires NoBoundaryTies(signals, level) && IsReading(signals, level, a) && IsReading(signals, level, b)
    requires (!HasEarlier(signals, level, a) && !HasEarlier(signals, level, b))
          || (!HasLater(signals, level, a) && !HasLater(signals, level, b))
    ensures a == b
  {
  }

  lemma SameExtremes(s: seq<Signal>, t: seq<Signal>, level: Signal -> Option<real>)
    requires multiset(s) == multiset(t) && NoBoundaryTies(s, level)
    ensures var a, b := Readings(Ordered(s), level), Readings(Ordered(t), level);
      |a| == |b| && First(a) == First(b) && Last(a) == Last(b)
  {
    var a, b := Readings(Ordered(s), level), Readings(Ordered(t), level);
    CountSurvivesPermutation(s, t, level);
    if a != [] {
      OuterReadings(s, s, level);
      OuterReadings(s, t, level);
      ExtremesAreUnique(s, level, a[0], b[0]);
      ExtremesAreUnique(s, level, a[|a| - 1], b[|b| - 1]);
    }
  }

  /** The outer readings of any order of arrival are earliest and latest ones. */
  lemma OuterReadings(s: seq<Signal>, t: seq<Signal>, level: Signal -> Option<real>)
    requires multiset(s) == multiset(t) && Readings(Ordered(t), level) != []
    ensures var r := Readings(Ordered(t), level);
      && IsReading(s, level, r[0]) && !HasEarlier(s, level, r[0])
      && IsReading(s, level, r[|r| - 1]) && !HasLater(s, level, r[|r| - 1])
  {
    var r := Readings(Ordered(t), level);
    ScanFindsExtremes(t, level);
    ReadingsSurvivePermutation(t, s, level, r[0]);
    ReadingsSurvivePermutation(t, s, level, r[|r| - 1]);
    forall x | IsReading(s, level, x) ensures r[0].0 <= x.0 <= r[|r| - 1].0 {
      ReadingsSurvivePermutation(s, t, level, x);
    }
  }

  // ---------------------------------------------------------------- ties do matter

  /** `x` stands in `s` with no reading of the level before it. */
  ghost predicate Leads(s: seq<Signal>, level: Signal -> Option<real>, x: Signal, i: nat) {
    i < |s| && s[i] == x && Readings(s[..i], level) == []
  }

  lemma InsertKeepsLead(s: seq<Signal>, y: Signal, level: Signal -> Option<real>, x: Signal, i: nat) returns (j: nat)
    requires Leads(s, level, x, i)
    requires level(y).Some? ==> NotLater(x, y)
    ensures Leads(Insert(s, y, NotLater), level, x, j)
  {
    var k := InsertSplits(s, y, NotLater);
    var r := Insert(s, y, NotLater);
    if i < k {
      j := i;
      assert r[..i] == s[..i];
    } else {
      assert !NotLater(s[i], y);
      j := i + 1;
      var a, b := s[..k], s[k..i];
      assert s[..i] == a + b;
      assert r[..i + 1] == a + ([y] + b);
      SilentInsertion(a, y, b, level);
    }
  }

  lemma SilentInsertion(a: seq<Signal>, y: Signal, b: seq<Signal>, level: Signal -> Option<real>)
    requires level(y).None? && Readings(a + b, level) == []
    ensures Readings(a + ([y] + b), level) == []
  {
    ReadingsConcat(a, b, level);
    ReadingsConcat(a, [y] + b, level);
    ReadingsConcat([y], b, level);
    ReadingsOfOne(y, level);
  }

  lemma {:induction false} SortKeepsLead(x: Signal, rest: seq<Signal>, level: Signal -> Option<real>) returns (j: nat)
    requires forall i :: 0 <= i < |rest| && level(rest[i]).Some? ==> NotLater(x, rest[i])
    ensures Leads(StableSort([x] + rest, NotLater), level, x, j)
  {
    var s := [x] + rest;
    if rest == [] {
      assert s[..|s| - 1] == [];
      assert StableSort(s, NotLater) == [x];
      j := 0;
    } else {
      assert s[..|s| - 1] == [x] + rest[..|rest| - 1];
      var i := SortKeepsLead(x, rest[..|rest| - 1], level);
      j := InsertKeepsLead(StableSort(s[..|s| - 1], NotLater), s[|s| - 1], level, x, i);
    }
  }

  /** An earliest reading is the one shown when its signal arrives first. */
  lemma ArrivingFirstWins(x: Signal, rest: seq<Signal>, level: Signal -> Option<real>)
    requires Reads(x, level) && !HasEarlier([x] + rest, level, ReadingOf(x, level))
    ensures First(Readings(Ordered([x] + rest), level)) == Some(ReadingOf(x, level))
  {
    var timed := Timed(rest);
    FilterConcat([x], rest, HasTime);
    FilterElements(rest, HasTime);
    assert Timed([x]) == [x];
    forall i | 0 <= i < |timed| && level(timed[i]).Some? ensures NotLater(x, timed[i]) {
      var j :| 0 <= j < |rest| && rest[j] == timed[i];
      assert ([x] + rest)[j + 1] == timed[i];
      assert IsReading([x] + rest, level, ReadingOf(timed[i], level));
    }
    var i := SortKeepsLead(x, timed, level);
    var s := Ordered([x] + rest);
    assert s == s[..i] + ([x] + s[i + 1..]);
    ReadingsConcat(s[..i], [x] + s[i + 1..], level);
    ReadingsConcat([x], s[i + 1..], level);
    ReadingsOfOne(x, level);
  }

  lemma {:induction false} NoReadings(s: seq<Signal>, level: Signal -> Option<real>)
    requires forall i :: 0 <= i < |s| ==> level(s[i]).None?
    ensures Readings(s, level) == []
  {
    if s != [] {
      NoReadings(s[..|s| - 1], level);
    }
  }

  /** No signal of `rest` sorted behind a latest reading `x` has a reading. */
  lemma NothingReadsBehind(x: Signal, rest: seq<Signal>, level: Signal -> Option<real>, y: Signal)
    requires Reads(x, level) && !HasLater(rest + [x], level, ReadingOf(x, level))
    requires y in Timed(rest) && !NotLater(y, x)
    ensures level(y).None?
  {
    FilterElements(rest, HasTime);
    var j :| 0 <= j < |rest| && rest[j] == y;
    assert (rest + [x])[j] == y;
    if level(y).Some? {
      assert IsReading(rest + [x], level, ReadingOf(y, level));
    }
  }

  /** A latest reading is the one shown when its signal arrives last. */
  lemma ArrivingLastWins(x: Signal, rest: seq<Signal>, level: Signal -> Option<real>)
    requires Reads(x, level) && !HasLater(rest + [x], level, ReadingOf(x, level))
    ensures Last(Readings(Ordered(rest + [x]), level)) == Some(ReadingOf(x, level))
  {
    var timed := Timed(rest);
    FilterConcat(rest, [x], HasTime);
    assert Timed([x]) == [x];
    assert (timed + [x])[..|timed|] == timed;
    var s := StableSort(timed, NotLater);
    var k := InsertSplits(s, x, NotLater);
    assert Ordered(rest + [x]) == s[..k] + ([x] + s[k..]);
    assert multiset(s) == multiset(timed) by { StableSortSorts(timed, NotLater); }
    forall i | 0 <= i < |s[k..]| ensures level(s[k..][i]).None? {
      assert s[k + i] in multiset(timed);
      NothingReadsBehind(x, rest, level, s[k + i]);
    }
    NoReadings(s[k..], level);
    LastOfSplit(s[..k], x, s[k..], level);
  }

  lemma LastOfSplit(a: seq<Signal>, x: Signal, b: seq<Signal>, level: Signal -> Option<real>)
    requires Reads(x, level) && Readings(b, level) == []
    ensures Last(Readings(a + ([x] + b), level)) == Some(ReadingOf(x, level))
  {
    ReadingsConcat(a, [x] + b, level);
    ReadingsConcat([x], b, level);
    ReadingsOfOne(x, level);
  }

  lemma MoveOut(signals: seq<Signal>, i: nat) returns (rest: seq<Signal>)
    requires i < |signals|
    ensures multiset([signals[i]] + rest) == multiset(signals) == multiset(rest + [signals[i]])
  {
    rest := signals[..i] + signals[i + 1..];
    assert signals == signals[..i] + ([signals[i]] + signals[i + 1..]);
  }

  lemma MoveToFront(signals: seq<Signal>, level: Signal -> Option<real>, a: Reading) returns (p: seq<Signal>)
    requires IsReading(signals, level, a) && !HasEarlier(signals, level, a)
    ensures multiset(p) == multiset(signals) && First(Readings(Ordered(p), level)) == Some(a)
  {
    var i :| 0 <= i < |signals| && Reads(signals[i], level) && a == ReadingOf(signals[i], level);
    var rest := MoveOut(signals, i);
    p := [signals[i]] + rest;
    if HasEarlier(p, level, a) {
      var r :| IsReading(p, level, r) && r.0 < a.0;
      ReadingsSurvivePermutation(p, signals, level, r);
    }
    ArrivingFirstWins(signals[i], rest, level);
  }

  lemma MoveToBack(signals: seq<Signal>, level: Signal -> Option<real>, a: Reading) returns (p: seq<Signal>)
    requires IsReading(signals, level, a) && !HasLater(signals, level, a)
    ensures multiset(p) == multiset(signals) && Last(Readings(Ordered(p), level)) == Some(a)
  {
    var i :| 0 <= i < |signals| && Reads(signals[i], level) && a == ReadingOf(signals[i], level);
    var rest := MoveOut(signals, i);
    p := rest + [signals[i]];
    if HasLater(p, level, a) {
      var r :| IsReading(p, level, r) && a.0 < r.0;
      ReadingsSurvivePermutation(p, signals, level, r);
    }
    ArrivingLastWins(signals[i], rest, level);
  }

  /** The summary is the same for every order of arrival. */
  ghost predicate OrderIrrelevant(signals: seq<Signal>, tripStart: int, tripEnd: int, tank: Option<real>) {
    forall p :: multiset(p) == multiset(signals) ==>
      Summarize(p, tripStart, tripEnd, tank) == Summarize(signals, tripStart, tripEnd, tank)
  }

  lemma BoundaryTieShows(signals: seq<Signal>, level: Signal -> Option<real>, a: Reading, b: Reading)
    returns (p: seq<Signal>, q: seq<Signal>)
    requires IsReading(signals, level, a) && IsReading(signals, level, b) && a.0 == b.0 && a.1 != b.1
    requires !HasEarlier(signals, level, a) || !HasLater(signals, level, a)
    ensures multiset(p) == multiset(signals) == multiset(q)
    ensures var r, s := Readings(Ordered(p), level), Readings(Ordered(q), level);
      Value(First(r)) != Value(First(s)) || Value(Last(r)) != Value(Last(s))
  {
    if !HasEarlier(signals, level, a) {
      p := MoveToFront(signals, level, a);
      q := MoveToFront(signals, level, b);
    } else {
      p := MoveToBack(signals, level, a);
      q := MoveToBack(signals, level, b);
    }
  }

  lemma SummaryShowsValues(signals: seq<Signal>, tripStart: int, tripEnd: int, tank: Option<real>)
    ensures var s := Summarize(signals, tripStart, tripEnd, tank);
      var abs, rel := Readings(Ordered(signals), Absolute), Readings(Ordered(signals), Relative);
      && s.startAbs == Value(First(abs)) && s.endAbs == Value(Last(abs))
      && s.startRel == Value(First(rel)) && s.endRel == Value(Last(rel))
  {
  }

  lemma OrderIrrelevantNeedsNoTies(signals: seq<Signal>, tripStart: int, tripEnd: int, tank: Option<real>,
                                   level: Signal -> Option<real>)
    requires OrderIrrelevant(signals, tripStart, tripEnd, tank)
    requires level == Absolute || level == Relative
    ensures NoBoundaryTies(signals, level)
  {
    forall a, b | IsReading(signals, level, a) && IsReading(signals, level, b) && a.0 == b.0 && a.1 != b.1
      ensures HasEarlier(signals, level, a) && HasLater(signals, level, a)
    {
      if !HasEarlier(signals, level, a) || !HasLater(signals, level, a) {
        var p, q := BoundaryTieShows(signals, level, a, b);
        SummaryShowsValues(p, tripStart, tripEnd, tank);
        SummaryShowsValues(q, tripStart, tripEnd, tank);
        assert false;
      }
    }
  }

  /**
    The summary is the same for every order of arrival exactly when, for both levels, readings
    with the same earliest or the same latest time agree in value.
   */
  lemma OrderIrrelevantIff(signals: seq<Signal>, tripStart: int, tripEnd: int, tank: Option<real>)
    ensures OrderIrrelevant(signals, tripStart, tripEnd, tank) <==>
      NoBoundaryTies(signals, Absolute) && NoBoundaryTies(signals, Relative)
  {
    if OrderIrrelevant(signals, tripStart, tripEnd, tank) {
      OrderIrrelevantNeedsNoTies(signals, tripStart, tripEnd, tank, Absolute);
      OrderIrrelevantNeedsNoTies(signals, tripStart, tripEnd, tank, Relative);
    }
    if NoBoundaryTies(signals, Absolute) && NoBoundaryTies(signals, Relative) {
      forall p | multiset(p) == multiset(signals)
        ensures Summarize(p, tripStart, tripEnd, tank) == Summarize(signals, tripStart, tripEnd, tank)
      {
        SameExtremes(signals, p, Absolute);
        SameExtremes(signals, p, Relative);
      }
    }
  }

  ghost predicate DistinctTimestamps(signals: seq<Signal>) {
    forall i, j :: 0 <= i < j < |signals| && signals[i].timestamp.Some? ==> signals[i].timestamp != signals[j].timestamp
  }

  lemma DistinctTimestampsHaveNoTies(signals: seq<Signal>, level: Signal -> Option<real>)
    requires DistinctTimestamps(signals)
    ensures NoBoundaryTies(signals, level)
  {
  }

  /** In particular, distinct timestamps make the order of arrival irrelevant. */
  lemma DistinctTimestampsSuffice(signals: seq<Signal>, tripStart: int, tripEnd: int, tank: Option<real>)
    requires DistinctTimestamps(signals)
    ensures OrderIrrelevant(signals, tripStart, tripEnd, tank)
  {
    DistinctTimestampsHaveNoTies(signals, Absolute);
    DistinctTimestampsHaveNoTies(signals, Relative);
    OrderIrrelevantIff(signals, tripStart, tripEnd, tank);
  }
}
