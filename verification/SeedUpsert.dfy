/**
  The compatibility seed run: an upsert per normalised key over a record table, and the
  replacement of each record's rows in a signal table.
*/
module SeedUpsert {
  import opened Options
  import opened Filtering
  import opened Search
  import opened Text

  // ---------------------------------------------------------------- normalised model keys

  /** Each run of white space becomes one hyphen. */
  function Hyphenate(s: string): string {
    if s == "" then ""
    else if !IsSpace(s[0]) then [s[0]] + Hyphenate(s[1..])
    else if |s| > 1 && IsSpace(s[1]) then Hyphenate(s[1..])
    else "-" + Hyphenate(s[1..])
  }

  predicate IsKeyChar(c: char) {
    'a' <= c <= 'z' || '0' <= c <= '9' || c == '-'
  }

  function KeepKeyChars(s: string): string {
    if s == "" then ""
    else if IsKeyChar(s[0]) then [s[0]] + KeepKeyChars(s[1..])
    else KeepKeyChars(s[1..])
  }

  function NormalizeModel(model: string): string {
    KeepKeyChars(Hyphenate(Trim(Lower(model))))
  }

  ghost predicate AllKeyChars(s: string) {
    forall i :: 0 <= i < |s| ==> IsKeyChar(s[i])
  }

  lemma {:induction false} KeepKeyCharsKeepsOnly(s: string)
    ensures AllKeyChars(KeepKeyChars(s))
  {
    if s != "" {
      KeepKeyCharsKeepsOnly(s[1..]);
    }
  }

  lemma {:induction false} KeyTextPassesFilters(s: string)
    requires AllKeyChars(s)
    ensures Hyphenate(s) == s && KeepKeyChars(s) == s
  {
    if s != "" {
      KeyTextPassesFilters(s[1..]);
      assert IsKeyChar(s[0]);
      assert s == [s[0]] + s[1..];
    }
  }

  lemma KeyTextIsTrimmedLower(s: string)
    requires AllKeyChars(s)
    ensures Lower(s) == s && Trim(s) == s
  {
  }

  /** Normalising twice is normalising once, and leaves only lower-case letters, digits and hyphens. */
  lemma NormalizeModelIsIdempotent(model: string)
    ensures AllKeyChars(NormalizeModel(model))
    ensures NormalizeModel(NormalizeModel(model)) == NormalizeModel(model)
  {
    KeepKeyCharsKeepsOnly(Hyphenate(Trim(Lower(model))));
    KeyTextIsTrimmedLower(NormalizeModel(model));
    KeyTextPassesFilters(NormalizeModel(model));
  }

  lemma {:induction false} KeepConcat(a: string, b: string)
    ensures KeepKeyChars(a + b) == KeepKeyChars(a) + KeepKeyChars(b)
  {
    if a == "" {
      assert a + b == b;
    } else {
      assert (a + b)[1..] == a[1..] + b;
      KeepConcat(a[1..], b);
    }
  }

  ghost predicate AllBlank(s: string) {
    forall i :: 0 <= i < |s| ==> Blank(s[i])
  }

  lemma {:induction false} BlankRunIsHyphen(gap: string, y: string)
    requires gap != "" && AllBlank(gap) && y != "" && !Blank(y[0])
    ensures Hyphenate(gap + y) == "-" + Hyphenate(y)
  {
    assert (gap + y)[1..] == gap[1..] + y;
    if |gap| == 1 {
      assert gap[1..] + y == y;
    } else {
      BlankRunIsHyphen(gap[1..], y);
    }
  }

  lemma {:induction false} HyphenateSplits(x: string, gap: string, y: string)
    requires x != "" && !Blank(x[|x| - 1]) && gap != "" && AllBlank(gap) && y != "" && !Blank(y[0])
    ensures Hyphenate(x + (gap + y)) == Hyphenate(x) + ("-" + Hyphenate(y))
  {
    var all := x + (gap + y);
    assert all[1..] == x[1..] + (gap + y);
    if |x| == 1 {
      assert x[1..] == "" && all[1..] == gap + y;
      BlankRunIsHyphen(gap, y);
    } else {
      HyphenateSplits(x[1..], gap, y);
    }
  }

  lemma LowerKeepsBlanks(s: string)
    ensures |Lower(s)| == |s| && forall i :: 0 <= i < |s| ==> Blank(Lower(s)[i]) == Blank(s[i]) == IsSpace(Lower(s)[i])
    ensures AllBlank(s) ==> Lower(s) == s
  {
  }

  lemma TrimOfParts(a: string, gap: string, b: string)
    requires a != "" && !IsSpace(a[|a| - 1]) && b != "" && !IsSpace(b[0])
    ensures Trim(a + (gap + b)) == Trim(a) + (gap + Trim(b))
    ensures Trim(a) != "" && !IsSpace(Trim(a)[|Trim(a)| - 1]) && Trim(b) != "" && !IsSpace(Trim(b)[0])
  {
    var front := TrimStart(a);
    TrimStartKeepsBack(a, gap + b);
    TrimEndKeepsFront(front, gap + b);
    assert TrimEnd(front) == front;
    TrimEndOfParts(gap, b);
    TrimEndKeepsLead(b);
    assert TrimStart(b) == b;
  }

  lemma TrimEndOfParts(gap: string, b: string)
    requires b != "" && !IsSpace(b[0])
    ensures TrimEnd(gap + b) == gap + TrimEnd(b)
  {
    var head := gap + [b[0]];
    assert gap + b == head + b[1..] && [b[0]] + b[1..] == b;
    TrimEndKeepsFront(head, b[1..]);
    TrimEndKeepsFront([b[0]], b[1..]);
    assert head + TrimEnd(b[1..]) == gap + ([b[0]] + TrimEnd(b[1..]));
  }

  /** Words of a model name are joined by one hyphen, however much white space lies between them. */
  lemma WordsAreHyphenated(a: string, gap: string, b: string)
    requires a != "" && !Blank(a[|a| - 1]) && gap != "" && AllBlank(gap) && b != "" && !Blank(b[0])
    ensures NormalizeModel(a + (gap + b)) == NormalizeModel(a) + ("-" + NormalizeModel(b))
  {
    var x, y := Lower(a), Lower(b);
    LowerKeepsBlanks(a);
    LowerKeepsBlanks(gap);
    LowerKeepsBlanks(b);
    LowerConcat(a, gap + b);
    LowerConcat(gap, b);
    TrimOfParts(x, gap, y);
    HyphenateSplits(Trim(x), gap, Trim(y));
    KeepConcat(Hyphenate(Trim(x)), "-" + Hyphenate(Trim(y)));
    KeepConcat("-", Hyphenate(Trim(y)));
    assert KeepKeyChars("-") == "-" by { assert "-"[1..] == ""; }
  }

  ghost predicate OneWord(s: string) {
    forall i :: 0 <= i < |s| ==> !Blank(s[i])
  }

  lemma {:induction false} WordIsNotHyphenated(w: string)
    requires OneWord(w)
    ensures Hyphenate(w) == w
  {
    if w != "" {
      WordIsNotHyphenated(w[1..]);
      assert w == [w[0]] + w[1..] && !Blank(w[0]);
    }
  }

  lemma WordIsFiltered(w: string)
    requires OneWord(w)
    ensures NormalizeModel(w) == KeepKeyChars(Lower(w))
  {
    LowerKeepsBlanks(w);
    assert TrimStart(Lower(w)) == Lower(w) && TrimEnd(Lower(w)) == Lower(w);
    WordIsNotHyphenated(Lower(w));
  }

  /** Of a word the lower-case letters, digits and hyphens stay, upper-case letters are lowered, the rest goes. */
  lemma WordIsSpelledOut(c: char, w: string)
    requires !Blank(c) && OneWord(w)
    ensures NormalizeModel([c] + w) ==
      (if 'A' <= c <= 'Z' then [(c as int + 32) as char]
       else if 'a' <= c <= 'z' || '0' <= c <= '9' || c == '-' then [c]
       else "") + NormalizeModel(w)
    ensures NormalizeModel("") == ""
  {
    WordIsFiltered([c] + w);
    WordIsFiltered(w);
    WordIsFiltered("");
    LowerConcat([c], w);
    KeepConcat(Lower([c]), Lower(w));
    assert Lower([c])[1..] == "";
  }

  /** White space around a model name is ignored. */
  lemma OuterSpaceIsIgnored(c: char, model: string)
    requires Blank(c)
    ensures NormalizeModel([c] + model) == NormalizeModel(model) == NormalizeModel(model + [c])
  {
    var s := Lower(model);
    LowerConcat([c], model);
    LowerConcat(model, [c]);
    assert Lower([c]) == [c];
    assert ([c] + s)[1..] == s && (s + [c])[..|s|] == s;
    TrimIgnoresLast(s, c);
  }

  lemma {:induction false} TrimIgnoresLast(s: string, c: char)
    requires IsSpace(c)
    ensures Trim(s + [c]) == Trim(s)
  {
    if s == "" {
      assert s + [c] == [c] && [c][1..] == "";
    } else if IsSpace(s[0]) {
      assert (s + [c])[1..] == s[1..] + [c];
      TrimIgnoresLast(s[1..], c);
    } else {
      assert (s + [c])[..|s|] == s;
    }
  }

  // ---------------------------------------------------------------- tables

  datatype SignalSeed = SignalSeed(
    app: string,
    signalKey: string,
    signalLabel: string,
    signalGroup: string,
    required: bool,
    coverage: string,
    confidence: string,
    notes: Option<string>)

  datatype Details = Details(
    brandDisplayName: string,
    modelDisplayName: string,
    supportFromText: Option<string>,
    eligibilityMode: string,
    onboardingMode: string,
    healthAppStatus: Option<string>,
    telemetryAppStatus: Option<string>,
    overallStatus: Option<string>,
    supportSource: Option<string>,
    confidence: string,
    notes: Option<string>)

  datatype RecordSeed = RecordSeed(
    brand: string,
    model: string,
    modelYearFrom: Option<int>,
    modelYearTo: Option<int>,
    details: Details,
    signals: seq<SignalSeed>)

  datatype Key = Key(brand: string, model: string, modelYearFrom: Option<int>, modelYearTo: Option<int>)

  datatype RecordData = RecordData(key: Key, details: Details, lastReviewedAt: string)

  datatype Record = Record(id: nat, data: RecordData)

  datatype SignalRow = SignalRow(recordId: nat, signal: SignalSeed, displayOrder: nat)

  datatype Tables = Tables(records: seq<Record>, signals: seq<SignalRow>, nextId: nat)

  /** The run's environment: the shared brand normalisation and the review date. */
  datatype Env = Env(brandOf: string -> string, reviewedAt: string)

  function KeyOf(env: Env, seed: RecordSeed): Key {
    Key(env.brandOf(seed.brand), NormalizeModel(seed.model), seed.modelYearFrom, seed.modelYearTo)
  }

  function DataOf(env: Env, seed: RecordSeed): RecordData {
    RecordData(KeyOf(env, seed), seed.details, env.reviewedAt)
  }

  /** The position of the first record with a key, or the number of records. */
  function Find(records: seq<Record>, key: Key): (i: nat)
    ensures i <= |records|
    ensures i < |records| ==> records[i].data.key == key
    ensures forall j :: 0 <= j < i ==> records[j].data.key != key
  {
    IndexOfKey(records, (record: Record) => record.data.key, key)
  }

  function NotOfRecord(id: nat): SignalRow -> bool {
    (row: SignalRow) => row.recordId != id
  }

  function WithoutRecord(rows: seq<SignalRow>, id: nat): seq<SignalRow> {
    Filter(rows, NotOfRecord(id))
  }

  function RowsFor(id: nat, signals: seq<SignalSeed>): seq<SignalRow> {
    seq(|signals|, i requires 0 <= i < |signals| => SignalRow(id, signals[i], i))
  }

  function Upsert(t: Tables, env: Env, seed: RecordSeed): Tables {
    var i := Find(t.records, KeyOf(env, seed));
    var data := DataOf(env, seed);
    if i < |t.records| then
      var id := t.records[i].id;
      Tables(t.records[i := Record(id, data)], WithoutRecord(t.signals, id) + RowsFor(id, seed.signals), t.nextId)
    else
      Tables(t.records + [Record(t.nextId, data)],
             WithoutRecord(t.signals, t.nextId) + RowsFor(t.nextId, seed.signals), t.nextId + 1)
  }

  function UpsertAll(t: Tables, env: Env, seeds: seq<RecordSeed>): Tables {
    if seeds == [] then t else Upsert(UpsertAll(t, env, seeds[..|seeds| - 1]), env, seeds[|seeds| - 1])
  }

  class CompatibilityStore {
    var records: seq<Record>
    var signals: seq<SignalRow>
    var nextId: nat

    ghost function State(): Tables
      reads this
    {
      Tables(records, signals, nextId)
    }

    /** Creates or updates the seed's record and replaces its signal rows. */
    method UpsertOne(env: Env, seed: RecordSeed) returns (existed: bool)
      modifies this
      ensures State() == Upsert(old(State()), env, seed)
      ensures |records| == |old(records)| + (if existed then 0 else 1)
    {
      var i := Find(records, KeyOf(env, seed));
      var data := DataOf(env, seed);
      existed := i < |records|;
      var id;
      if existed {
        id := records[i].id;
        records := records[i := Record(id, data)];
      } else {
        id := nextId;
        records, nextId := records + [Record(id, data)], nextId + 1;
      }
      signals := WithoutRecord(signals, id);
      if |seed.signals| > 0 {
        signals := signals + RowsFor(id, seed.signals);
      }
    }

    /** The seed loop with its three counters. */
    method RunSeed(env: Env, seeds: seq<RecordSeed>) returns (inserted: nat, updated: nat, signalRows: nat)
      modifies this
      ensures State() == UpsertAll(old(State()), env, seeds)
      ensures inserted + updated == |seeds| && inserted == |records| - |old(records)|
      ensures signalRows == SeededSignals(seeds)
    {
      inserted, updated, signalRows := 0, 0, 0;
      for n := 0 to |seeds|
        invariant State() == UpsertAll(old(State()), env, seeds[..n])
        invariant inserted + updated == n && inserted == |records| - |old(records)|
        invariant signalRows == SeededSignals(seeds[..n])
      {
        assert seeds[..n + 1][..n] == seeds[..n];
        var existed := UpsertOne(env, seeds[n]);
        if existed { updated := updated + 1; } else { inserted := inserted + 1; }
        signalRows := signalRows + |seeds[n].signals|;
      }
      assert seeds[..|seeds|] == seeds;
    }
  }

  ghost function SeededSignals(seeds: seq<RecordSeed>): nat {
    if seeds == [] then 0 else SeededSignals(seeds[..|seeds| - 1]) + |seeds[|seeds| - 1].signals|
  }

  // ---------------------------------------------------------------- what a run establishes

  /** At most one record per key and per id, and generated ids are new. */
  ghost predicate Keyed(t: Tables) {
    && (forall i, j :: 0 <= i < j < |t.records| ==> t.records[i].data.key != t.records[j].data.key)
    && (forall i, j :: 0 <= i < j < |t.records| ==> t.records[i].id != t.records[j].id)
    && (forall i :: 0 <= i < |t.records| ==> t.records[i].id < t.nextId)
  }

  ghost function Lookup(t: Tables, key: Key): Option<Record> {
    var i := Find(t.records, key);
    if i < |t.records| then Some(t.records[i]) else None
  }

  ghost function OfRecord(id: nat): SignalRow -> bool {
    (row: SignalRow) => row.recordId == id
  }

  ghost function SignalsOf(rows: seq<SignalRow>, id: nat): seq<SignalRow> {
    Filter(rows, OfRecord(id))
  }

  /** The last seed of the list with a given key decides. */
  ghost function LastFor(env: Env, seeds: seq<RecordSeed>, key: Key): Option<RecordSeed> {
    if seeds == [] then None
    else if KeyOf(env, seeds[|seeds| - 1]) == key then Some(seeds[|seeds| - 1])
    else LastFor(env, seeds[..|seeds| - 1], key)
  }

  lemma ReplacedSignals(rows: seq<SignalRow>, owner: nat, signals: seq<SignalSeed>, id: nat)
    ensures SignalsOf(WithoutRecord(rows, owner) + RowsFor(owner, signals), id) ==
      if id == owner then RowsFor(owner, signals) else SignalsOf(rows, id)
  {
    var kept, created := WithoutRecord(rows, owner), RowsFor(owner, signals);
    FilterConcat(kept, created, OfRecord(id));
    if id == owner {
      FilterElements(rows, NotOfRecord(owner));
      FilterDropsAll(kept, OfRecord(id));
      FilterKeepsAll(created, OfRecord(id));
    } else {
      FilterTwice(rows, NotOfRecord(owner), OfRecord(id), OfRecord(id));
      FilterDropsAll(created, OfRecord(id));
    }
  }

  /** The record of a key with its signals; ids are stable across runs. */
  ghost predicate Holds(t: Tables, env: Env, key: Key, seed: RecordSeed) {
    var r := Lookup(t, key);
    && r.Some? && r.value.data.details == seed.details && r.value.data.lastReviewedAt == env.reviewedAt
    && r.value.data.key == key
    && key == Key(env.brandOf(seed.brand), NormalizeModel(seed.model), seed.modelYearFrom, seed.modelYearTo)
    && var rows := SignalsOf(t.signals, r.value.id);
      |rows| == |seed.signals| && forall k :: 0 <= k < |rows| ==> rows[k] == SignalRow(r.value.id, seed.signals[k], k)
  }

  ghost predicate SameEntry(s: Tables, t: Tables, key: Key) {
    && Lookup(t, key) == Lookup(s, key)
    && (Lookup(s, key).Some? ==>
          SignalsOf(t.signals, Lookup(s, key).value.id) == SignalsOf(s.signals, Lookup(s, key).value.id))
  }

  lemma FindIs(records: seq<Record>, i: nat)
    requires i < |records|
    requires forall j, k :: 0 <= j < k < |records| ==> records[j].data.key != records[k].data.key
    ensures Find(records, records[i].data.key) == i
  {
  }

  lemma UpsertKeepsKeyed(t: Tables, env: Env, seed: RecordSeed)
    requires Keyed(t)
    ensures Keyed(Upsert(t, env, seed))
  {
  }

  lemma UpsertHoldsItsSeed(t: Tables, env: Env, seed: RecordSeed)
    requires Keyed(t)
    ensures Holds(Upsert(t, env, seed), env, KeyOf(env, seed), seed)
  {
    var i, u := Find(t.records, KeyOf(env, seed)), Upsert(t, env, seed);
    UpsertKeepsKeyed(t, env, seed);
    FindIs(u.records, i);
    ReplacedSignals(t.signals, u.records[i].id, seed.signals, u.records[i].id);
  }

  lemma UpsertKeepsOthers(t: Tables, env: Env, seed: RecordSeed, key: Key)
    requires Keyed(t) && key != KeyOf(env, seed)
    ensures SameEntry(t, Upsert(t, env, seed), key)
  {
    var i, j, u := Find(t.records, KeyOf(env, seed)), Find(t.records, key), Upsert(t, env, seed);
    UpsertKeepsKeyed(t, env, seed);
    if j < |t.records| {
      assert u.records[j] == t.records[j];
      FindIs(u.records, j);
      ReplacedSignals(t.signals, u.records[i].id, seed.signals, t.records[j].id);
    }
  }

  /**
    A seed run keeps keys unique; every seeded key ends with its last seed's data and exactly that
    seed's signals in display order 0..n-1, and every other record and its signals are unchanged.
   */
  lemma {:induction false} RunEstablishesSeeds(t: Tables, env: Env, seeds: seq<RecordSeed>, key: Key)
    requires Keyed(t)
    ensures var u := UpsertAll(t, env, seeds);
      && Keyed(u)
      && match LastFor(env, seeds, key)
         case Some(seed) => Holds(u, env, key, seed)
         case None => SameEntry(t, u, key)
  {
    if seeds != [] {
      var before, seed := UpsertAll(t, env, seeds[..|seeds| - 1]), seeds[|seeds| - 1];
      RunEstablishesSeeds(t, env, seeds[..|seeds| - 1], key);
      UpsertKeepsKeyed(before, env, seed);
      if KeyOf(env, seed) == key {
        UpsertHoldsItsSeed(before, env, seed);
      } else {
        UpsertKeepsOthers(before, env, seed, key);
      }
    }
  }

  // ---------------------------------------------------------------- the second run

  ghost predicate HasAll(t: Tables, env: Env, seeds: seq<RecordSeed>) {
    forall i :: 0 <= i < |seeds| ==> Lookup(t, KeyOf(env, seeds[i])).Some?
  }

  /** When every seeded key exists, a run only updates in place: ids and keys stay where they are. */
  lemma {:induction false} RunInPlace(t: Tables, env: Env, seeds: seq<RecordSeed>)
    requires Keyed(t) && HasAll(t, env, seeds)
    ensures var u := UpsertAll(t, env, seeds);
      && |u.records| == |t.records| && u.nextId == t.nextId
      && (forall i :: 0 <= i < |t.records| ==>
            u.records[i].id == t.records[i].id && u.records[i].data.key == t.records[i].data.key)
  {
    if seeds != [] {
      var front, key := seeds[..|seeds| - 1], KeyOf(env, seeds[|seeds| - 1]);
      assert HasAll(t, env, front) by {
        assert forall i :: 0 <= i < |front| ==> front[i] == seeds[i];
      }
      RunInPlace(t, env, front);
      var i := Find(t.records, key);
      assert UpsertAll(t, env, front).records[i].data.key == key;
    }
  }

  lemma {:induction false} LastForExists(env: Env, seeds: seq<RecordSeed>, i: nat)
    requires i < |seeds|
    ensures LastFor(env, seeds, KeyOf(env, seeds[i])).Some?
  {
    if i < |seeds| - 1 {
      LastForExists(env, seeds[..|seeds| - 1], i);
    }
  }

  /**
    Running the same seeds again inserts nothing and leaves every record, id included, and every
    record's signals as the first run left them.
   */
  lemma SecondRunChangesNothing(t: Tables, env: Env, seeds: seq<RecordSeed>)
    requires Keyed(t)
    ensures var once := UpsertAll(t, env, seeds);
      var twice := UpsertAll(once, env, seeds);
      && twice.records == once.records && twice.nextId == once.nextId
      && (forall i :: 0 <= i < |once.records| ==>
            SignalsOf(twice.signals, once.records[i].id) == SignalsOf(once.signals, once.records[i].id))
  {
    var once := UpsertAll(t, env, seeds);
    var twice := UpsertAll(once, env, seeds);
    forall i | 0 <= i < |seeds| ensures Lookup(once, KeyOf(env, seeds[i])).Some? {
      RunEstablishesSeeds(t, env, seeds, KeyOf(env, seeds[i]));
      LastForExists(env, seeds, i);
    }
    RunEstablishesSeeds(t, env, seeds, Key("", "", None, None));
    RunInPlace(once, env, seeds);
    forall i | 0 <= i < |once.records|
      ensures twice.records[i] == once.records[i]
      ensures SignalsOf(twice.signals, once.records[i].id) == SignalsOf(once.signals, once.records[i].id)
    {
      var key := once.records[i].data.key;
      RunEstablishesSeeds(t, env, seeds, key);
      RunEstablishesSeeds(once, env, seeds, key);
      FindIs(once.records, i);
      FindIs(twice.records, i);
    }
  }
}
