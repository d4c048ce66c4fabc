/**
  The per-trip backfill transaction: delete and recreate a trip's telemetry events, then write
  the counters and the fuel values that go with them.
*/
module TripBackfill {
  import opened Options
  import opened Filtering
  import opened DrivingEventDedupe
  import opened EventNames
  import FuelSummary

  // ---------------------------------------------------------------- tables

  /** `counterValue` is the number found in the provider's metadata, if any. */
  datatype RawEvent = RawEvent(name: Option<string>, recordedAt: int, source: string, counterValue: Option<real>)

  datatype Source = TelemetryEvents | OtherSource

  datatype EventRow = EventRow(
    id: nat,
    vehicleId: string,
    organizationId: string,
    tripId: string,
    eventType: DrivingEventType,
    source: Source,
    recordedAt: int,
    severity: real,
    name: Option<string>,
    nameSource: string,
    counterValue: Option<real>)

  datatype Counters = Counters(
    hardBrakingCount: nat,
    hardAccelerationCount: nat,
    totalAccelerationEvents: nat,
    hardAccelerationEvents: nat,
    totalBrakingEvents: nat,
    hardBrakingEvents: nat,
    fullBrakingEvents: nat,
    corneringEvents: nat,
    abuseEvents: nat,
    abuseEventCount: nat,
    speedingEvents: nat,
    harshBrakeCount: nat,
    harshAccelCount: nat,
    harshCornerCount: nat,
    brakingEventCount: nat,
    accelerationEventCount: nat)

  datatype FuelLabel = RefuelDetected | Measured(confidence: FuelSummary.Confidence)

  datatype TripRow = TripRow(
    startTime: int,
    endTime: int,
    distanceKm: Option<real>,
    counters: Counters,
    fuelUsedLiters: Option<real>,
    avgConsumption: Option<real>,
    fuelConfidence: Option<FuelLabel>,
    enrichedAt: Option<int>)

  datatype Vehicle = Vehicle(id: string, organizationId: string, isElectric: bool, tank: Option<real>)

  datatype Database = Database(events: seq<EventRow>, trips: map<string, TripRow>, nextId: nat)

  function Severity(t: DrivingEventType): real {
    match t
    case HarshBraking => 0.6
    case ExtremeBraking => 0.9
    case HarshAcceleration => 0.6
    case HarshCornering => 0.5
    case Speeding => 0.4
    case IdleExcessive => 0.2
    case UnmappedProviderEvent => 0.3
    case SafetyCollision => 1.0
  }

  // ---------------------------------------------------------------- one trip

  datatype MappedEvent = MappedEvent(eventType: DrivingEventType, raw: RawEvent)

  function Mapped(raw: seq<RawEvent>): seq<MappedEvent> {
    if raw == [] then []
    else
      var t := NormalizeEventName(raw[0].name.GetOr(""));
      if t.Some? then [MappedEvent(t.value, raw[0])] + Mapped(raw[1..]) else Mapped(raw[1..])
  }

  function CountType(mapped: seq<MappedEvent>, t: DrivingEventType): nat {
    if mapped == [] then 0 else (if mapped[0].eventType == t then 1 else 0) + CountType(mapped[1..], t)
  }

  function RowFor(v: Vehicle, tripId: string, e: MappedEvent, id: nat): EventRow {
    EventRow(id, v.id, v.organizationId, tripId, e.eventType, TelemetryEvents, e.raw.recordedAt, Severity(e.eventType),
             e.raw.name, e.raw.source, e.raw.counterValue)
  }

  function RowsFor(v: Vehicle, tripId: string, mapped: seq<MappedEvent>, nextId: nat): seq<EventRow> {
    seq(|mapped|, i requires 0 <= i < |mapped| => RowFor(v, tripId, mapped[i], nextId + i))
  }

  predicate IsTelemetryOf(row: EventRow, tripId: string) {
    row.tripId == tripId && row.source == TelemetryEvents
  }

  function OfTrip(tripId: string): EventRow -> bool {
    (row: EventRow) => IsTelemetryOf(row, tripId)
  }

  function NotOfTrip(tripId: string): EventRow -> bool {
    (row: EventRow) => !IsTelemetryOf(row, tripId)
  }

  /** The telemetry rows of a trip, in table order. */
  ghost function TelemetryOf(events: seq<EventRow>, tripId: string): seq<EventRow> {
    Filter(events, OfTrip(tripId))
  }

  /** All rows but the telemetry rows of a trip. */
  function Others(events: seq<EventRow>, tripId: string): seq<EventRow> {
    Filter(events, NotOfTrip(tripId))
  }

  function CountersFor(mapped: seq<MappedEvent>): Counters {
    var extreme := CountType(mapped, ExtremeBraking);
    var braking := CountType(mapped, HarshBraking) + extreme;
    var accel := CountType(mapped, HarshAcceleration);
    var corner := CountType(mapped, HarshCornering);
    Counters(braking, accel, accel, accel, braking, braking, 0, corner, extreme, extreme, 0,
             braking, accel, corner, braking, accel)
  }

  function AvgPer100Km(liters: Option<real>, distanceKm: Option<real>): Option<real> {
    if liters.Some? && distanceKm.Some? && distanceKm.value > 0.0 then Some(liters.value / distanceKm.value * 100.0)
    else None
  }

  function Label(summary: FuelSummary.Summary): Option<FuelLabel> {
    if summary.refuel then Some(RefuelDetected)
    else if summary.confidence.Some? then Some(Measured(summary.confidence.value))
    else None
  }

  /** `fuel` is None for electric vehicles; a null value never overwrites a stored one. */
  function UpdatedTrip(trip: TripRow, mapped: seq<MappedEvent>, fuel: Option<FuelSummary.Summary>, now: int): TripRow {
    var liters := if fuel.None? || fuel.value.refuel then None else fuel.value.liters;
    var avg := if fuel.None? || fuel.value.refuel then None else AvgPer100Km(fuel.value.liters, trip.distanceKm);
    trip.(counters := CountersFor(mapped),
          fuelUsedLiters := if liters.Some? then liters else trip.fuelUsedLiters,
          avgConsumption := if avg.Some? then avg else trip.avgConsumption,
          fuelConfidence := if fuel.None? then None else Label(fuel.value),
          enrichedAt := Some(now))
  }

  ghost function FuelOf(v: Vehicle, trip: TripRow, signals: seq<FuelSummary.Signal>): Option<FuelSummary.Summary> {
    if v.isElectric then None else Some(FuelSummary.Summarize(signals, trip.startTime, trip.endTime, v.tank))
  }

  /** What the provider returns for one trip. */
  datatype Job = Job(vehicle: Vehicle, tripId: string, raw: seq<RawEvent>, signals: seq<FuelSummary.Signal>, now: int)

  /** The transaction: replace the trip's telemetry rows and write its counters and fuel values. */
  function Transact(db: Database, v: Vehicle, tripId: string, mapped: seq<MappedEvent>,
                    fuel: Option<FuelSummary.Summary>, now: int): Database
    requires tripId in db.trips
  {
    Database(Others(db.events, tripId) + RowsFor(v, tripId, mapped, db.nextId),
             db.trips[tripId := UpdatedTrip(db.trips[tripId], mapped, fuel, now)],
             db.nextId + |mapped|)
  }

  ghost function Backfill(db: Database, job: Job): Database {
    if job.tripId !in db.trips then db
    else Transact(db, job.vehicle, job.tripId, Mapped(job.raw),
                  FuelOf(job.vehicle, db.trips[job.tripId], job.signals), job.now)
  }

  class BackfillStore {
    var drivingEvents: seq<EventRow>
    var trips: map<string, TripRow>
    var nextId: nat

    ghost function State(): Database
      reads this
    {
      Database(drivingEvents, trips, nextId)
    }

    /** deleteMany of a trip's telemetry rows. */
    method DeleteTelemetry(tripId: string)
      modifies this`drivingEvents
      ensures drivingEvents == Others(old(drivingEvents), tripId)
    {
      drivingEvents := Others(drivingEvents, tripId);
    }

    /** createMany: ids are handed out by the table. */
    method CreateTelemetry(v: Vehicle, tripId: string, mapped: seq<MappedEvent>)
      modifies this`drivingEvents, this`nextId
      ensures drivingEvents == old(drivingEvents) + RowsFor(v, tripId, mapped, old(nextId))
      ensures nextId == old(nextId) + |mapped|
    {
      ghost var before := drivingEvents;
      for n := 0 to |mapped|
        invariant drivingEvents == before + RowsFor(v, tripId, mapped[..n], old(nextId))
        invariant nextId == old(nextId) + n
      {
        drivingEvents := drivingEvents + [RowFor(v, tripId, mapped[n], nextId)];
        nextId := nextId + 1;
      }
      assert mapped[..|mapped|] == mapped;
    }

    method RunTransaction(v: Vehicle, tripId: string, mapped: seq<MappedEvent>,
                          fuel: Option<FuelSummary.Summary>, now: int)
      requires tripId in trips
      modifies this
      ensures State() == Transact(old(State()), v, tripId, mapped, fuel, now)
    {
      DeleteTelemetry(tripId);
      if |mapped| > 0 {
        CreateTelemetry(v, tripId, mapped);
      }
      trips := trips[tripId := UpdatedTrip(trips[tripId], mapped, fuel, now)];
    }

    /** The body of the per-trip loop outside a dry run. */
    method BackfillTrip(job: Job)
      modifies this
      ensures State() == Backfill(old(State()), job)
    {
      if job.tripId !in trips { return; }
      var trip := trips[job.tripId];
      var mapped := Mapped(job.raw);
      var fuel: Option<FuelSummary.Summary> := None;
      if !job.vehicle.isElectric {
        var summary := FuelSummary.ComputeFuelSummary(job.signals, trip.startTime, trip.endTime, job.vehicle.tank);
        fuel := Some(summary);
      }
      RunTransaction(job.vehicle, job.tripId, mapped, fuel, job.now);
    }
  }

  // ---------------------------------------------------------------- rows

  ghost function HasKnownName(raw: RawEvent): bool {
    NormalizeEventName(raw.name.GetOr("")).Some?
  }

  /** Exactly the events with a known name are mapped, in the provider's order, to the type of that name. */
  lemma {:induction false} MappedAreKnown(raw: seq<RawEvent>)
    ensures var known, mapped := Filter(raw, HasKnownName), Mapped(raw);
      && |mapped| == |known|
      && (forall k :: 0 <= k < |known| ==>
            mapped[k].raw == known[k] && Some(mapped[k].eventType) == NormalizeEventName(known[k].name.GetOr("")))
  {
    if raw != [] {
      MappedAreKnown(raw[1..]);
    }
  }

  /** The row shows the event on this trip. */
  ghost predicate RowShows(row: EventRow, e: MappedEvent, v: Vehicle, tripId: string) {
    && row.vehicleId == v.id && row.organizationId == v.organizationId && row.tripId == tripId
    && row.source == TelemetryEvents && row.recordedAt == e.raw.recordedAt && row.eventType == e.eventType
    && (e.eventType in {HarshBraking, HarshAcceleration} ==> row.severity == 0.6)
    && (e.eventType == ExtremeBraking ==> row.severity == 0.9)
    && (e.eventType == HarshCornering ==> row.severity == 0.5)
    && row.name == e.raw.name && row.nameSource == e.raw.source && row.counterValue == e.raw.counterValue
  }

  /** One row for each event, in order. */
  ghost predicate RowsShow(rows: seq<EventRow>, mapped: seq<MappedEvent>, v: Vehicle, tripId: string) {
    |rows| == |mapped| && forall k :: 0 <= k < |rows| ==> RowShows(rows[k], mapped[k], v, tripId)
  }

  lemma RowsForShow(v: Vehicle, tripId: string, mapped: seq<MappedEvent>, nextId: nat)
    ensures RowsShow(RowsFor(v, tripId, mapped, nextId), mapped, v, tripId)
    ensures forall k :: 0 <= k < |mapped| ==> RowsFor(v, tripId, mapped, nextId)[k].id == nextId + k
  {
  }

  lemma KeptRows(events: seq<EventRow>, tripId: string, other: string)
    ensures TelemetryOf(Others(events, tripId), tripId) == []
    ensures Others(Others(events, tripId), tripId) == Others(events, tripId)
    ensures other != tripId ==> TelemetryOf(Others(events, tripId), other) == TelemetryOf(events, other)
  {
    FilterElements(events, NotOfTrip(tripId));
    FilterDropsAll(Others(events, tripId), OfTrip(tripId));
    FilterTwice(events, NotOfTrip(tripId), NotOfTrip(tripId), NotOfTrip(tripId));
    if other != tripId {
      FilterTwice(events, NotOfTrip(tripId), OfTrip(other), OfTrip(other));
    }
  }

  lemma CreatedRows(rows: seq<EventRow>, tripId: string, other: string)
    requires forall i :: 0 <= i < |rows| ==> IsTelemetryOf(rows[i], tripId)
    ensures TelemetryOf(rows, tripId) == rows && Others(rows, tripId) == []
    ensures other != tripId ==> TelemetryOf(rows, other) == []
  {
    FilterKeepsAll(rows, OfTrip(tripId));
    FilterDropsAll(rows, NotOfTrip(tripId));
    if other != tripId {
      FilterDropsAll(rows, OfTrip(other));
    }
  }

  lemma TransactRows(db: Database, v: Vehicle, tripId: string, mapped: seq<MappedEvent>,
                     fuel: Option<FuelSummary.Summary>, now: int, other: string)
    requires tripId in db.trips
    ensures var after := Transact(db, v, tripId, mapped, fuel, now).events;
      && TelemetryOf(after, tripId) == RowsFor(v, tripId, mapped, db.nextId)
      && Others(after, tripId) == Others(db.events, tripId)
      && (other != tripId ==> TelemetryOf(after, other) == TelemetryOf(db.events, other))
  {
    var created := RowsFor(v, tripId, mapped, db.nextId);
    var kept := Others(db.events, tripId);
    KeptRows(db.events, tripId, other);
    CreatedRows(created, tripId, other);
    FilterConcat(kept, created, OfTrip(tripId));
    FilterConcat(kept, created, NotOfTrip(tripId));
    FilterConcat(kept, created, OfTrip(other));
  }

  /**
    After the transaction the trip's telemetry rows show exactly the events with a known name, one
    new row each and in order, and every row of another trip or source is still there, in order.
   */
  lemma TransactionReplacesExactlyItsRows(db: Database, job: Job)
    requires job.tripId in db.trips
    ensures var after := Backfill(db, job).events;
      && TelemetryOf(after, job.tripId) == RowsFor(job.vehicle, job.tripId, Mapped(job.raw), db.nextId)
      && RowsShow(TelemetryOf(after, job.tripId), Mapped(job.raw), job.vehicle, job.tripId)
      && (forall k :: 0 <= k < |TelemetryOf(after, job.tripId)| ==>
            TelemetryOf(after, job.tripId)[k].id == db.nextId + k)
      && Others(after, job.tripId) == Others(db.events, job.tripId)
      && (forall other :: other != job.tripId ==> TelemetryOf(after, other) == TelemetryOf(db.events, other))
  {
    RowsForShow(job.vehicle, job.tripId, Mapped(job.raw), db.nextId);
    forall other: string
      ensures var after := Backfill(db, job).events;
        && TelemetryOf(after, job.tripId) == RowsFor(job.vehicle, job.tripId, Mapped(job.raw), db.nextId)
        && Others(after, job.tripId) == Others(db.events, job.tripId)
        && (other != job.tripId ==> TelemetryOf(after, other) == TelemetryOf(db.events, other))
    {
      var fuel := FuelOf(job.vehicle, db.trips[job.tripId], job.signals);
      TransactRows(db, job.vehicle, job.tripId, Mapped(job.raw), fuel, job.now, other);
    }
  }

  // ---------------------------------------------------------------- counters and fuel

  ghost function CountRows(rows: seq<EventRow>, t: DrivingEventType): nat {
    if rows == [] then 0 else (if rows[0].eventType == t then 1 else 0) + CountRows(rows[1..], t)
  }

  lemma {:induction false} RowsCountLikeEvents(v: Vehicle, tripId: string, mapped: seq<MappedEvent>, nextId: nat,
                                               t: DrivingEventType)
    ensures CountRows(RowsFor(v, tripId, mapped, nextId), t) == CountType(mapped, t)
  {
    if mapped != [] {
      assert RowsFor(v, tripId, mapped, nextId)[1..] == RowsFor(v, tripId, mapped[1..], nextId + 1);
      RowsCountLikeEvents(v, tripId, mapped[1..], nextId + 1, t);
    }
  }

  lemma {:induction false} FourClasses(raw: seq<RawEvent>)
    ensures var m := Mapped(raw);
      CountType(m, HarshBraking) + CountType(m, ExtremeBraking) +
        CountType(m, HarshAcceleration) + CountType(m, HarshCornering) == |m|
  {
    if raw != [] {
      FourClasses(raw[1..]);
      var m, rest := Mapped(raw), Mapped(raw[1..]);
      if m != rest {
        assert m[1..] == rest;
      }
    }
  }

  /** The stored counters are counts over exactly the rows given. */
  ghost predicate CountersMatch(c: Counters, rows: seq<EventRow>) {
    var braking := CountRows(rows, HarshBraking) + CountRows(rows, ExtremeBraking);
    var accel := CountRows(rows, HarshAcceleration);
    && c.hardBrakingCount == c.totalBrakingEvents == c.hardBrakingEvents == braking
    && c.harshBrakeCount == c.brakingEventCount == braking
    && c.hardAccelerationCount == c.totalAccelerationEvents == c.hardAccelerationEvents == accel
    && c.harshAccelCount == c.accelerationEventCount == accel
    && c.corneringEvents == c.harshCornerCount == CountRows(rows, HarshCornering)
    && c.abuseEvents == c.abuseEventCount == CountRows(rows, ExtremeBraking)
    && c.speedingEvents == c.fullBrakingEvents == 0
    && c.hardBrakingCount + c.hardAccelerationCount + c.corneringEvents == |rows|
  }

  /**
    After the transaction the trip's stored counters are counts over its telemetry rows, whose
    number they add up to, and a known fuel value has not been replaced by null.
   */
  lemma TransactionCountsItsRows(db: Database, job: Job)
    requires job.tripId in db.trips
    ensures var t := Backfill(db, job);
      && t.trips.Keys == db.trips.Keys
      && CountersMatch(t.trips[job.tripId].counters, TelemetryOf(t.events, job.tripId))
      && (db.trips[job.tripId].fuelUsedLiters.Some? ==> t.trips[job.tripId].fuelUsedLiters.Some?)
      && (db.trips[job.tripId].avgConsumption.Some? ==> t.trips[job.tripId].avgConsumption.Some?)
      && (forall other :: other in db.trips && other != job.tripId ==> t.trips[other] == db.trips[other])
  {
    var mapped := Mapped(job.raw);
    TransactionReplacesExactlyItsRows(db, job);
    FourClasses(job.raw);
    RowsCountLikeEvents(job.vehicle, job.tripId, mapped, db.nextId, HarshBraking);
    RowsCountLikeEvents(job.vehicle, job.tripId, mapped, db.nextId, ExtremeBraking);
    RowsCountLikeEvents(job.vehicle, job.tripId, mapped, db.nextId, HarshAcceleration);
    RowsCountLikeEvents(job.vehicle, job.tripId, mapped, db.nextId, HarshCornering);
  }

  /** What the summary of the job's signals makes of the trip's fuel values, label and time. */
  ghost predicate FuelShown(before: TripRow, after: TripRow, job: Job) {
    && after.startTime == before.startTime && after.endTime == before.endTime
    && after.distanceKm == before.distanceKm && after.enrichedAt == Some(job.now)
    && if job.vehicle.isElectric then
        && after.fuelUsedLiters == before.fuelUsedLiters && after.avgConsumption == before.avgConsumption
        && after.fuelConfidence == None
      else
        var s := FuelSummary.Summarize(job.signals, before.startTime, before.endTime, job.vehicle.tank);
        var known := !s.refuel && s.liters.Some?;
        && after.fuelUsedLiters == (if known then s.liters else before.fuelUsedLiters)
        && (if known && before.distanceKm.Some? && before.distanceKm.value > 0.0 then
              after.avgConsumption == Some(s.liters.value / before.distanceKm.value * 100.0)
            else after.avgConsumption == before.avgConsumption)
        && (s.refuel ==> after.fuelConfidence == Some(RefuelDetected))
        && (!s.refuel ==> match s.confidence
              case Some(c) => after.fuelConfidence == Some(Measured(c))
              case None => after.fuelConfidence == None)
  }

  /**
    The transaction writes known liters, and the consumption where there is a distance, and else
    keeps the old values; the label always follows the summary. Electric vehicles have neither.
   */
  lemma TransactionWritesFuel(db: Database, job: Job)
    requires job.tripId in db.trips
    ensures job.tripId in Backfill(db, job).trips
    ensures FuelShown(db.trips[job.tripId], Backfill(db, job).trips[job.tripId], job)
  {
  }

  // ---------------------------------------------------------------- re-runs and whole runs

  /** The table without its generated ids. */
  ghost function Contents(events: seq<EventRow>): seq<EventRow> {
    seq(|events|, i requires 0 <= i < |events| => events[i].(id := 0))
  }

  lemma ContentsConcat(a: seq<EventRow>, b: seq<EventRow>)
    ensures Contents(a + b) == Contents(a) + Contents(b)
  {
  }

  lemma RowContentsIgnoreIds(v: Vehicle, tripId: string, mapped: seq<MappedEvent>, m: nat, n: nat)
    ensures Contents(RowsFor(v, tripId, mapped, m)) == Contents(RowsFor(v, tripId, mapped, n))
  {
  }

  lemma UpdateTwice(trip: TripRow, mapped: seq<MappedEvent>, fuel: Option<FuelSummary.Summary>, now: int, later: int)
    ensures UpdatedTrip(UpdatedTrip(trip, mapped, fuel, now), mapped, fuel, later) ==
      UpdatedTrip(trip, mapped, fuel, now).(enrichedAt := Some(later))
  {
  }

  lemma RerunKeepsEvents(db: Database, job: Job, later: int)
    requires job.tripId in db.trips
    ensures Contents(Backfill(Backfill(db, job), job.(now := later)).events) == Contents(Backfill(db, job).events)
  {
    var once, mapped := Backfill(db, job), Mapped(job.raw);
    var kept := Others(db.events, job.tripId);
    TransactionReplacesExactlyItsRows(db, job);
    assert Others(once.events, job.tripId) == kept;
    ContentsConcat(kept, RowsFor(job.vehicle, job.tripId, mapped, db.nextId));
    ContentsConcat(kept, RowsFor(job.vehicle, job.tripId, mapped, once.nextId));
    RowContentsIgnoreIds(job.vehicle, job.tripId, mapped, db.nextId, once.nextId);
  }

  /** A re-run with the same input changes nothing but row ids and the enrichment time. */
  lemma RerunChangesNothing(db: Database, job: Job, later: int)
    requires job.tripId in db.trips
    ensures var once := Backfill(db, job);
      var twice := Backfill(once, job.(now := later));
      && Contents(twice.events) == Contents(once.events)
      && twice.trips == once.trips[job.tripId := once.trips[job.tripId].(enrichedAt := Some(later))]
  {
    RerunKeepsEvents(db, job, later);
    var trip := db.trips[job.tripId];
    UpdateTwice(trip, Mapped(job.raw), FuelOf(job.vehicle, trip, job.signals), job.now, later);
  }

  ghost function BackfillAll(db: Database, jobs: seq<Job>): Database {
    if jobs == [] then db else Backfill(BackfillAll(db, jobs[..|jobs| - 1]), jobs[|jobs| - 1])
  }

  /** The trip of the job shows exactly its known events, counters that match them, and its fuel. */
  ghost predicate Done(before: Database, db: Database, job: Job) {
    && job.tripId in before.trips && job.tripId in db.trips
    && CountersMatch(db.trips[job.tripId].counters, TelemetryOf(db.events, job.tripId))
    && RowsShow(TelemetryOf(db.events, job.tripId), Mapped(job.raw), job.vehicle, job.tripId)
    && FuelShown(before.trips[job.tripId], db.trips[job.tripId], job)
  }

  lemma BackfillDoesItsJob(before: Database, db: Database, job: Job)
    requires job.tripId in db.trips && job.tripId in before.trips && db.trips[job.tripId] == before.trips[job.tripId]
    ensures Done(before, Backfill(db, job), job)
  {
    TransactionReplacesExactlyItsRows(db, job);
    TransactionCountsItsRows(db, job);
    TransactionWritesFuel(db, job);
  }

  lemma BackfillKeepsOtherJobs(before: Database, db: Database, job: Job, other: Job)
    requires job.tripId in db.trips && Done(before, db, other) && other.tripId != job.tripId
    ensures Done(before, Backfill(db, job), other)
  {
    TransactionReplacesExactlyItsRows(db, job);
    assert Backfill(db, job).trips[other.tripId] == db.trips[other.tripId];
  }

  ghost predicate Untouched(jobs: seq<Job>, tripId: string) {
    forall i :: 0 <= i < |jobs| ==> jobs[i].tripId != tripId
  }

  lemma {:induction false} RunKeepsTrips(db: Database, jobs: seq<Job>)
    ensures BackfillAll(db, jobs).trips.Keys == db.trips.Keys
  {
    if jobs != [] {
      RunKeepsTrips(db, jobs[..|jobs| - 1]);
    }
  }

  lemma {:induction false} RunDoesItsJobs(db: Database, jobs: seq<Job>, i: nat)
    requires i < |jobs| && forall j :: 0 <= j < |jobs| ==> jobs[j].tripId in db.trips
    requires forall j, k :: 0 <= j < k < |jobs| ==> jobs[j].tripId != jobs[k].tripId
    ensures Done(db, BackfillAll(db, jobs), jobs[i])
  {
    var front, job := jobs[..|jobs| - 1], jobs[|jobs| - 1];
    var before := BackfillAll(db, front);
    RunKeepsTrips(db, front);
    if i == |front| {
      RunLeavesOtherTrips(db, front, job.tripId);
      BackfillDoesItsJob(db, before, job);
    } else {
      RunDoesItsJobs(db, front, i);
      BackfillKeepsOtherJobs(db, before, job, front[i]);
    }
  }

  lemma {:induction false} RunLeavesOtherTrips(db: Database, jobs: seq<Job>, other: string)
    requires Untouched(jobs, other)
    ensures TelemetryOf(BackfillAll(db, jobs).events, other) == TelemetryOf(db.events, other)
    ensures other in db.trips ==>
      other in BackfillAll(db, jobs).trips && BackfillAll(db, jobs).trips[other] == db.trips[other]
  {
    if jobs != [] {
      var front, job := jobs[..|jobs| - 1], jobs[|jobs| - 1];
      assert job.tripId != other;
      RunLeavesOtherTrips(db, front, other);
      if job.tripId in BackfillAll(db, front).trips {
        TransactionReplacesExactlyItsRows(BackfillAll(db, front), job);
      }
    }
  }

  /**
    After a whole run over distinct trips every processed trip shows exactly its known events,
    matching counters and its fuel, and rows and telemetry of all other trips are untouched.
   */
  lemma RunBackfillsEveryTrip(db: Database, jobs: seq<Job>)
    requires forall i :: 0 <= i < |jobs| ==> jobs[i].tripId in db.trips
    requires forall i, j :: 0 <= i < j < |jobs| ==> jobs[i].tripId != jobs[j].tripId
    ensures var t := BackfillAll(db, jobs);
      && t.trips.Keys == db.trips.Keys
      && (forall i :: 0 <= i < |jobs| ==> Done(db, t, jobs[i]))
      && (forall other :: Untouched(jobs, other) ==> TelemetryOf(t.events, other) == TelemetryOf(db.events, other))
      && (forall other :: Untouched(jobs, other) && other in db.trips ==> t.trips[other] == db.trips[other])
  {
    RunKeepsTrips(db, jobs);
    forall i | 0 <= i < |jobs| ensures Done(db, BackfillAll(db, jobs), jobs[i]) {
      RunDoesItsJobs(db, jobs, i);
    }
    forall other | Untouched(jobs, other)
      ensures TelemetryOf(BackfillAll(db, jobs).events, other) == TelemetryOf(db.events, other)
      ensures other in db.trips ==> BackfillAll(db, jobs).trips[other] == db.trips[other]
    {
      RunLeavesOtherTrips(db, jobs, other);
    }
  }
}
