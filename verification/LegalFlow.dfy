/**
  The legal-document lifecycle as a state machine on values: what each request does to the
  documents, the append-only event log and the delivery evidence.
*/
module LegalFlow {
  import opened Options
  import opened Search

  datatype Profile =
    | LifecycleDefault
    | PickupBlocked
    | PickupAllowed
    | ActivationConflict
    | ScanFailed
    | IntegrityFailed
    | HistoricalSnapshot

  datatype Status = Draft | InReview | Approved | Scheduled | Active | Superseded

  datatype EventKind =
    | Uploaded
    | SubmittedForReview
    | ChangesRequested
    | ApprovalGiven
    | ActivationScheduled
    | Activated
    | Replaced

  datatype Doc = Doc(
    id: string,
    documentType: string,
    language: string,
    versionLabel: string,
    scanPassed: bool,
    integrityVerified: bool,
    status: Status,
    activeFrom: Option<string>,
    activatedAt: Option<string>,
    submittedBy: Option<string>,
    approvedBy: Option<string>)

  /** The number in `id` is the n of `evt-<n>`. */
  datatype LogEntry = LogEntry(
    id: nat,
    docId: string,
    kind: EventKind,
    previous: Option<Status>,
    next: Status,
    versionLabel: string,
    language: string,
    documentType: string,
    createdAt: string)

  /** The number in `id` is the n of `ev-<n>`. */
  datatype Evidence = Evidence(id: nat, requestId: string, docId: string, versionLabel: string)

  /** `events` is newest first, as the server keeps it. */
  datatype Flow = Flow(
    profile: Profile,
    userId: string,
    docs: seq<Doc>,
    events: seq<LogEntry>,
    evidence: seq<Evidence>,
    attempts: nat,
    bookingComplete: bool)

  datatype Action =
    | SubmitForReview
    | RequestChanges
    | Approve
    | Schedule(validFrom: Option<string>)
    | Activate
    | UnknownAction(name: string)

  datatype ApiError =
    | InvalidTransition
    | NotActivatable
    | ScanNotPassed
    | ActiveConflict
    | NotFound
  {
    function HttpStatus(): nat {
      match this
      case ActiveConflict => 409
      case NotFound => 404
      case _ => 422
    }
  }

  type Reply = Result<Doc, ApiError>

  const ADMIN := "user-legal-admin"
  const TERMS := "TERMS_AND_CONDITIONS"
  const GERMAN := "de"

  // ---------------------------------------------------------------- reset

  function BaseDoc(id: string, versionLabel: string, status: Status): Doc {
    Doc(id, TERMS, GERMAN, versionLabel, true, true, status, None, None, None, None)
  }

  function InitialDocs(profile: Profile, now: string): seq<Doc> {
    match profile
    case HistoricalSnapshot => [
      BaseDoc("doc-agb-v1", "2026-01", Superseded).(activatedAt := Some("2026-01-01T00:00:00.000Z")),
      BaseDoc("doc-agb-v2", "2026-07", Active).(activatedAt := Some("2026-07-01T00:00:00.000Z"))]
    case ScanFailed => [BaseDoc("doc-scan-fail", "2026-scan-fail", Approved).(scanPassed := false)]
    case IntegrityFailed => [
      BaseDoc("doc-integrity-fail", "2026-integrity", Active).(integrityVerified := false, activatedAt := Some(now))]
    case ActivationConflict => [
      BaseDoc("doc-conflict-a", "conflict-a", Approved),
      BaseDoc("doc-conflict-b", "conflict-b", Approved)]
    case _ => [BaseDoc("doc-agb-active", "2026-01", Active).(activatedAt := Some("2026-01-01T00:00:00.000Z"))]
  }

  function InitialEvents(profile: Profile): seq<LogEntry> {
    match profile
    case HistoricalSnapshot | ScanFailed | IntegrityFailed | ActivationConflict => []
    case _ => [
      LogEntry(1, "doc-agb-active", Activated, Some(Approved), Active, "2026-01", GERMAN, TERMS,
               "2026-01-01T00:00:00.000Z")]
  }

  function Reset(profile: Profile, now: string): Flow {
    Flow(profile, ADMIN, InitialDocs(profile, now), InitialEvents(profile), [], 0, profile == PickupAllowed)
  }

  // ---------------------------------------------------------------- requests

  function Push(events: seq<LogEntry>, doc: Doc, kind: EventKind, previous: Option<Status>, next: Status, now: string)
    : seq<LogEntry>
  {
    [LogEntry(|events| + 1, doc.id, kind, previous, next, doc.versionLabel, doc.language, doc.documentType, now)] +
    events
  }

  predicate SameSlot(a: Doc, b: Doc) {
    a.documentType == b.documentType && a.language == b.language
  }

  predicate IsActivePeer(peer: Doc, doc: Doc) {
    peer.id != doc.id && SameSlot(peer, doc) && peer.status == Active
  }

  /** Supersedes the active peers of `doc` from position `i` on, logging each. */
  function SupersedePeers(docs: seq<Doc>, events: seq<LogEntry>, doc: Doc, now: string, i: nat)
    : (seq<Doc>, seq<LogEntry>)
    requires i <= |docs|
    decreases |docs| - i
  {
    if i == |docs| then (docs, events)
    else if IsActivePeer(docs[i], doc) then
      SupersedePeers(docs[i := docs[i].(status := Superseded)],
                     Push(events, docs[i], Replaced, Some(Active), Superseded, now), doc, now, i + 1)
    else SupersedePeers(docs, events, doc, now, i + 1)
  }

  lemma {:induction false} SupersedeFacts(docs: seq<Doc>, events: seq<LogEntry>, doc: Doc, now: string, i: nat)
    requires i <= |docs|
    ensures var (docs', _) := SupersedePeers(docs, events, doc, now, i);
      && |docs'| == |docs|
      && (forall j :: 0 <= j < |docs| ==>
            docs'[j] == if i <= j && IsActivePeer(docs[j], doc) then docs[j].(status := Superseded) else docs[j])
    decreases |docs| - i
  {
    if i < |docs| {
      if IsActivePeer(docs[i], doc) {
        SupersedeFacts(docs[i := docs[i].(status := Superseded)],
                       Push(events, docs[i], Replaced, Some(Active), Superseded, now), doc, now, i + 1);
      } else {
        SupersedeFacts(docs, events, doc, now, i + 1);
      }
    }
  }

  /** Replaces document `i` and logs its change of status. */
  function Transition(s: Flow, i: nat, doc: Doc, kind: EventKind, now: string): (Flow, Reply)
    requires i < |s.docs|
  {
    (s.(docs := s.docs[i := doc],
        events := Push(s.events, doc, kind, Some(s.docs[i].status), doc.status, now)), Ok(doc))
  }

  function MakeActive(s: Flow, i: nat, now: string): (Flow, Reply)
    requires i < |s.docs|
  {
    var doc := s.docs[i];
    var (docs, events) := SupersedePeers(s.docs, s.events, doc, now, 0);
    SupersedeFacts(s.docs, s.events, doc, now, 0);
    Transition(s.(docs := docs, events := events), i,
               doc.(status := Active, activatedAt := Some(now), activeFrom := Some(doc.activeFrom.GetOr(now))),
               Activated, now)
  }

  function ApplyLifecycle(s: Flow, i: nat, action: Action, now: string): (Flow, Reply)
    requires i < |s.docs|
  {
    var doc := s.docs[i];
    match action
    case SubmitForReview =>
      if doc.status != Draft then (s, Err(InvalidTransition))
      else Transition(s, i, doc.(status := InReview, submittedBy := Some(s.userId)), SubmittedForReview, now)
    case RequestChanges =>
      if doc.status != InReview then (s, Err(InvalidTransition))
      else Transition(s, i, doc.(status := Draft), ChangesRequested, now)
    case Approve =>
      if doc.status != InReview then (s, Err(InvalidTransition))
      else Transition(s, i, doc.(status := Approved, approvedBy := Some(s.userId)), ApprovalGiven, now)
    case Schedule(validFrom) =>
      if doc.status != Approved then (s, Err(InvalidTransition))
      else
        var scheduled := doc.(status := Scheduled, activeFrom := Some(validFrom.GetOr(now)));
        Transition(s, i, scheduled, ActivationScheduled, now)
    case Activate =>
      if doc.status != Approved && doc.status != Scheduled && doc.status != Active then (s, Err(NotActivatable))
      else if !doc.scanPassed then (s, Err(ScanNotPassed))
      else if s.profile == ActivationConflict then
        var counted := s.(attempts := s.attempts + 1);
        if counted.attempts > 1 then (counted, Err(ActiveConflict)) else MakeActive(counted, i, now)
      else MakeActive(s, i, now)
    case UnknownAction(_) => (s, Err(NotFound))
  }

  /** The position of the first document with the given id, or the number of documents. */
  function FirstWithId(docs: seq<Doc>, id: string): (i: nat)
    ensures i <= |docs|
    ensures i < |docs| ==> docs[i].id == id
    ensures forall j :: 0 <= j < i ==> docs[j].id != id
  {
    IndexOfKey(docs, (doc: Doc) => doc.id, id)
  }

  function LifecycleRequest(s: Flow, docId: string, action: Action, now: string): (Flow, Reply) {
    var i := FirstWithId(s.docs, docId);
    if i == |s.docs| then (s, Err(NotFound)) else ApplyLifecycle(s, i, action, now)
  }

  function UploadRequest(s: Flow, id: string, versionLabel: Option<string>, now: string): (Flow, Doc) {
    var doc := BaseDoc(id, versionLabel.GetOr("2026-07-draft"), Draft);
    (s.(docs := [doc] + s.docs, events := Push(s.events, doc, Uploaded, None, Draft, now)), doc)
  }

  /** The position of the first evidence row for a request, or the number of rows. */
  function FirstForRequest(rows: seq<Evidence>, requestId: string): (i: nat)
    ensures i <= |rows|
    ensures i < |rows| ==> rows[i].requestId == requestId
    ensures forall j :: 0 <= j < i ==> rows[j].requestId != requestId
  {
    IndexOfKey(rows, (row: Evidence) => row.requestId, requestId)
  }

  /** Returns 200 with the stored row for a known request id, else stores a row and returns 201. */
  function DeliverRequest(s: Flow, requestId: string, docId: Option<string>, versionLabel: Option<string>)
    : (Flow, nat, Evidence)
  {
    var i := FirstForRequest(s.evidence, requestId);
    if i < |s.evidence| then (s, 200, s.evidence[i])
    else
      var row := Evidence(|s.evidence| + 1, requestId, docId.GetOr("doc-agb-active"), versionLabel.GetOr("2026-01"));
      (s.(evidence := s.evidence + [row]), 201, row)
  }

  // ---------------------------------------------------------------- runs

  datatype Command =
    | Lifecycle(docId: string, action: Action, now: string)
    | Upload(id: string, versionLabel: Option<string>, now: string)
    | Deliver(requestId: string, evidenceDoc: Option<string>, evidenceVersion: Option<string>)
    | SetUser(userId: string)
    | SetProfile(profile: Profile)
    | SetBookingComplete(complete: bool)

  function Step(s: Flow, c: Command): Flow {
    match c
    case Lifecycle(docId, action, now) => LifecycleRequest(s, docId, action, now).0
    case Upload(id, versionLabel, now) => UploadRequest(s, id, versionLabel, now).0
    case Deliver(requestId, docId, versionLabel) => DeliverRequest(s, requestId, docId, versionLabel).0
    case SetUser(userId) => s.(userId := userId)
    case SetProfile(profile) => s.(profile := profile)
    case SetBookingComplete(complete) => s.(bookingComplete := complete)
  }

  function Run(s: Flow, cs: seq<Command>): Flow
    decreases |cs|
  {
    if cs == [] then s else Run(Step(s, cs[0]), cs[1..])
  }

  /** Every upload of the run brings an id that no document carries at that moment. */
  ghost predicate FreshUploads(s: Flow, cs: seq<Command>)
    decreases |cs|
  {
    cs == [] ||
    (&& (cs[0].Upload? ==> FirstWithId(s.docs, cs[0].id) == |s.docs|)
     && FreshUploads(Step(s, cs[0]), cs[1..]))
  }
}
