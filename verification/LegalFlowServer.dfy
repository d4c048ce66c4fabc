/**
  The server itself: document rows that are updated in place, proved against the state machine
  of module LegalFlow.
*/
module LegalFlowServer {
  import opened Options
  import opened LegalFlow
  import opened LegalFlowHistory

  class LegalDocRow {
    const id: string
    const documentType: string
    const language: string
    const versionLabel: string
    const scanPassed: bool
    const integrityVerified: bool
    var status: Status
    var activeFrom: Option<string>
    var activatedAt: Option<string>
    var submittedBy: Option<string>
    var approvedBy: Option<string>

    constructor (doc: Doc)
      ensures Value() == doc
    {
      id, documentType, language, versionLabel := doc.id, doc.documentType, doc.language, doc.versionLabel;
      scanPassed, integrityVerified := doc.scanPassed, doc.integrityVerified;
      status, activeFrom, activatedAt := doc.status, doc.activeFrom, doc.activatedAt;
      submittedBy, approvedBy := doc.submittedBy, doc.approvedBy;
    }

    function Value(): Doc
      reads this
    {
      Doc(id, documentType, language, versionLabel, scanPassed, integrityVerified,
          status, activeFrom, activatedAt, submittedBy, approvedBy)
    }
  }

  ghost function Values(rows: seq<LegalDocRow>): seq<Doc>
    reads rows
  {
    seq(|rows|, i requires 0 <= i < |rows| reads rows => rows[i].Value())
  }

  class Server {
    var profile: Profile
    var userId: string
    var documents: seq<LegalDocRow>
    var events: seq<LogEntry>
    var evidence: seq<Evidence>
    var attempts: nat
    var bookingComplete: bool

    ghost predicate Valid()
      reads this
    {
      forall i, j :: 0 <= i < j < |documents| ==> documents[i] != documents[j]
    }

    ghost function State(): Flow
      reads this, documents
    {
      Flow(profile, userId, Values(documents), events, evidence, attempts, bookingComplete)
    }

    constructor (profile: Profile, now: string)
      ensures Valid() && fresh(documents) && State() == Reset(profile, now)
      ensures Good(State())
    {
      this.profile, userId, attempts, evidence := profile, ADMIN, 0, [];
      bookingComplete := profile == PickupAllowed;
      events := InitialEvents(profile);
      documents := [];
      new;
      StoreRows(InitialDocs(profile, now));
      ResetIsGood(profile, now);
    }

    method StoreRows(docs: seq<Doc>)
      modifies this`documents
      ensures Valid() && fresh(documents) && Values(documents) == docs
    {
      documents := [];
      for i := 0 to |docs|
        invariant Valid() && fresh(documents) && Values(documents) == docs[..i]
      {
        var row := new LegalDocRow(docs[i]);
        documents := documents + [row];
      }
    }

    method PushEvent(doc: LegalDocRow, kind: EventKind, previous: Option<Status>, next: Status, now: string)
      modifies this`events
      ensures events == Push(old(events), doc.Value(), kind, previous, next, now)
    {
      var entry :=
        LogEntry(|events| + 1, doc.id, kind, previous, next, doc.versionLabel, doc.language, doc.documentType, now);
      events := [entry] + events;
    }

    method DocById(id: string) returns (i: nat)
      ensures i == FirstWithId(Values(documents), id)
    {
      i := 0;
      while i < |documents| && documents[i].id != id
        invariant i <= |documents|
        invariant forall j :: 0 <= j < i ==> Values(documents)[j].id != id
      {
        i := i + 1;
      }
      assert i < |documents| ==> Values(documents)[i].id == id;
    }

    /** The loop over the peers of `doc` that supersedes those still active. */
    method SupersedeOthers(doc: LegalDocRow, now: string)
      requires Valid() && doc in documents
      modifies this`events, documents
      ensures (Values(documents), events) ==
        SupersedePeers(old(Values(documents)), old(events), old(doc.Value()), now, 0)
      ensures doc.Value() == old(doc.Value())
    {
      ghost var target := doc.Value();
      for i := 0 to |documents|
        invariant doc.Value() == target
        invariant SupersedePeers(Values(documents), events, target, now, i) ==
          SupersedePeers(old(Values(documents)), old(events), target, now, 0)
      {
        var peer := documents[i];
        assert Values(documents)[i] == peer.Value();
        if peer.id != doc.id && peer.documentType == doc.documentType && peer.language == doc.language
           && peer.status == Active
        {
          ghost var before, log := Values(documents), events;
          peer.status := Superseded;
          PushEvent(peer, Replaced, Some(Active), Superseded, now);
          assert Values(documents) == before[i := before[i].(status := Superseded)];
          assert events == Push(log, before[i], Replaced, Some(Active), Superseded, now);
          assert IsActivePeer(before[i], target);
        }
      }
    }

    method MarkActive(doc: LegalDocRow, ghost i: nat, now: string)
      requires Valid() && i < |documents| && doc == documents[i]
      modifies doc
      ensures Values(documents) == old(Values(documents))[i := doc.Value()]
      ensures doc.Value() == old(doc.Value()).(status := Active, activatedAt := Some(now),
                                               activeFrom := Some(old(doc.activeFrom).GetOr(now)))
    {
      ghost var before := Values(documents);
      doc.status := Active;
      doc.activatedAt := Some(now);
      doc.activeFrom := Some(doc.activeFrom.GetOr(now));
      assert Values(documents) == before[i := doc.Value()];
    }

    /** Supersedes the peers of `doc`, then makes it active. */
    method Promote(doc: LegalDocRow, ghost i: nat, now: string) returns (reply: Result<LegalDocRow, ApiError>)
      requires Valid() && i < |documents| && doc == documents[i]
      modifies this`events, documents
      ensures State() == MakeActive(old(State()), i, now).0
      ensures reply == Ok(doc) && MakeActive(old(State()), i, now).1 == Ok(doc.Value())
    {
      var previous := doc.status;
      assert Values(documents)[i] == doc.Value();
      SupersedeFacts(Values(documents), events, doc.Value(), now, 0);
      SupersedeOthers(doc, now);
      MarkActive(doc, i, now);
      PushEvent(doc, Activated, Some(previous), doc.status, now);
      reply := Ok(doc);
    }

    /** The activation branch: guards, the conflict counter, then the promotion. */
    method ActivateRow(doc: LegalDocRow, ghost i: nat, now: string) returns (reply: Result<LegalDocRow, ApiError>)
      requires Valid() && i < |documents| && doc == documents[i]
      modifies this`events, this`attempts, documents
      ensures State() == ApplyLifecycle(old(State()), i, Activate, now).0
      ensures match ApplyLifecycle(old(State()), i, Activate, now).1
              case Ok(d) => reply == Ok(doc) && doc.Value() == d
              case Err(e) => reply == Err(e)
    {
      assert Values(documents)[i] == doc.Value();
      if doc.status != Approved && doc.status != Scheduled && doc.status != Active { return Err(NotActivatable); }
      if !doc.scanPassed { return Err(ScanNotPassed); }
      if profile == ActivationConflict {
        attempts := attempts + 1;
        if attempts > 1 { return Err(ActiveConflict); }
      }
      reply := Promote(doc, i, now);
    }

    /** One lifecycle action on a stored row; a refused action leaves documents and log alone. */
    method ApplyAction(doc: LegalDocRow, ghost i: nat, action: Action, now: string)
      returns (reply: Result<LegalDocRow, ApiError>)
      requires Valid() && i < |documents| && doc == documents[i]
      modifies this`events, this`attempts, documents
      ensures State() == ApplyLifecycle(old(State()), i, action, now).0
      ensures match ApplyLifecycle(old(State()), i, action, now).1
              case Ok(d) => reply == Ok(doc) && doc.Value() == d
              case Err(e) => reply == Err(e)
    {
      var previous := doc.status;
      ghost var before := Values(documents);
      match action {
        case SubmitForReview =>
          if doc.status != Draft { return Err(InvalidTransition); }
          doc.status := InReview;
          doc.submittedBy := Some(userId);
          PushEvent(doc, SubmittedForReview, Some(previous), doc.status, now);
        case RequestChanges =>
          if doc.status != InReview { return Err(InvalidTransition); }
          doc.status := Draft;
          PushEvent(doc, ChangesRequested, Some(previous), doc.status, now);
        case Approve =>
          if doc.status != InReview { return Err(InvalidTransition); }
          doc.status := Approved;
          doc.approvedBy := Some(userId);
          PushEvent(doc, ApprovalGiven, Some(previous), doc.status, now);
        case Schedule(validFrom) =>
          if doc.status != Approved { return Err(InvalidTransition); }
          doc.status := Scheduled;
          doc.activeFrom := Some(validFrom.GetOr(now));
          PushEvent(doc, ActivationScheduled, Some(previous), doc.status, now);
        case Activate =>
          reply := ActivateRow(doc, i, now);
          return;
        case UnknownAction(_) =>
          return Err(NotFound);
      }
      assert Values(documents) == before[i := doc.Value()];
      return Ok(doc);
    }

    /** POST /legal-documents/{id}/{action}. */
    method HandleLifecycle(docId: string, action: Action, now: string)
      returns (httpStatus: nat, reply: Result<LegalDocRow, ApiError>)
      requires Valid()
      modifies this`events, this`attempts, documents
      ensures State() == Step(old(State()), Lifecycle(docId, action, now))
      ensures match LifecycleRequest(old(State()), docId, action, now).1
              case Ok(d) => httpStatus == 200 && reply.Ok? && reply.value in documents && reply.value.Value() == d
              case Err(e) => httpStatus == e.HttpStatus() && reply == Err(e)
      ensures reply.Err? ==> Values(documents) == old(Values(documents)) && events == old(events)
      ensures old(Good(State())) ==> Good(State())
    {
      RefusalChangesNothing(State(), docId, action, now);
      var i := DocById(docId);
      if i == |documents| { return 404, Err(NotFound); }
      if Good(State()) { LifecycleStaysGood(State(), i, action, now); }
      reply := ApplyAction(documents[i], i, action, now);
      httpStatus := match reply { case Ok(_) => 200 case Err(e) => e.HttpStatus() };
    }

    /** POST /legal-documents/upload, with the id built from the clock. */
    method HandleUpload(id: string, versionLabel: Option<string>, now: string) returns (doc: LegalDocRow)
      requires Valid()
      modifies this`documents, this`events
      ensures Valid() && documents == [doc] + old(documents) && fresh(doc)
      ensures State() == Step(old(State()), Upload(id, versionLabel, now))
    {
      ghost var before := Values(documents);
      doc := new LegalDocRow(BaseDoc(id, versionLabel.GetOr("2026-07-draft"), Draft));
      documents := [doc] + documents;
      assert Values(documents) == [doc.Value()] + before;
      PushEvent(doc, Uploaded, None, Draft, now);
    }

    /** POST /legal-document-delivery-evidence. */
    method HandleDelivery(requestId: string, docId: Option<string>, versionLabel: Option<string>)
      returns (httpStatus: nat, row: Evidence)
      modifies this`evidence
      ensures (State(), httpStatus, row) == DeliverRequest(old(State()), requestId, docId, versionLabel)
    {
      var i := 0;
      while i < |evidence|
        invariant i <= |evidence|
        invariant forall j :: 0 <= j < i ==> evidence[j].requestId != requestId
      {
        if evidence[i].requestId == requestId { return 200, evidence[i]; }
        i := i + 1;
      }
      row := Evidence(|evidence| + 1, requestId, docId.GetOr("doc-agb-active"), versionLabel.GetOr("2026-01"));
      evidence := evidence + [row];
      httpStatus := 201;
    }
  }
}
