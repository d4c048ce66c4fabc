/**
  Which requests the legal-document server accepts, with which status it refuses the others, and
  what an accepted request changes, from any state.
*/
module LegalFlowEffects {
  import opened Options
  import opened Filtering
  import opened LegalFlow
  import opened LegalFlowHistory
  import opened LegalFlowProgress

  // ---------------------------------------------------------------- acceptance

  /** The document may take the action now. */
  ghost predicate MayTake(s: Flow, doc: Doc, action: Action) {
    match action
    case SubmitForReview => doc.status == Draft
    case RequestChanges => doc.status == InReview
    case Approve => doc.status == InReview
    case Schedule(_) => doc.status == Approved
    case Activate =>
      && (doc.status == Approved || doc.status == Scheduled || doc.status == Active)
      && doc.scanPassed
      && (s.profile == ActivationConflict ==> s.attempts == 0)
    case UnknownAction(_) => false
  }

  /** The first row with an id, without reference to any search. */
  ghost predicate IsFirstRow(docs: seq<Doc>, id: string, i: nat) {
    i < |docs| && docs[i].id == id && forall j :: 0 <= j < i ==> docs[j].id != id
  }

  lemma FirstRowIsFound(docs: seq<Doc>, id: string, i: nat)
    ensures IsFirstRow(docs, id, i) <==> i == FirstWithId(docs, id) < |docs|
  {
  }

  /** A request is accepted exactly when the id is stored and its first row may take the action. */
  lemma AcceptedIff(s: Flow, docId: string, action: Action, now: string)
    ensures LifecycleRequest(s, docId, action, now).1.Ok? <==>
      exists i: nat :: IsFirstRow(s.docs, docId, i) && MayTake(s, s.docs[i], action)
  {
    var i := FirstWithId(s.docs, docId);
    FirstRowIsFound(s.docs, docId, i);
    forall j: nat | IsFirstRow(s.docs, docId, j) ensures j == i {
      FirstRowIsFound(s.docs, docId, j);
    }
  }

  /**
    Why a request is refused: 404 for an unknown id or action, 409 for an activation that only the
    conflict profile stops, 422 with the failed guard's code in every other case. Only the second
    changes anything: it counts as an attempt.
   */
  lemma RefusalReason(s: Flow, docId: string, action: Action, now: string)
    ensures var (t, reply) := LifecycleRequest(s, docId, action, now);
      reply.Err? ==> t == if reply.error == ActiveConflict then s.(attempts := s.attempts + 1) else s
    ensures var (_, reply) := LifecycleRequest(s, docId, action, now);
      reply.Err? ==>
        && reply.error.HttpStatus() ==
          (match reply.error case NotFound => 404 case ActiveConflict => 409 case _ => 422)
        && (reply.error == NotFound <==>
              action.UnknownAction? || forall i :: 0 <= i < |s.docs| ==> s.docs[i].id != docId)
        && (forall i: nat :: IsFirstRow(s.docs, docId, i) ==>
              var doc := s.docs[i];
              && (reply.error == NotActivatable <==> action == Activate && doc.status in {Draft, InReview, Superseded})
              && (reply.error == ScanNotPassed <==>
                    action == Activate && doc.status in {Approved, Scheduled, Active} && !doc.scanPassed)
              && (reply.error == ActiveConflict <==>
                    action == Activate && MayTake(s.(attempts := 0), doc, Activate)
                    && s.profile == ActivationConflict && s.attempts > 0)
              && (reply.error == InvalidTransition <==> action != Activate && !action.UnknownAction?))
  {
    var i := FirstWithId(s.docs, docId);
    forall j: nat | IsFirstRow(s.docs, docId, j) ensures j == i {
      FirstRowIsFound(s.docs, docId, j);
    }
  }

  // ---------------------------------------------------------------- effect

  /** The row after the accepted action. */
  ghost function RowAfter(doc: Doc, action: Action, userId: string, now: string): Doc {
    match action
    case SubmitForReview => doc.(status := InReview, submittedBy := Some(userId))
    case RequestChanges => doc.(status := Draft)
    case Approve => doc.(status := Approved, approvedBy := Some(userId))
    case Schedule(validFrom) =>
      doc.(status := Scheduled, activeFrom := if validFrom.Some? then validFrom else Some(now))
    case Activate =>
      doc.(status := Active, activatedAt := Some(now),
           activeFrom := if doc.activeFrom.Some? then doc.activeFrom else Some(now))
    case UnknownAction(_) => doc
  }

  ghost function KindOf(action: Action): EventKind {
    match action
    case SubmitForReview => SubmittedForReview
    case RequestChanges => ChangesRequested
    case Approve => ApprovalGiven
    case Schedule(_) => ActivationScheduled
    case Activate => Activated
    case UnknownAction(_) => Uploaded
  }

  /** A log entry about `doc`, which has just moved from `previous` to its status. */
  ghost predicate Tells(e: LogEntry, number: nat, doc: Doc, kind: EventKind, previous: Status, now: string) {
    && e.id == number && e.docId == doc.id && e.kind == kind
    && e.previous == Some(previous) && e.next == doc.status
    && e.versionLabel == doc.versionLabel && e.language == doc.language && e.documentType == doc.documentType
    && e.createdAt == now
  }

  /** Everything but documents, log and the attempt counter. */
  ghost predicate SameRest(s: Flow, t: Flow) {
    && t.profile == s.profile && t.userId == s.userId
    && t.evidence == s.evidence && t.bookingComplete == s.bookingComplete
  }

  /**
    An accepted submission, request for changes, approval or scheduling changes its one row as the
    action says, logs it once and changes nothing else; the reply is the new row.
   */
  lemma AcceptedEffect(s: Flow, docId: string, action: Action, now: string, i: nat)
    requires IsFirstRow(s.docs, docId, i) && MayTake(s, s.docs[i], action) && action != Activate
    ensures var (t, reply) := LifecycleRequest(s, docId, action, now);
      var doc := RowAfter(s.docs[i], action, s.userId, now);
      && reply == Ok(doc) && t.docs == s.docs[i := doc]
      && |t.events| == |s.events| + 1 && t.events[1..] == s.events
      && Tells(t.events[0], |s.events| + 1, doc, KindOf(action), s.docs[i].status, now)
      && SameRest(s, t) && t.attempts == s.attempts
  {
    FirstRowIsFound(s.docs, docId, i);
  }

  /** The active versions that an activation of `doc` supersedes. */
  ghost function Rival(doc: Doc): Doc -> bool {
    (peer: Doc) =>
      && peer.id != doc.id && peer.status == Active
      && peer.documentType == doc.documentType && peer.language == doc.language
  }

  /** The newest `|rivals|` entries tell, the last rival first, that each was superseded. */
  ghost predicate TellsSuperseded(before: seq<LogEntry>, after: seq<LogEntry>, rivals: seq<Doc>, now: string) {
    && |after| == |before| + |rivals| && after[|rivals|..] == before
    && forall k :: 0 <= k < |rivals| ==>
      Tells(after[|rivals| - 1 - k], |before| + k + 1, rivals[k].(status := Superseded), Replaced, Active, now)
  }

  lemma {:induction false} SupersedingTells(docs: seq<Doc>, events: seq<LogEntry>, doc: Doc, now: string, i: nat)
    requires i <= |docs|
    ensures TellsSuperseded(events, SupersedePeers(docs, events, doc, now, i).1, Filter(docs[i..], Rival(doc)), now)
    decreases |docs| - i
  {
    if i < |docs| {
      assert docs[i..][1..] == docs[i + 1..];
      if IsActivePeer(docs[i], doc) {
        var docs' := docs[i := docs[i].(status := Superseded)];
        var pushed := Push(events, docs[i], Replaced, Some(Active), Superseded, now);
        assert docs'[i + 1..] == docs[i + 1..];
        SupersedingTells(docs', pushed, doc, now, i + 1);
        var after, rivals := SupersedePeers(docs, events, doc, now, i).1, Filter(docs[i + 1..], Rival(doc));
        OneMoreTold(events, pushed, after, docs[i], rivals, now);
      } else {
        SupersedingTells(docs, events, doc, now, i + 1);
      }
    }
  }

  lemma OneMoreTold(before: seq<LogEntry>, pushed: seq<LogEntry>, after: seq<LogEntry>,
                    rival: Doc, rivals: seq<Doc>, now: string)
    requires |pushed| == |before| + 1 && pushed[1..] == before
    requires Tells(pushed[0], |before| + 1, rival.(status := Superseded), Replaced, Active, now)
    requires TellsSuperseded(pushed, after, rivals, now)
    ensures TellsSuperseded(before, after, [rival] + rivals, now)
  {
    var all := [rival] + rivals;
    assert after[|all|..] == after[|rivals|..][1..];
    assert after[|rivals|] == after[|rivals|..][0];
    forall k | 0 <= k < |all|
      ensures Tells(after[|all| - 1 - k], |before| + k + 1, all[k].(status := Superseded), Replaced, Active, now)
    {
      if k > 0 {
        assert all[k] == rivals[k - 1];
      }
    }
  }

  /**
    An accepted activation makes its row active from its scheduled date or now, supersedes exactly
    the other active versions of the slot, and logs each of them before the activation.
   */
  lemma ActivationEffect(s: Flow, docId: string, now: string, i: nat)
    requires IsFirstRow(s.docs, docId, i) && MayTake(s, s.docs[i], Activate)
    ensures var (t, reply) := LifecycleRequest(s, docId, Activate, now);
      var doc := RowAfter(s.docs[i], Activate, s.userId, now);
      && reply == Ok(doc) && |t.docs| == |s.docs| && t.docs[i] == doc
      && (forall j :: 0 <= j < |s.docs| && j != i ==>
            t.docs[j] == if Rival(s.docs[i])(s.docs[j]) then s.docs[j].(status := Superseded) else s.docs[j])
      && t.events != [] && Tells(t.events[0], |t.events|, doc, Activated, s.docs[i].status, now)
      && TellsSuperseded(s.events, t.events[1..], Filter(s.docs, Rival(s.docs[i])), now)
      && SameRest(s, t) && t.attempts == (if s.profile == ActivationConflict then s.attempts + 1 else s.attempts)
  {
    FirstRowIsFound(s.docs, docId, i);
    SupersedeFacts(s.docs, s.events, s.docs[i], now, 0);
    SupersedingTells(s.docs, s.events, s.docs[i], now, 0);
    assert s.docs[0..] == s.docs;
    var counted := if s.profile == ActivationConflict then s.(attempts := s.attempts + 1) else s;
    ActivationIsPromotion(s, i, now, counted);
    var t := MakeActive(counted, i, now).0;
    assert t.events[1..] == SupersedePeers(s.docs, s.events, s.docs[i], now, 0).1;
  }

  lemma ActivationIsPromotion(s: Flow, i: nat, now: string, counted: Flow)
    requires i < |s.docs| && MayTake(s, s.docs[i], Activate)
    requires counted == if s.profile == ActivationConflict then s.(attempts := s.attempts + 1) else s
    ensures ApplyLifecycle(s, i, Activate, now) == MakeActive(counted, i, now)
  {
  }

  // ---------------------------------------------------------------- uploads, deliveries, settings

  /** An upload adds a draft of German terms in front, with the default label if none is given, and logs it. */
  lemma UploadEffect(s: Flow, id: string, versionLabel: Option<string>, now: string)
    ensures var t := Step(s, Upload(id, versionLabel, now));
      var version := if versionLabel.Some? then versionLabel.value else "2026-07-draft";
      var doc := Doc(id, "TERMS_AND_CONDITIONS", "de", version, true, true, Draft, None, None, None, None);
      && t.docs == [doc] + s.docs
      && t.events != [] && t.events[1..] == s.events
      && t.events[0] ==
        LogEntry(|s.events| + 1, id, Uploaded, None, Draft, version, "de", "TERMS_AND_CONDITIONS", now)
      && SameRest(s, t) && t.attempts == s.attempts
  {
  }

  /** A delivery report with a new request id is stored with its defaults; a known one is answered from the store. */
  lemma DeliveryEffect(s: Flow, requestId: string, docId: Option<string>, versionLabel: Option<string>)
    ensures var (t, httpStatus, row) := DeliverRequest(s, requestId, docId, versionLabel);
      if forall i :: 0 <= i < |s.evidence| ==> s.evidence[i].requestId != requestId then
        && httpStatus == 201 && t == s.(evidence := s.evidence + [row])
        && row == Evidence(|s.evidence| + 1, requestId,
                           if docId.Some? then docId.value else "doc-agb-active",
                           if versionLabel.Some? then versionLabel.value else "2026-01")
      else
        && httpStatus == 200 && t == s
        && exists i :: 0 <= i < |s.evidence| && row == s.evidence[i] && row.requestId == requestId
             && forall j :: 0 <= j < i ==> s.evidence[j].requestId != requestId
  {
  }

  /** Each setting changes its own field, for whatever the next requests do. */
  lemma SettingsEffect(s: Flow, userId: string, profile: Profile, complete: bool)
    ensures var t := Run(s, [SetUser(userId), SetProfile(profile)]);
      t == Flow(profile, userId, s.docs, s.events, s.evidence, s.attempts, s.bookingComplete)
    ensures Step(s, SetBookingComplete(complete)) ==
      Flow(s.profile, s.userId, s.docs, s.events, s.evidence, s.attempts, complete)
  {
    RunOfTwo(s, SetUser(userId), SetProfile(profile));
  }

  /** Leaving the conflict profile lifts its limit: an activation it alone refused is then accepted. */
  lemma ProfileSwitchLiftsConflict(s: Flow, docId: string, now: string)
    requires LifecycleRequest(s, docId, Activate, now).1 == Err(ActiveConflict)
    ensures s.profile == ActivationConflict
    ensures LifecycleRequest(Step(s, SetProfile(LifecycleDefault)), docId, Activate, now).1.Ok?
  {
    var i := FirstWithId(s.docs, docId);
    var t := Step(s, SetProfile(LifecycleDefault));
    RefusalReason(s, docId, Activate, now);
    FirstRowIsFound(s.docs, docId, i);
    AcceptedIff(t, docId, Activate, now);
    assert IsFirstRow(t.docs, docId, i) && MayTake(t, t.docs[i], Activate);
  }

  /** The user set last is the one an approval or a submission names. */
  lemma ActorIsCurrentUser(s: Flow, userId: string, docId: string, now: string, i: nat)
    requires IsFirstRow(s.docs, docId, i)
    ensures s.docs[i].status == Draft ==>
      Run(s, [SetUser(userId), Lifecycle(docId, SubmitForReview, now)]).docs ==
        s.docs[i := s.docs[i].(status := InReview, submittedBy := Some(userId))]
    ensures s.docs[i].status == InReview ==>
      Run(s, [SetUser(userId), Lifecycle(docId, Approve, now)]).docs ==
        s.docs[i := s.docs[i].(status := Approved, approvedBy := Some(userId))]
  {
    var t := Step(s, SetUser(userId));
    assert t == s.(userId := userId);
    RunOfTwo(s, SetUser(userId), Lifecycle(docId, SubmitForReview, now));
    RunOfTwo(s, SetUser(userId), Lifecycle(docId, Approve, now));
    if s.docs[i].status == Draft {
      AcceptedEffect(t, docId, SubmitForReview, now, i);
    } else if s.docs[i].status == InReview {
      AcceptedEffect(t, docId, Approve, now, i);
    }
  }

  lemma RunOfTwo(s: Flow, c: Command, d: Command)
    ensures Run(s, [c, d]) == Step(Step(s, c), d)
  {
    assert [c, d][1..] == [d] && [d][1..] == [];
    assert Run(Step(s, c), [d]) == Run(Step(Step(s, c), d), []);
  }

  // ---------------------------------------------------------------- whole lifecycles

  /** The newest row has the id, this status and start, and passed its scan; the older rows are `older`. */
  ghost predicate Newest(s: Flow, id: string, status: Status, activeFrom: Option<string>, older: seq<Doc>) {
    && s.docs != [] && s.docs[0].id == id && s.docs[0].status == status && s.docs[0].activeFrom == activeFrom
    && s.docs[0].scanPassed && SameSlot(s.docs[0], BaseDoc(id, "", Draft)) && s.docs[1..] == older
  }

  lemma NewestMoves(s: Flow, id: string, action: Action, now: string, from: Option<string>, older: seq<Doc>)
    requires s.docs != [] && Newest(s, id, s.docs[0].status, from, older)
    requires MayTake(s, s.docs[0], action) && action != Activate
    ensures var t, doc := Step(s, Lifecycle(id, action, now)), RowAfter(s.docs[0], action, s.userId, now);
      Newest(t, id, doc.status, doc.activeFrom, older) && t.profile == s.profile && t.attempts == s.attempts
  {
    AcceptedEffect(s, id, action, now, 0);
  }

  lemma DraftIsScheduled(s: Flow, id: string, version: Option<string>, validFrom: Option<string>, now: string)
    ensures var uploaded := Step(s, Upload(id, version, now));
      var submitted := Step(uploaded, Lifecycle(id, SubmitForReview, now));
      var returned := Step(submitted, Lifecycle(id, RequestChanges, now));
      var resubmitted := Step(returned, Lifecycle(id, SubmitForReview, now));
      var approved := Step(resubmitted, Lifecycle(id, Approve, now));
      var scheduled := Step(approved, Lifecycle(id, Schedule(validFrom), now));
      && Newest(uploaded, id, Draft, None, s.docs) && Newest(submitted, id, InReview, None, s.docs)
      && Newest(returned, id, Draft, None, s.docs) && Newest(resubmitted, id, InReview, None, s.docs)
      && Newest(approved, id, Approved, None, s.docs)
      && Newest(scheduled, id, Scheduled, if validFrom.Some? then validFrom else Some(now), s.docs)
      && scheduled.profile == s.profile && scheduled.attempts == s.attempts
  {
    UploadEffect(s, id, version, now);
    var uploaded := Step(s, Upload(id, version, now));
    NewestMoves(uploaded, id, SubmitForReview, now, None, s.docs);
    var submitted := Step(uploaded, Lifecycle(id, SubmitForReview, now));
    NewestMoves(submitted, id, RequestChanges, now, None, s.docs);
    var returned := Step(submitted, Lifecycle(id, RequestChanges, now));
    NewestMoves(returned, id, SubmitForReview, now, None, s.docs);
    var resubmitted := Step(returned, Lifecycle(id, SubmitForReview, now));
    NewestMoves(resubmitted, id, Approve, now, None, s.docs);
    NewestMoves(Step(resubmitted, Lifecycle(id, Approve, now)), id, Schedule(validFrom), now, None, s.docs);
  }

  /** Once scheduled, activation makes it active from its start and supersedes the active versions of the slot. */
  lemma ScheduledIsActivated(s: Flow, id: string, start: string, now: string, older: seq<Doc>)
    requires Newest(s, id, Scheduled, Some(start), older)
    requires s.profile == ActivationConflict ==> s.attempts == 0
    ensures var t := Step(s, Lifecycle(id, Activate, now));
      && |t.docs| == |older| + 1
      && t.docs[0].id == id && t.docs[0].status == Active
      && t.docs[0].activeFrom == Some(start) && t.docs[0].activatedAt == Some(now)
      && (forall j :: 0 <= j < |older| && Rival(BaseDoc(id, "", Draft))(older[j]) ==>
            t.docs[j + 1] == older[j].(status := Superseded))
  {
    ActivationEffect(s, id, now, 0);
    assert forall j :: 0 <= j < |older| ==> s.docs[j + 1] == older[j];
  }

  ghost predicate OnlyActive(docs: seq<Doc>, i: int) {
    forall j :: 0 <= j < |docs| ==> (docs[j].status == Active <==> j == i)
  }

  /**
    What a reset leaves: one active version, or none where a profile is about activating one; a
    failed scan, a failed integrity check and a complete booking exactly in the profiles named after
    them; and a log that tells the activation of the active version or nothing.
   */
  lemma ResetProfiles(profile: Profile, now: string)
    ensures var s := Reset(profile, now);
      && s.profile == profile && s.userId == "user-legal-admin" && s.evidence == [] && s.attempts == 0
      && (s.bookingComplete <==> profile == PickupAllowed)
      && |s.docs| == (if profile in {HistoricalSnapshot, ActivationConflict} then 2 else 1)
      && OnlyActive(s.docs, if profile in {ScanFailed, ActivationConflict} then -1 else |s.docs| - 1)
      && (forall i :: 0 <= i < |s.docs| ==>
            && (s.docs[i].scanPassed <==> profile != ScanFailed)
            && (s.docs[i].integrityVerified <==> profile != IntegrityFailed)
            && s.docs[i].documentType == "TERMS_AND_CONDITIONS" && s.docs[i].language == "de")
      && (profile in {ScanFailed, ActivationConflict} ==>
            forall i :: 0 <= i < |s.docs| ==> s.docs[i].status == Approved)
      && (profile == HistoricalSnapshot ==> s.docs[0].status == Superseded)
      && (profile in {LifecycleDefault, PickupBlocked, PickupAllowed} ==>
            && |s.events| == 1 && s.events[0].createdAt == "2026-01-01T00:00:00.000Z"
            && Tells(s.events[0], 1, s.docs[0], Activated, Approved, "2026-01-01T00:00:00.000Z"))
      && (profile !in {LifecycleDefault, PickupBlocked, PickupAllowed} ==> s.events == [])
  {
  }

  /** Under the conflict profile the first activation succeeds and every later one answers 409. */
  lemma ConflictScenario(now: string)
    ensures var s := Reset(ActivationConflict, now);
      var (t, first) := LifecycleRequest(s, "doc-conflict-a", Activate, now);
      var second := LifecycleRequest(t, "doc-conflict-b", Activate, now).1;
      first.Ok? && second == Err(ActiveConflict) && second.error.HttpStatus() == 409
  {
    var s := Reset(ActivationConflict, now);
    assert s.docs[0].id == "doc-conflict-a" && s.docs[1].id == "doc-conflict-b";
    assert "doc-conflict-a"[13] != "doc-conflict-b"[13];
    assert IsFirstRow(s.docs, "doc-conflict-a", 0) && IsFirstRow(s.docs, "doc-conflict-b", 1);
    ActivationEffect(s, "doc-conflict-a", now, 0);
    var t := LifecycleRequest(s, "doc-conflict-a", Activate, now).0;
    assert IsFirstRow(t.docs, "doc-conflict-b", 1);
    FirstRowIsFound(t.docs, "doc-conflict-b", 1);
  }

  /** A document whose scan failed is never activated. */
  lemma ScanFailedScenario(now: string)
    ensures var (t, reply) := LifecycleRequest(Reset(ScanFailed, now), "doc-scan-fail", Activate, now);
      reply == Err(ScanNotPassed) && reply.error.HttpStatus() == 422 && t == Reset(ScanFailed, now)
  {
    assert IsFirstRow(Reset(ScanFailed, now).docs, "doc-scan-fail", 0);
    FirstRowIsFound(Reset(ScanFailed, now).docs, "doc-scan-fail", 0);
  }
}
