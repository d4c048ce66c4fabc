/**
  The edges of the legal-document server: the conflict profile admits one activation, activating a
  row whose id an active version also carries is exactly what breaks the single active version,
  and delivery reports are idempotent.
*/
module LegalFlowEdges {
  import opened Options
  import opened LegalFlow
  import opened LegalFlowHistory

  // ---------------------------------------------------------------- activation conflict

  ghost function Activations(events: seq<LogEntry>): nat {
    if events == [] then 0 else (if events[0].kind == Activated then 1 else 0) + Activations(events[1..])
  }

  lemma PushCounts(events: seq<LogEntry>, e: LogEntry)
    ensures Activations([e] + events) == Activations(events) + (if e.kind == Activated then 1 else 0)
  {
  }

  lemma {:induction false} SupersedeAddsNoActivation(docs: seq<Doc>, events: seq<LogEntry>,
                                                     doc: Doc, now: string, i: nat)
    requires i <= |docs|
    ensures Activations(SupersedePeers(docs, events, doc, now, i).1) == Activations(events)
    decreases |docs| - i
  {
    if i < |docs| {
      if IsActivePeer(docs[i], doc) {
        var pushed := Push(events, docs[i], Replaced, Some(Active), Superseded, now);
        PushCounts(events, pushed[0]);
        SupersedeAddsNoActivation(docs[i := docs[i].(status := Superseded)], pushed, doc, now, i + 1);
      } else {
        SupersedeAddsNoActivation(docs, events, doc, now, i + 1);
      }
    }
  }

  lemma TransitionCounts(s: Flow, i: nat, doc: Doc, kind: EventKind, now: string)
    requires i < |s.docs|
    ensures Activations(Transition(s, i, doc, kind, now).0.events) ==
      Activations(s.events) + (if kind == Activated then 1 else 0)
  {
  }

  /** Every activation but the first counted attempt is refused. */
  ghost predicate OneActivation(s: Flow) {
    s.profile == ActivationConflict && Activations(s.events) == (if s.attempts == 0 then 0 else 1)
  }

  lemma ConflictStep(s: Flow, i: nat, action: Action, now: string)
    requires OneActivation(s) && i < |s.docs|
    ensures OneActivation(ApplyLifecycle(s, i, action, now).0)
  {
    var (t, reply) := ApplyLifecycle(s, i, action, now);
    var doc := s.docs[i];
    match reply {
      case Err(_) =>
      case Ok(doc') =>
        match action {
          case SubmitForReview => TransitionCounts(s, i, doc', SubmittedForReview, now);
          case RequestChanges => TransitionCounts(s, i, doc', ChangesRequested, now);
          case Approve => TransitionCounts(s, i, doc', ApprovalGiven, now);
          case Schedule(_) => TransitionCounts(s, i, doc', ActivationScheduled, now);
          case Activate =>
            var (docs, events) := SupersedePeers(s.docs, s.events, doc, now, 0);
            SupersedeFacts(s.docs, s.events, doc, now, 0);
            SupersedeAddsNoActivation(s.docs, s.events, doc, now, 0);
            TransitionCounts(s.(attempts := 1, docs := docs, events := events), i, doc', Activated, now);
          case UnknownAction(_) => assert false;
        }
    }
  }

  /** Under a fixed activation-conflict profile at most one activation ever succeeds. */
  lemma {:induction false} ConflictProfileActivatesOnce(s: Flow, cs: seq<Command>)
    requires OneActivation(s)
    requires forall i :: 0 <= i < |cs| ==> !cs[i].SetProfile?
    ensures OneActivation(Run(s, cs)) && Activations(Run(s, cs).events) <= 1
    decreases |cs|
  {
    if cs != [] {
      match cs[0] {
        case Lifecycle(docId, action, now) =>
          if FirstWithId(s.docs, docId) < |s.docs| {
            ConflictStep(s, FirstWithId(s.docs, docId), action, now);
          }
        case Upload(id, versionLabel, now) => PushCounts(s.events, Step(s, cs[0]).events[0]);
        case _ =>
      }
      ConflictProfileActivatesOnce(Step(s, cs[0]), cs[1..]);
    }
  }

  lemma ConflictResetAllowsOne(now: string, cs: seq<Command>)
    requires forall i :: 0 <= i < |cs| ==> !cs[i].SetProfile?
    ensures Activations(Run(Reset(ActivationConflict, now), cs).events) <= 1
  {
    ConflictProfileActivatesOnce(Reset(ActivationConflict, now), cs);
  }

  // ---------------------------------------------------------------- what breaks the single active version

  /** The status, scan and conflict guards let document `i` through. */
  predicate Activatable(s: Flow, i: nat)
    requires i < |s.docs|
  {
    && s.docs[i].status in {Approved, Scheduled, Active}
    && s.docs[i].scanPassed
    && !(s.profile == ActivationConflict && s.attempts > 0)
  }

  /** Another row carries the id of row `i` and is an active version of its slot. */
  ghost predicate HasActiveTwin(docs: seq<Doc>, i: nat)
    requires i < |docs|
  {
    exists j :: 0 <= j < |docs| && j != i &&
      docs[j].id == docs[i].id && docs[j].status == Active && SameSlot(docs[j], docs[i])
  }

  /** An accepted activation of a row whose id is also carried by an active version of its slot. */
  ghost predicate TwinActivation(s: Flow, c: Command) {
    && c.Lifecycle? && c.action == Activate
    && var i := FirstWithId(s.docs, c.docId);
      i < |s.docs| && Activatable(s, i) && HasActiveTwin(s.docs, i)
  }

  lemma ActivationFacts(s: Flow, i: nat, now: string)
    requires i < |s.docs|
    ensures var t := ApplyLifecycle(s, i, Activate, now).0;
      if !Activatable(s, i) then t.docs == s.docs
      else
        && |t.docs| == |s.docs|
        && t.docs[i].id == s.docs[i].id && t.docs[i].status == Active && SameSlot(t.docs[i], s.docs[i])
        && (forall j :: 0 <= j < |s.docs| && j != i ==>
              t.docs[j] == if IsActivePeer(s.docs[j], s.docs[i]) then s.docs[j].(status := Superseded) else s.docs[j])
  {
    SupersedeFacts(s.docs, s.events, s.docs[i], now, 0);
  }

  lemma PromotedIsAloneIff(docs: seq<Doc>, docs': seq<Doc>, i: nat)
    requires SingleActive(docs) && i < |docs| == |docs'|
    requires docs'[i].id == docs[i].id && docs'[i].status == Active && SameSlot(docs'[i], docs[i])
    requires forall j :: 0 <= j < |docs| && j != i ==>
      docs'[j] == if IsActivePeer(docs[j], docs[i]) then docs[j].(status := Superseded) else docs[j]
    ensures SingleActive(docs') <==> !HasActiveTwin(docs, i)
  {
    if HasActiveTwin(docs, i) {
      var j :| 0 <= j < |docs| && j != i &&
        docs[j].id == docs[i].id && docs[j].status == Active && SameSlot(docs[j], docs[i]);
      assert docs'[j] == docs[j];
    } else {
      forall j, k | 0 <= j < k < |docs| && docs'[j].status == Active && docs'[k].status == Active
        ensures !SameSlot(docs'[j], docs'[k])
      {
        assert j != i ==> docs'[j] == docs[j];
        assert k != i ==> docs'[k] == docs[k];
      }
    }
  }

  lemma OtherActionsKeepSingleActive(s: Flow, i: nat, action: Action, now: string)
    requires SingleActive(s.docs) && i < |s.docs| && action != Activate
    ensures SingleActive(ApplyLifecycle(s, i, action, now).0.docs)
  {
    var docs := ApplyLifecycle(s, i, action, now).0.docs;
    assert |docs| == |s.docs|;
    assert forall j :: 0 <= j < |docs| && docs[j].status == Active ==> docs[j] == s.docs[j];
  }

  /** From any state with single active versions, a request keeps them single unless it is a twin activation. */
  lemma StepKeepsSingleActiveIff(s: Flow, c: Command)
    requires SingleActive(s.docs)
    ensures SingleActive(Step(s, c).docs) <==> !TwinActivation(s, c)
  {
    match c {
      case Lifecycle(docId, action, now) =>
        var i := FirstWithId(s.docs, docId);
        if i < |s.docs| {
          if action != Activate {
            OtherActionsKeepSingleActive(s, i, action, now);
          } else {
            ActivationFacts(s, i, now);
            if Activatable(s, i) {
              PromotedIsAloneIff(s.docs, Step(s, c).docs, i);
            }
          }
        }
      case Upload(id, versionLabel, now) =>
        var docs := Step(s, c).docs;
        assert forall j :: 1 <= j < |docs| ==> docs[j] == s.docs[j - 1];
      case _ =>
    }
  }

  ghost predicate AlwaysSingleActive(s: Flow, cs: seq<Command>)
    decreases |cs|
  {
    SingleActive(s.docs) && (cs == [] || AlwaysSingleActive(Step(s, cs[0]), cs[1..]))
  }

  ghost predicate NoTwinActivation(s: Flow, cs: seq<Command>)
    decreases |cs|
  {
    cs == [] || (!TwinActivation(s, cs[0]) && NoTwinActivation(Step(s, cs[0]), cs[1..]))
  }

  /**
    Over any run, uploads with re-used ids included, every state has at most one active version
    per slot exactly when no request of the run is a twin activation.
   */
  lemma {:induction false} RunKeepsSingleActiveIff(s: Flow, cs: seq<Command>)
    requires SingleActive(s.docs)
    ensures AlwaysSingleActive(s, cs) <==> NoTwinActivation(s, cs)
    ensures NoTwinActivation(s, cs) ==> SingleActive(Run(s, cs).docs)
    decreases |cs|
  {
    if cs != [] {
      StepKeepsSingleActiveIff(s, cs[0]);
      if !TwinActivation(s, cs[0]) {
        RunKeepsSingleActiveIff(Step(s, cs[0]), cs[1..]);
      }
    }
  }

  // ---------------------------------------------------------------- re-used upload ids

  /** Upload a version and take it straight to activation. */
  function PublishRoute(id: string, now: string): seq<Command> {
    [ Upload(id, None, now), Lifecycle(id, SubmitForReview, now),
      Lifecycle(id, Approve, now), Lifecycle(id, Activate, now) ]
  }

  /** An active version of the uploaded slot already carries this id. */
  ghost predicate HoldsActive(docs: seq<Doc>, id: string) {
    exists i :: 0 <= i < |docs| &&
      docs[i].id == id && docs[i].status == Active && SameSlot(docs[i], BaseDoc(id, "", Draft))
  }

  lemma PublishResult(s: Flow, id: string, now: string)
    ensures var approved := Run(s, PublishRoute(id, now)[..3]);
      && |approved.docs| == |s.docs| + 1
      && Run(s, PublishRoute(id, now)) == Step(approved, Lifecycle(id, Activate, now))
      && FirstWithId(approved.docs, id) == 0
      && approved.docs[1..] == s.docs
      && approved.docs[0].id == id && approved.docs[0].status == Approved && approved.docs[0].scanPassed
      && SameSlot(approved.docs[0], BaseDoc(id, "", Draft))
      && approved.profile == s.profile && approved.attempts == s.attempts
  {
    var cs := PublishRoute(id, now);
    var s1 := Step(s, cs[0]);
    var s2 := Step(s1, cs[1]);
    var s3 := Step(s2, cs[2]);
    assert FirstWithId(s1.docs, id) == 0;
    assert FirstWithId(s2.docs, id) == 0;
    assert FirstWithId(s3.docs, id) == 0;
    assert cs[1..][1..] == cs[2..] && cs[2..][1..] == cs[3..] && cs[3..][1..] == [];
    calc {
      Run(s, cs);
      Run(s1, cs[1..]);
      Run(s2, cs[2..]);
      Run(s3, cs[3..]);
      Run(Step(s3, cs[3]), []);
    }
    var front := cs[..3];
    assert front[1..][1..] == [cs[2]] && [cs[2]][1..] == [];
    calc {
      Run(s, front);
      Run(s1, front[1..]);
      Run(s2, [cs[2]]);
      Run(s3, []);
    }
  }

  /**
    Publishing an uploaded version keeps a single active version exactly when the upload id is
    not already carried by an active version of that slot, or the conflict profile refuses the
    activation.
   */
  lemma PublishKeepsSingleActiveIff(s: Flow, id: string, now: string)
    requires SingleActive(s.docs)
    ensures SingleActive(Run(s, PublishRoute(id, now)).docs) <==>
      !HoldsActive(s.docs, id) || (s.profile == ActivationConflict && s.attempts > 0)
  {
    PublishResult(s, id, now);
    var approved := Run(s, PublishRoute(id, now)[..3]);
    assert forall j :: 1 <= j < |approved.docs| ==> approved.docs[j] == s.docs[j - 1];
    assert SingleActive(approved.docs);
    StepKeepsSingleActiveIff(approved, Lifecycle(id, Activate, now));
    assert HasActiveTwin(approved.docs, 0) <==> HoldsActive(s.docs, id) by {
      forall j | 0 <= j < |s.docs| ensures approved.docs[j + 1] == s.docs[j] {}
    }
  }

  /** Two uploads in the same millisecond share an id; publishing both leaves two active versions. */
  lemma SameMillisecondUploadsBreakSingleActive(s: Flow, id: string, now: string)
    requires Good(s) && s.profile != ActivationConflict && FirstWithId(s.docs, id) == |s.docs|
    ensures SingleActive(Run(s, PublishRoute(id, now)).docs)
    ensures !SingleActive(Run(Run(s, PublishRoute(id, now)), PublishRoute(id, now)).docs)
  {
    var t := Run(s, PublishRoute(id, now));
    PublishResult(s, id, now);
    PublishKeepsSingleActiveIff(s, id, now);
    ActivationFacts(Run(s, PublishRoute(id, now)[..3]), 0, now);
    assert t.docs[0].id == id && t.docs[0].status == Active && SameSlot(t.docs[0], BaseDoc(id, "", Draft));
    assert t.profile == s.profile;
    PublishKeepsSingleActiveIff(t, id, now);
  }

  // ---------------------------------------------------------------- delivery evidence

  lemma FirstForRequestOfExtension(rows: seq<Evidence>, more: seq<Evidence>, requestId: string)
    requires FirstForRequest(rows, requestId) < |rows|
    ensures FirstForRequest(rows + more, requestId) == FirstForRequest(rows, requestId)
  {
    var i, j := FirstForRequest(rows, requestId), FirstForRequest(rows + more, requestId);
    assert (rows + more)[i] == rows[i];
    assert j < |rows| ==> (rows + more)[j] == rows[j];
  }

  lemma {:induction false} EvidenceOnlyGrows(s: Flow, cs: seq<Command>)
    ensures s.evidence <= Run(s, cs).evidence
    decreases |cs|
  {
    if cs != [] {
      assert s.evidence <= Step(s, cs[0]).evidence by {
        if cs[0].Lifecycle? {
          EvidenceUntouched(s, cs[0].docId, cs[0].action, cs[0].now);
        }
      }
      EvidenceOnlyGrows(Step(s, cs[0]), cs[1..]);
    }
  }

  lemma EvidenceUntouched(s: Flow, docId: string, action: Action, now: string)
    ensures LifecycleRequest(s, docId, action, now).0.evidence == s.evidence
  {
  }

  /**
    However long a run lies between them, a repeated delivery report with the same request id is
    answered with the row stored by the first report, and stores nothing.
   */
  lemma DeliveryIsIdempotent(s: Flow, requestId: string, docId: Option<string>, version: Option<string>,
                             cs: seq<Command>, docId': Option<string>, version': Option<string>)
    ensures var (t, _, row) := DeliverRequest(s, requestId, docId, version);
      var later := Run(t, cs);
      row.requestId == requestId && DeliverRequest(later, requestId, docId', version') == (later, 200, row)
  {
    var (t, _, row) := DeliverRequest(s, requestId, docId, version);
    var later := Run(t, cs);
    EvidenceOnlyGrows(t, cs);
    var more := later.evidence[|t.evidence|..];
    assert later.evidence == t.evidence + more;
    var i := FirstForRequest(t.evidence, requestId);
    if s.evidence != t.evidence {
      assert t.evidence[|s.evidence|] == row;
    }
    assert i < |t.evidence|;
    assert t.evidence[i] == row by {
      var j := FirstForRequest(s.evidence, requestId);
      if j == |s.evidence| {
        assert forall k :: 0 <= k < |s.evidence| ==> t.evidence[k] == s.evidence[k];
        assert i == |s.evidence|;
      }
    }
    FirstForRequestOfExtension(t.evidence, more, requestId);
  }
}
