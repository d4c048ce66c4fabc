/**
  What the records of the legal-document server say about each other: every log entry describes a
  stored document, and every uploaded document names who moved it forward.
*/
module LegalFlowRecords {
  import opened Options
  import opened LegalFlow
  import opened LegalFlowHistory
  import opened LegalFlowProgress

  ghost predicate Describes(e: LogEntry, doc: Doc) {
    && e.docId == doc.id && e.documentType == doc.documentType
    && e.language == doc.language && e.versionLabel == doc.versionLabel
  }

  ghost predicate Described(e: LogEntry, docs: seq<Doc>) {
    exists i :: 0 <= i < |docs| && Describes(e, docs[i])
  }

  ghost predicate AllDescribed(events: seq<LogEntry>, docs: seq<Doc>) {
    forall i :: 0 <= i < |events| ==> Described(events[i], docs)
  }

  /** A document that has left the draft names its submitter, then its approver, then its start. */
  ghost predicate Attributed(doc: Doc) {
    && (Rank(doc.status) >= 1 ==> doc.submittedBy.Some?)
    && (Rank(doc.status) >= 2 ==> doc.approvedBy.Some?)
    && (doc.status == Scheduled || doc.status == Active ==> doc.activeFrom.Some?)
  }

  /** All documents but those listed, which were there at the reset, are attributed. */
  ghost predicate AllAttributed(docs: seq<Doc>, seeded: set<string>) {
    forall i :: 0 <= i < |docs| && docs[i].id !in seeded ==> Attributed(docs[i])
  }

  ghost predicate Recorded(s: Flow, seeded: set<string>) {
    AllDescribed(s.events, s.docs) && AllAttributed(s.docs, seeded)
  }

  lemma TransitionStaysRecorded(s: Flow, i: nat, doc: Doc, kind: EventKind, now: string, seeded: set<string>)
    requires Recorded(s, seeded) && i < |s.docs| && SameIdentity(doc, s.docs[i])
    requires doc.id !in seeded ==> Attributed(doc)
    ensures Recorded(Transition(s, i, doc, kind, now).0, seeded)
  {
    var t := Transition(s, i, doc, kind, now).0;
    forall k | 0 <= k < |t.events| ensures Described(t.events[k], t.docs) {
      if k == 0 {
        assert Describes(t.events[0], t.docs[i]);
      } else {
        assert t.events[k] == s.events[k - 1] && Described(s.events[k - 1], s.docs);
        var j :| 0 <= j < |s.docs| && Describes(s.events[k - 1], s.docs[j]);
        assert Describes(t.events[k], t.docs[j]);
      }
    }
  }

  lemma {:induction false} SupersedeStaysRecorded(s: Flow, doc: Doc, now: string, i: nat, seeded: set<string>)
    requires Recorded(s, seeded) && i <= |s.docs|
    ensures var (docs, events) := SupersedePeers(s.docs, s.events, doc, now, i);
      Recorded(s.(docs := docs, events := events), seeded)
    decreases |s.docs| - i
  {
    if i < |s.docs| {
      if IsActivePeer(s.docs[i], doc) {
        var peer := s.docs[i].(status := Superseded);
        TransitionStaysRecorded(s, i, peer, Replaced, now, seeded);
        SupersedeStaysRecorded(Transition(s, i, peer, Replaced, now).0, doc, now, i + 1, seeded);
      } else {
        SupersedeStaysRecorded(s, doc, now, i + 1, seeded);
      }
    }
  }

  lemma MakeActiveStaysRecorded(s: Flow, i: nat, now: string, seeded: set<string>)
    requires Recorded(s, seeded) && i < |s.docs| && s.docs[i].status in {Approved, Scheduled, Active}
    ensures Recorded(MakeActive(s, i, now).0, seeded)
  {
    var doc := s.docs[i];
    var (docs, events) := SupersedePeers(s.docs, s.events, doc, now, 0);
    SupersedeFacts(s.docs, s.events, doc, now, 0);
    SupersedeStaysRecorded(s, doc, now, 0, seeded);
    var promoted := MakeActive(s, i, now).0.docs[i];
    TransitionStaysRecorded(s.(docs := docs, events := events), i, promoted, Activated, now, seeded);
  }

  lemma LifecycleStaysRecorded(s: Flow, i: nat, action: Action, now: string, seeded: set<string>)
    requires Recorded(s, seeded) && i < |s.docs|
    ensures Recorded(ApplyLifecycle(s, i, action, now).0, seeded)
  {
    var (t, reply) := ApplyLifecycle(s, i, action, now);
    if reply.Ok? {
      if action == Activate {
        var counted := if s.profile == ActivationConflict then s.(attempts := s.attempts + 1) else s;
        MakeActiveStaysRecorded(counted, i, now, seeded);
      } else {
        TransitionStaysRecorded(s, i, t.docs[i], t.events[0].kind, now, seeded);
      }
    }
  }

  lemma UploadStaysRecorded(s: Flow, id: string, versionLabel: Option<string>, now: string, seeded: set<string>)
    requires Recorded(s, seeded)
    ensures Recorded(UploadRequest(s, id, versionLabel, now).0, seeded)
  {
    var t := UploadRequest(s, id, versionLabel, now).0;
    forall k | 0 <= k < |t.events| ensures Described(t.events[k], t.docs) {
      if k == 0 {
        assert Describes(t.events[0], t.docs[0]);
      } else {
        assert t.events[k] == s.events[k - 1] && Described(s.events[k - 1], s.docs);
        var j :| 0 <= j < |s.docs| && Describes(s.events[k - 1], s.docs[j]);
        assert Describes(t.events[k], t.docs[j + 1]);
      }
    }
  }

  /**
    Over any run, whatever ids its uploads bring: every log entry carries the id, type, language
    and version of a stored document, and every document that was not there at the start names
    its submitter from review on, its approver from approval on, and its start once scheduled.
   */
  lemma {:induction false} RunStaysRecorded(s: Flow, cs: seq<Command>, seeded: set<string>)
    requires Recorded(s, seeded)
    ensures Recorded(Run(s, cs), seeded)
    decreases |cs|
  {
    if cs != [] {
      match cs[0] {
        case Lifecycle(docId, action, now) =>
          if FirstWithId(s.docs, docId) < |s.docs| {
            LifecycleStaysRecorded(s, FirstWithId(s.docs, docId), action, now, seeded);
          }
        case Upload(id, versionLabel, now) => UploadStaysRecorded(s, id, versionLabel, now, seeded);
        case _ =>
      }
      RunStaysRecorded(Step(s, cs[0]), cs[1..], seeded);
    }
  }

  lemma ReachableStatesAreRecorded(profile: Profile, now: string, cs: seq<Command>)
    ensures Recorded(Run(Reset(profile, now), cs), StatusesOf(InitialDocs(profile, now)).Keys)
  {
    var s := Reset(profile, now);
    var seeded := StatusesOf(s.docs).Keys;
    forall i | 0 <= i < |s.docs| ensures s.docs[i].id in seeded {
      StatusesOfKeys(s.docs, s.docs[i].id);
    }
    forall i | 0 <= i < |s.events| ensures Described(s.events[i], s.docs) {
      assert Describes(s.events[0], s.docs[0]);
    }
    RunStaysRecorded(s, cs, seeded);
  }
}
