/**
  Progress in every run of the legal-document server: rows never lose their identity, approval is
  never undone except by uploading the id again, and it always has an approval in the log.
*/
module LegalFlowProgress {
  import opened Options
  import opened LegalFlow
  import opened LegalFlowHistory

  // ---------------------------------------------------------------- rows move forward

  function Rank(status: Status): nat {
    match status
    case Draft => 0
    case InReview => 1
    case Approved => 2
    case Scheduled => 3
    case Active => 4
    case Superseded => 5
  }

  /** The fields that no request changes. */
  ghost predicate SameIdentity(a: Doc, b: Doc) {
    a.id == b.id && SameSlot(a, b) && a.versionLabel == b.versionLabel
  }

  /** The row keeps its identity and, from approval on, never falls back. */
  ghost predicate MovesForward(before: Doc, after: Doc) {
    && SameIdentity(after, before)
    && (Rank(before.status) >= 2 ==> Rank(before.status) <= Rank(after.status))
  }

  /** Rows are added in front, so row `i` of `before` is found that much further back in `after`. */
  ghost predicate RowMovesForward(before: seq<Doc>, after: seq<Doc>, i: int) {
    0 <= i < |before| <= |after| && MovesForward(before[i], after[|after| - |before| + i])
  }

  ghost predicate RowsMoveForward(before: seq<Doc>, after: seq<Doc>) {
    |before| <= |after| && forall i :: 0 <= i < |before| ==> RowMovesForward(before, after, i)
  }

  lemma RowsMoveForwardTransitive(a: seq<Doc>, b: seq<Doc>, c: seq<Doc>)
    requires RowsMoveForward(a, b) && RowsMoveForward(b, c)
    ensures RowsMoveForward(a, c)
  {
    forall i | 0 <= i < |a| ensures RowMovesForward(a, c, i) {
      assert RowMovesForward(a, b, i) && RowMovesForward(b, c, |b| - |a| + i);
    }
  }

  lemma OneRowMovesForward(docs: seq<Doc>, i: nat, doc: Doc)
    requires i < |docs| && MovesForward(docs[i], doc)
    ensures RowsMoveForward(docs, docs[i := doc])
  {
  }

  lemma MakeActiveMovesForward(s: Flow, i: nat, now: string)
    requires i < |s.docs| && s.docs[i].status in {Approved, Scheduled, Active}
    ensures |MakeActive(s, i, now).0.docs| == |s.docs| && RowsMoveForward(s.docs, MakeActive(s, i, now).0.docs)
  {
    var docs, after := SupersedePeers(s.docs, s.events, s.docs[i], now, 0).0, MakeActive(s, i, now).0.docs;
    SupersedeFacts(s.docs, s.events, s.docs[i], now, 0);
    forall j | 0 <= j < |s.docs| ensures RowMovesForward(s.docs, after, j) {
      assert j != i ==> after[j] == docs[j];
    }
  }

  lemma ActivateMovesForward(s: Flow, i: nat, now: string)
    requires i < |s.docs|
    ensures var docs := ApplyLifecycle(s, i, Activate, now).0.docs;
      |docs| == |s.docs| && RowsMoveForward(s.docs, docs)
  {
    if ApplyLifecycle(s, i, Activate, now).1.Ok? {
      MakeActiveMovesForward(if s.profile == ActivationConflict then s.(attempts := s.attempts + 1) else s, i, now);
    }
  }

  lemma LifecycleMovesForward(s: Flow, i: nat, action: Action, now: string)
    requires i < |s.docs|
    ensures var docs := ApplyLifecycle(s, i, action, now).0.docs;
      |docs| == |s.docs| && RowsMoveForward(s.docs, docs)
  {
    if action == Activate {
      ActivateMovesForward(s, i, now);
    } else {
      OtherActionsMoveForward(s, i, action, now);
    }
  }

  lemma OtherActionsMoveForward(s: Flow, i: nat, action: Action, now: string)
    requires i < |s.docs| && action != Activate
    ensures var docs := ApplyLifecycle(s, i, action, now).0.docs;
      |docs| == |s.docs| && RowsMoveForward(s.docs, docs)
  {
    var t := ApplyLifecycle(s, i, action, now).0;
    if t.docs == s.docs {
      SameRowsMoveForward(s.docs);
    } else {
      OneRowMovesForward(s.docs, i, t.docs[i]);
    }
  }

  lemma SameRowsMoveForward(docs: seq<Doc>)
    ensures RowsMoveForward(docs, docs)
  {
  }

  lemma NewRowMovesForward(docs: seq<Doc>, doc: Doc)
    ensures RowsMoveForward(docs, [doc] + docs)
  {
  }

  lemma StepMovesForward(s: Flow, c: Command)
    ensures RowsMoveForward(s.docs, Step(s, c).docs)
    ensures |Step(s, c).docs| == |s.docs| + (if c.Upload? then 1 else 0)
  {
    match c {
      case Lifecycle(docId, action, now) =>
        var i := FirstWithId(s.docs, docId);
        if i < |s.docs| {
          LifecycleMovesForward(s, i, action, now);
        } else {
          SameRowsMoveForward(s.docs);
        }
      case Upload(_, _, _) => NewRowMovesForward(s.docs, Step(s, c).docs[0]);
      case _ => SameRowsMoveForward(s.docs);
    }
  }

  /**
    Over every run, re-used ids included, every row keeps its id, slot and version, and from
    approval on its status only moves forward along APPROVED, SCHEDULED, ACTIVE, SUPERSEDED.
   */
  lemma {:induction false} RunMovesForward(s: Flow, cs: seq<Command>)
    ensures RowsMoveForward(s.docs, Run(s, cs).docs)
    decreases |cs|
  {
    if cs != [] {
      StepMovesForward(s, cs[0]);
      RunMovesForward(Step(s, cs[0]), cs[1..]);
      RowsMoveForwardTransitive(s.docs, Step(s, cs[0]).docs, Run(s, cs).docs);
    }
  }

  lemma TwinsMoveForward(before: seq<Doc>, after: seq<Doc>)
    requires RowsMoveForward(before, after) && UniqueIds(after)
    ensures UniqueIds(before)
  {
    forall i, j | 0 <= i < j < |before| ensures before[i].id != before[j].id {
      assert RowMovesForward(before, after, i) && RowMovesForward(before, after, j);
    }
  }

  /** Ids stay unique over a run exactly when every upload of the run brings a fresh id. */
  lemma {:induction false} RunKeepsIdsUniqueIff(s: Flow, cs: seq<Command>)
    requires UniqueIds(s.docs)
    ensures UniqueIds(Run(s, cs).docs) <==> FreshUploads(s, cs)
    decreases |cs|
  {
    if cs != [] {
      var next := Step(s, cs[0]);
      if cs[0].Upload? && FirstWithId(s.docs, cs[0].id) < |s.docs| {
        assert next.docs[FirstWithId(s.docs, cs[0].id) + 1].id == next.docs[0].id;
        RunMovesForward(next, cs[1..]);
        if UniqueIds(Run(s, cs).docs) {
          TwinsMoveForward(next.docs, Run(s, cs).docs);
        }
      } else {
        assert FreshUploads(s, [cs[0]]) by { assert [cs[0]][1..] == []; }
        StepReplays(s, cs[0]);
        RunKeepsIdsUniqueIff(next, cs[1..]);
      }
    }
  }

  // ---------------------------------------------------------------- the status shown for an id

  lemma {:induction false} StatusesOfFirst(docs: seq<Doc>, id: string)
    ensures var i := FirstWithId(docs, id);
      (id in StatusesOf(docs) <==> i < |docs|) && (i < |docs| ==> StatusesOf(docs)[id] == docs[i].status)
  {
    if docs != [] && docs[0].id != id {
      StatusesOfFirst(docs[1..], id);
      FirstOfTail(docs, id);
    }
  }

  lemma FirstOfTail(docs: seq<Doc>, id: string)
    requires docs != [] && docs[0].id != id
    ensures FirstWithId(docs, id) == FirstWithId(docs[1..], id) + 1
  {
    var i, j := FirstWithId(docs, id), FirstWithId(docs[1..], id);
    assert j < |docs| - 1 ==> docs[j + 1].id == id;
    assert 1 <= i;
    assert i < |docs| ==> docs[1..][i - 1].id == id;
    assert forall k :: 0 <= k < j ==> docs[1..][k] == docs[k + 1];
  }

  lemma FirstMovesForward(before: seq<Doc>, after: seq<Doc>, id: string)
    requires RowsMoveForward(before, after) && FirstWithId(before, id) < |before|
    requires forall k :: 0 <= k < |after| - |before| ==> after[k].id != id
    ensures FirstWithId(after, id) < |after|
    ensures MovesForward(before[FirstWithId(before, id)], after[FirstWithId(after, id)])
  {
    var i, j, offset := FirstWithId(before, id), FirstWithId(after, id), |after| - |before|;
    assert RowMovesForward(before, after, i);
    assert offset <= j <= offset + i;
    assert RowMovesForward(before, after, j - offset);
  }

  lemma IdMovesForward(before: seq<Doc>, after: seq<Doc>, id: string)
    requires RowsMoveForward(before, after) && id in StatusesOf(before) && Rank(StatusesOf(before)[id]) >= 2
    requires forall k :: 0 <= k < |after| - |before| ==> after[k].id != id
    ensures id in StatusesOf(after) && Rank(StatusesOf(before)[id]) <= Rank(StatusesOf(after)[id])
  {
    StatusesOfFirst(before, id);
    StatusesOfFirst(after, id);
    FirstMovesForward(before, after, id);
  }

  lemma StepMovesIdForward(s: Flow, c: Command, id: string)
    requires id in StatusesOf(s.docs) && Rank(StatusesOf(s.docs)[id]) >= 2
    ensures id in StatusesOf(Step(s, c).docs)
    ensures Rank(StatusesOf(s.docs)[id]) <= Rank(StatusesOf(Step(s, c).docs)[id]) <==> !(c.Upload? && c.id == id)
  {
    if c.Upload? && c.id == id {
      UploadRestarts(s, c);
    } else {
      StepMovesForward(s, c);
      IdMovesForward(s.docs, Step(s, c).docs, id);
    }
  }

  lemma UploadRestarts(s: Flow, c: Command)
    requires c.Upload?
    ensures var docs := Step(s, c).docs;
      c.id in StatusesOf(docs) && StatusesOf(docs)[c.id] == Draft
  {
  }

  ghost predicate UploadsAgain(cs: seq<Command>, id: string) {
    exists i :: 0 <= i < |cs| && cs[i].Upload? && cs[i].id == id
  }

  /** The status shown for `id` never falls in a step of the run. */
  ghost predicate NeverFallsBack(s: Flow, cs: seq<Command>, id: string)
    decreases |cs|
  {
    cs == [] ||
    (var before, after := StatusesOf(s.docs), StatusesOf(Step(s, cs[0]).docs);
      && id in before && id in after && Rank(before[id]) <= Rank(after[id])
      && NeverFallsBack(Step(s, cs[0]), cs[1..], id))
  }

  /**
    From approval on the status shown for an id only moves forward, in every step of a run and
    over the whole of it, exactly when the run does not upload that id again.
   */
  lemma {:induction false} ApprovedOnlyMovesForwardIff(s: Flow, cs: seq<Command>, id: string)
    requires id in StatusesOf(s.docs) && Rank(StatusesOf(s.docs)[id]) >= 2
    ensures NeverFallsBack(s, cs, id) <==> !UploadsAgain(cs, id)
    ensures !UploadsAgain(cs, id) ==>
      var t := Run(s, cs); id in StatusesOf(t.docs) && Rank(StatusesOf(s.docs)[id]) <= Rank(StatusesOf(t.docs)[id])
    decreases |cs|
  {
    if cs != [] {
      var tail := cs[1..];
      StepMovesIdForward(s, cs[0], id);
      if cs[0].Upload? && cs[0].id == id {
        assert UploadsAgain(cs, id);
      } else {
        ApprovedOnlyMovesForwardIff(Step(s, cs[0]), tail, id);
        assert UploadsAgain(cs, id) <==> UploadsAgain(tail, id) by {
          assert forall i :: 1 <= i < |cs| ==> cs[i] == tail[i - 1];
          if i :| 0 <= i < |tail| && tail[i].Upload? && tail[i].id == id { assert cs[i + 1] == tail[i]; }
        }
      }
    }
  }

  // ---------------------------------------------------------------- approval in the log

  ghost predicate ApprovedAt(log: seq<LogEntry>, i: nat, id: string) {
    && i < |log| && log[i].docId == id && log[i].kind == ApprovalGiven
    && forall j :: 0 <= j < i && log[j].docId == id ==> log[j].kind != ChangesRequested
  }

  /** The newest-first log holds an approval of `id` with no later request for changes. */
  ghost predicate StandingApproval(log: seq<LogEntry>, id: string) {
    exists i: nat :: ApprovedAt(log, i, id)
  }

  lemma {:induction false} ReplayNeedsApproval(m: Statuses, log: seq<LogEntry>, id: string)
    requires Replay(m, log).Some? && id !in m
    requires id in Replay(m, log).value && Rank(Replay(m, log).value[id]) >= 2
    ensures StandingApproval(log, id)
  {
    var e := log[0];
    var before := Replay(m, log[1..]).value;
    if e.docId == id && e.kind == ApprovalGiven {
      assert ApprovedAt(log, 0, id);
    } else {
      assert id in before && Rank(before[id]) >= 2;
      ReplayNeedsApproval(m, log[1..], id);
      var i: nat :| ApprovedAt(log[1..], i, id);
      assert forall j :: 1 <= j < |log| ==> log[j] == log[1..][j - 1];
      assert ApprovedAt(log, i + 1, id);
    }
  }

  /**
    A document uploaded during a run is approved, scheduled, active or superseded only if the
    entries added by the run hold its approval with no later request for changes.
   */
  lemma ActiveNeedsStandingApproval(s: Flow, cs: seq<Command>, id: string)
    requires UniqueIds(s.docs) && FreshUploads(s, cs) && id !in StatusesOf(s.docs)
    requires id in StatusesOf(Run(s, cs).docs) && Rank(StatusesOf(Run(s, cs).docs)[id]) >= 2
    ensures var t := Run(s, cs);
      |s.events| <= |t.events| && StandingApproval(Added(s, t), id)
  {
    RunReplays(s, cs);
    var t := Run(s, cs);
    ReplayNeedsApproval(StatusesOf(s.docs), Added(s, t), id);
  }
}
