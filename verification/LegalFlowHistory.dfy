/**
  What every run of the legal-document server keeps: the log replays to the documents, and at most
  one version per slot is active.
*/
module LegalFlowHistory {
  import opened Options
  import opened LegalFlow

  // ---------------------------------------------------------------- replaying the log

  type Statuses = map<string, Status>

  function StatusesOf(docs: seq<Doc>): Statuses {
    if docs == [] then map[] else StatusesOf(docs[1..])[docs[0].id := docs[0].status]
  }

  /** The transitions of the lifecycle, by the event that records them. */
  predicate LegalStep(kind: EventKind, previous: Option<Status>, next: Status) {
    match kind
    case Uploaded => previous == None && next == Draft
    case SubmittedForReview => previous == Some(Draft) && next == InReview
    case ChangesRequested => previous == Some(InReview) && next == Draft
    case ApprovalGiven => previous == Some(InReview) && next == Approved
    case ActivationScheduled => previous == Some(Approved) && next == Scheduled
    case Activated => previous in {Some(Approved), Some(Scheduled), Some(Active)} && next == Active
    case Replaced => previous == Some(Active) && next == Superseded
  }

  /** Applies one entry; fails unless its `previous` is the replayed status and its step is legal. */
  function ReplayEntry(m: Statuses, e: LogEntry): Option<Statuses> {
    var known := if e.docId in m then Some(m[e.docId]) else None;
    if e.previous == known && LegalStep(e.kind, e.previous, e.next) then Some(m[e.docId := e.next]) else None
  }

  /** Replays a newest-first log from its oldest entry on. */
  function Replay(m: Statuses, log: seq<LogEntry>): Option<Statuses> {
    if log == [] then Some(m)
    else match Replay(m, log[1..])
      case None => None
      case Some(before) => ReplayEntry(before, log[0])
  }

  lemma {:induction false} ReplayConcat(m: Statuses, newer: seq<LogEntry>, older: seq<LogEntry>)
    requires Replay(m, older).Some?
    ensures Replay(m, newer + older) == Replay(Replay(m, older).value, newer)
  {
    if newer == [] {
      assert newer + older == older;
    } else {
      assert (newer + older)[1..] == newer[1..] + older;
      ReplayConcat(m, newer[1..], older);
    }
  }

  ghost predicate UniqueIds(docs: seq<Doc>) {
    forall i, j :: 0 <= i < j < |docs| ==> docs[i].id != docs[j].id
  }

  lemma {:induction false} StatusesOfAt(docs: seq<Doc>, i: nat)
    requires UniqueIds(docs) && i < |docs|
    ensures docs[i].id in StatusesOf(docs) && StatusesOf(docs)[docs[i].id] == docs[i].status
  {
    if i > 0 {
      StatusesOfAt(docs[1..], i - 1);
    }
  }

  lemma {:induction false} StatusesOfKeys(docs: seq<Doc>, id: string)
    ensures id in StatusesOf(docs) <==> exists i :: 0 <= i < |docs| && docs[i].id == id
  {
    if docs != [] {
      StatusesOfKeys(docs[1..], id);
      if docs[0].id != id && id in StatusesOf(docs) {
        var i :| 0 <= i < |docs[1..]| && docs[1..][i].id == id;
        assert docs[i + 1].id == id;
      }
      if i :| 0 <= i < |docs| && docs[i].id == id {
        assert i == 0 || docs[1..][i - 1].id == id;
      }
    }
  }

  lemma {:induction false} StatusesOfUpdate(docs: seq<Doc>, i: nat, doc: Doc)
    requires UniqueIds(docs) && i < |docs| && doc.id == docs[i].id
    ensures StatusesOf(docs[i := doc]) == StatusesOf(docs)[doc.id := doc.status]
  {
    if i == 0 {
      assert docs[i := doc][1..] == docs[1..];
    } else {
      assert docs[i := doc][1..] == docs[1..][i - 1 := doc];
      StatusesOfUpdate(docs[1..], i - 1, doc);
    }
  }

  ghost predicate Extends(events: seq<LogEntry>, later: seq<LogEntry>) {
    |events| <= |later| && later[|later| - |events|..] == events
  }

  /** The entries logged between `s` and `later`. */
  ghost function Added(s: Flow, later: Flow): seq<LogEntry>
    requires |s.events| <= |later.events|
  {
    later.events[..|later.events| - |s.events|]
  }

  /** `later` extends the log of `s` by entries that replay the statuses of `s` to its own. */
  ghost predicate ReplaysTo(s: Flow, later: Flow) {
    && Extends(s.events, later.events)
    && Replay(StatusesOf(s.docs), Added(s, later)) == Some(StatusesOf(later.docs))
  }

  lemma ExtendsTransitive(a: seq<LogEntry>, b: seq<LogEntry>, c: seq<LogEntry>)
    requires Extends(a, b) && Extends(b, c)
    ensures Extends(a, c)
    ensures c[..|c| - |a|] == c[..|c| - |b|] + b[..|b| - |a|]
  {
    assert c == c[..|c| - |b|] + (b[..|b| - |a|] + a);
  }

  /** Replaying through a state the log accounts for goes on from that state. */
  lemma ReplaysThrough(a: Flow, b: Flow, c: Flow)
    requires ReplaysTo(a, b) && Extends(b.events, c.events)
    ensures ReplaysTo(a, c) <==> ReplaysTo(b, c)
  {
    ExtendsTransitive(a.events, b.events, c.events);
    assert Added(a, c) == Added(b, c) + Added(a, b);
    ReplayConcat(StatusesOf(a.docs), Added(b, c), Added(a, b));
  }

  lemma ReplaysToSelf(s: Flow, t: Flow)
    requires t.docs == s.docs && t.events == s.events
    ensures ReplaysTo(s, t)
  {
  }

  lemma OneEntryReplays(s: Flow, t: Flow, e: LogEntry)
    requires t.events == [e] + s.events
    requires ReplayEntry(StatusesOf(s.docs), e) == Some(StatusesOf(t.docs))
    ensures ReplaysTo(s, t)
  {
  }

  lemma TransitionReplays(s: Flow, i: nat, doc: Doc, kind: EventKind, now: string)
    requires UniqueIds(s.docs) && i < |s.docs| && doc.id == s.docs[i].id
    requires LegalStep(kind, Some(s.docs[i].status), doc.status)
    ensures var t := Transition(s, i, doc, kind, now).0; ReplaysTo(s, t) && UniqueIds(t.docs)
  {
    var t := Transition(s, i, doc, kind, now).0;
    StatusesOfUpdate(s.docs, i, doc);
    StatusesOfAt(s.docs, i);
    OneEntryReplays(s, t, t.events[0]);
  }

  lemma {:induction false} SupersedeReplays(s: Flow, doc: Doc, now: string, i: nat)
    requires UniqueIds(s.docs) && i <= |s.docs|
    ensures var (docs, events) := SupersedePeers(s.docs, s.events, doc, now, i);
      ReplaysTo(s, s.(docs := docs, events := events)) && UniqueIds(docs)
    decreases |s.docs| - i
  {
    if i == |s.docs| {
      ReplaysToSelf(s, s);
    } else if IsActivePeer(s.docs[i], doc) {
      var peer := s.docs[i].(status := Superseded);
      var t := Transition(s, i, peer, Replaced, now).0;
      TransitionReplays(s, i, peer, Replaced, now);
      SupersedeReplays(t, doc, now, i + 1);
      var (docs, events) := SupersedePeers(s.docs, s.events, doc, now, i);
      ReplaysThrough(s, t, s.(docs := docs, events := events));
    } else {
      SupersedeReplays(s, doc, now, i + 1);
    }
  }

  lemma MakeActiveReplays(s: Flow, i: nat, now: string)
    requires UniqueIds(s.docs) && i < |s.docs|
    requires s.docs[i].status in {Approved, Scheduled, Active}
    ensures var t := MakeActive(s, i, now).0; ReplaysTo(s, t) && UniqueIds(t.docs)
  {
    var doc := s.docs[i];
    var (docs, events) := SupersedePeers(s.docs, s.events, doc, now, 0);
    var mid := s.(docs := docs, events := events);
    var t := MakeActive(s, i, now).0;
    SupersedeFacts(s.docs, s.events, doc, now, 0);
    SupersedeReplays(s, doc, now, 0);
    TransitionReplays(mid, i, t.docs[i], Activated, now);
    ReplaysThrough(s, mid, t);
  }

  lemma ActivateReplays(s: Flow, i: nat, now: string)
    requires UniqueIds(s.docs) && i < |s.docs|
    ensures var t := ApplyLifecycle(s, i, Activate, now).0; ReplaysTo(s, t) && UniqueIds(t.docs)
  {
    var (t, reply) := ApplyLifecycle(s, i, Activate, now);
    if reply.Err? {
      ReplaysToSelf(s, t);
    } else {
      var counted := if s.profile == ActivationConflict then s.(attempts := s.attempts + 1) else s;
      MakeActiveReplays(counted, i, now);
    }
  }

  lemma LifecycleReplays(s: Flow, i: nat, action: Action, now: string)
    requires UniqueIds(s.docs) && i < |s.docs|
    ensures var t := ApplyLifecycle(s, i, action, now).0; ReplaysTo(s, t) && UniqueIds(t.docs)
  {
    if action == Activate {
      ActivateReplays(s, i, now);
    } else {
      var (t, reply) := ApplyLifecycle(s, i, action, now);
      if reply.Err? {
        ReplaysToSelf(s, t);
      } else {
        TransitionReplays(s, i, t.docs[i], t.events[0].kind, now);
      }
    }
  }

  lemma UploadReplays(s: Flow, id: string, versionLabel: Option<string>, now: string)
    requires UniqueIds(s.docs) && FirstWithId(s.docs, id) == |s.docs|
    ensures var t := UploadRequest(s, id, versionLabel, now).0; ReplaysTo(s, t) && UniqueIds(t.docs)
  {
    var t := UploadRequest(s, id, versionLabel, now).0;
    StatusesOfKeys(s.docs, id);
    assert t.docs[1..] == s.docs;
    OneEntryReplays(s, t, t.events[0]);
  }

  lemma StepReplays(s: Flow, c: Command)
    requires UniqueIds(s.docs) && FreshUploads(s, [c])
    ensures ReplaysTo(s, Step(s, c)) && UniqueIds(Step(s, c).docs)
  {
    match c {
      case Lifecycle(docId, action, now) =>
        var i := FirstWithId(s.docs, docId);
        if i == |s.docs| {
          ReplaysToSelf(s, s);
        } else {
          LifecycleReplays(s, i, action, now);
        }
      case Upload(id, versionLabel, now) => UploadReplays(s, id, versionLabel, now);
      case _ => ReplaysToSelf(s, Step(s, c));
    }
  }

  /**
    Event sourcing: over any run with fresh upload ids the log only grows, and replaying the
    entries added by the run onto the statuses at its start yields every document's status at
    its end, each entry naming the status it replaced and following a lifecycle transition.
   */
  lemma {:induction false} RunReplays(s: Flow, cs: seq<Command>)
    requires UniqueIds(s.docs) && FreshUploads(s, cs)
    ensures ReplaysTo(s, Run(s, cs)) && UniqueIds(Run(s, cs).docs)
    decreases |cs|
  {
    if cs == [] {
      ReplaysToSelf(s, s);
    } else {
      assert FreshUploads(s, [cs[0]]) by { assert [cs[0]][1..] == []; }
      StepReplays(s, cs[0]);
      RunReplays(Step(s, cs[0]), cs[1..]);
      ReplaysThrough(s, Step(s, cs[0]), Run(s, cs));
    }
  }

  // ---------------------------------------------------------------- when the log replays

  lemma {:induction false} SupersedeExtends(docs: seq<Doc>, events: seq<LogEntry>, doc: Doc, now: string, i: nat)
    requires i <= |docs|
    ensures Extends(events, SupersedePeers(docs, events, doc, now, i).1)
    decreases |docs| - i
  {
    if i < |docs| {
      if IsActivePeer(docs[i], doc) {
        var pushed := Push(events, docs[i], Replaced, Some(Active), Superseded, now);
        SupersedeExtends(docs[i := docs[i].(status := Superseded)], pushed, doc, now, i + 1);
        ExtendsTransitive(events, pushed, SupersedePeers(docs, events, doc, now, i).1);
      } else {
        SupersedeExtends(docs, events, doc, now, i + 1);
      }
    }
  }

  lemma TransitionExtends(s: Flow, i: nat, doc: Doc, kind: EventKind, now: string)
    requires i < |s.docs|
    ensures Extends(s.events, Transition(s, i, doc, kind, now).0.events)
  {
  }

  lemma MakeActiveExtends(s: Flow, i: nat, now: string)
    requires i < |s.docs|
    ensures Extends(s.events, MakeActive(s, i, now).0.events)
  {
    var doc := s.docs[i];
    var (docs, events) := SupersedePeers(s.docs, s.events, doc, now, 0);
    SupersedeFacts(s.docs, s.events, doc, now, 0);
    SupersedeExtends(s.docs, s.events, doc, now, 0);
    var t := MakeActive(s, i, now).0;
    TransitionExtends(s.(docs := docs, events := events), i, t.docs[i], Activated, now);
    ExtendsTransitive(s.events, events, t.events);
  }

  /** Every action but activation either changes nothing or is one logged transition. */
  lemma OtherActions(s: Flow, i: nat, action: Action, now: string)
    requires i < |s.docs| && action != Activate
    ensures var (t, reply) := ApplyLifecycle(s, i, action, now);
      if reply.Err? then t == s
      else
        && |t.docs| == |s.docs| && t.events != []
        && t == Transition(s, i, t.docs[i], t.events[0].kind, now).0
        && t.docs[i].id == s.docs[i].id && t.docs[i].status != Active
        && LegalStep(t.events[0].kind, Some(s.docs[i].status), t.docs[i].status)
  {
  }

  lemma ActivateExtends(s: Flow, i: nat, now: string)
    requires i < |s.docs|
    ensures Extends(s.events, ApplyLifecycle(s, i, Activate, now).0.events)
  {
    if ApplyLifecycle(s, i, Activate, now).1.Ok? {
      MakeActiveExtends(if s.profile == ActivationConflict then s.(attempts := s.attempts + 1) else s, i, now);
    }
  }

  lemma LifecycleExtends(s: Flow, i: nat, action: Action, now: string)
    requires i < |s.docs|
    ensures Extends(s.events, ApplyLifecycle(s, i, action, now).0.events)
  {
    if action == Activate {
      ActivateExtends(s, i, now);
    } else {
      OtherActions(s, i, action, now);
      var t := ApplyLifecycle(s, i, action, now).0;
      if t != s {
        TransitionExtends(s, i, t.docs[i], t.events[0].kind, now);
      }
    }
  }

  /** No request ever takes an entry out of the log or changes one. */
  lemma {:induction false} LogOnlyGrows(s: Flow, cs: seq<Command>)
    ensures Extends(s.events, Run(s, cs).events)
    decreases |cs|
  {
    if cs != [] {
      var next := Step(s, cs[0]);
      assert Extends(s.events, next.events) by {
        if cs[0].Lifecycle? && FirstWithId(s.docs, cs[0].docId) < |s.docs| {
          LifecycleExtends(s, FirstWithId(s.docs, cs[0].docId), cs[0].action, cs[0].now);
        }
      }
      LogOnlyGrows(next, cs[1..]);
      ExtendsTransitive(s.events, next.events, Run(s, cs).events);
    }
  }

  lemma {:induction false} BrokenReplayStaysBroken(m: Statuses, newer: seq<LogEntry>, older: seq<LogEntry>)
    requires Replay(m, older).None?
    ensures Replay(m, newer + older).None?
  {
    if newer == [] {
      assert newer + older == older;
    } else {
      assert (newer + older)[1..] == newer[1..] + older;
      BrokenReplayStaysBroken(m, newer[1..], older);
    }
  }

  lemma ReusedIdBreaksReplay(s: Flow, c: Command, cs: seq<Command>)
    requires c.Upload? && FirstWithId(s.docs, c.id) < |s.docs|
    ensures !ReplaysTo(s, Run(Step(s, c), cs))
  {
    var next, last := Step(s, c), Run(Step(s, c), cs);
    LogOnlyGrows(next, cs);
    StatusesOfKeys(s.docs, c.id);
    var entry := next.events[0];
    assert next.events == [entry] + s.events;
    assert Replay(StatusesOf(s.docs), [entry]).None? by { assert [entry][1..] == []; }
    var more := last.events[..|last.events| - |next.events|];
    assert last.events == more + next.events;
    assert Added(s, last) == more + [entry];
    BrokenReplayStaysBroken(StatusesOf(s.docs), more, [entry]);
  }

  /** The log accounts for all statuses after a run exactly when every upload of the run brought a fresh id. */
  lemma {:induction false} RunReplaysIff(s: Flow, cs: seq<Command>)
    requires UniqueIds(s.docs)
    ensures ReplaysTo(s, Run(s, cs)) <==> FreshUploads(s, cs)
    decreases |cs|
  {
    if FreshUploads(s, cs) {
      RunReplays(s, cs);
    } else if cs[0].Upload? && FirstWithId(s.docs, cs[0].id) < |s.docs| {
      ReusedIdBreaksReplay(s, cs[0], cs[1..]);
    } else {
      var next, last := Step(s, cs[0]), Run(s, cs);
      assert FreshUploads(s, [cs[0]]) by { assert [cs[0]][1..] == []; }
      StepReplays(s, cs[0]);
      RunReplaysIff(next, cs[1..]);
      LogOnlyGrows(next, cs[1..]);
      ReplaysThrough(s, next, last);
    }
  }

  // ---------------------------------------------------------------- state invariants

  /** At most one active version per document type and language. */
  ghost predicate SingleActive(docs: seq<Doc>) {
    forall i, j :: 0 <= i < j < |docs| && docs[i].status == Active && docs[j].status == Active ==>
      !SameSlot(docs[i], docs[j])
  }

  ghost predicate ActiveIsSound(docs: seq<Doc>) {
    forall i :: 0 <= i < |docs| && docs[i].status == Active ==> docs[i].scanPassed && docs[i].activatedAt.Some?
  }

  /** Ids count down from the newest entry, so none repeats. */
  ghost predicate Numbered(events: seq<LogEntry>) {
    forall i :: 0 <= i < |events| ==> events[i].id == |events| - i
  }

  ghost predicate Sound(s: Flow) {
    ActiveIsSound(s.docs) && Numbered(s.events)
  }

  ghost predicate Good(s: Flow) {
    UniqueIds(s.docs) && SingleActive(s.docs) && Sound(s)
  }

  lemma ResetIsGood(profile: Profile, now: string)
    ensures Good(Reset(profile, now))
  {
  }

  lemma {:induction false} SupersedeNumbers(docs: seq<Doc>, events: seq<LogEntry>, doc: Doc, now: string, i: nat)
    requires i <= |docs| && Numbered(events)
    ensures Numbered(SupersedePeers(docs, events, doc, now, i).1)
    decreases |docs| - i
  {
    if i < |docs| {
      if IsActivePeer(docs[i], doc) {
        SupersedeNumbers(docs[i := docs[i].(status := Superseded)],
                         Push(events, docs[i], Replaced, Some(Active), Superseded, now), doc, now, i + 1);
      } else {
        SupersedeNumbers(docs, events, doc, now, i + 1);
      }
    }
  }

  lemma MakeActiveStaysSound(s: Flow, i: nat, now: string)
    requires Sound(s) && i < |s.docs| && s.docs[i].scanPassed
    ensures Sound(MakeActive(s, i, now).0)
  {
    SupersedeFacts(s.docs, s.events, s.docs[i], now, 0);
    SupersedeNumbers(s.docs, s.events, s.docs[i], now, 0);
  }

  lemma LifecycleStaysSound(s: Flow, i: nat, action: Action, now: string)
    requires Sound(s) && i < |s.docs|
    ensures Sound(ApplyLifecycle(s, i, action, now).0)
  {
    if action == Activate && ApplyLifecycle(s, i, action, now).1.Ok? {
      MakeActiveStaysSound(if s.profile == ActivationConflict then s.(attempts := s.attempts + 1) else s, i, now);
    }
  }

  lemma StepStaysSound(s: Flow, c: Command)
    requires Sound(s)
    ensures Sound(Step(s, c))
  {
    if c.Lifecycle? && FirstWithId(s.docs, c.docId) < |s.docs| {
      LifecycleStaysSound(s, FirstWithId(s.docs, c.docId), c.action, c.now);
    }
  }

  /**
    Over every run, uploads with re-used ids included, active versions passed their scan and carry
    an activation time, and event ids never repeat.
   */
  lemma {:induction false} RunStaysSound(s: Flow, cs: seq<Command>)
    requires Sound(s)
    ensures Sound(Run(s, cs))
    decreases |cs|
  {
    if cs != [] {
      StepStaysSound(s, cs[0]);
      RunStaysSound(Step(s, cs[0]), cs[1..]);
    }
  }

  lemma PromotionKeepsSingle(docs: seq<Doc>, docs': seq<Doc>, i: nat)
    requires UniqueIds(docs) && SingleActive(docs)
    requires i < |docs| == |docs'|
    requires forall j :: 0 <= j < |docs| && j != i ==>
      docs'[j] == if IsActivePeer(docs[j], docs[i]) then docs[j].(status := Superseded) else docs[j]
    requires docs'[i].id == docs[i].id && SameSlot(docs'[i], docs[i])
    ensures UniqueIds(docs') && SingleActive(docs')
  {
  }

  lemma TransitionStaysGood(s: Flow, i: nat, doc: Doc, kind: EventKind, now: string)
    requires Good(s) && i < |s.docs|
    requires doc.id == s.docs[i].id && doc.status != Active
    ensures Good(Transition(s, i, doc, kind, now).0)
  {
  }

  lemma LifecycleStaysGood(s: Flow, i: nat, action: Action, now: string)
    requires Good(s) && i < |s.docs|
    ensures Good(ApplyLifecycle(s, i, action, now).0)
  {
    var (t, reply) := ApplyLifecycle(s, i, action, now);
    if reply.Ok? {
      if action == Activate {
        LifecycleStaysSound(s, i, action, now);
        SupersedeFacts(s.docs, s.events, s.docs[i], now, 0);
        PromotionKeepsSingle(s.docs, t.docs, i);
      } else {
        TransitionStaysGood(s, i, t.docs[i], t.events[0].kind, now);
      }
    }
  }

  lemma StepStaysGood(s: Flow, c: Command)
    requires Good(s) && FreshUploads(s, [c])
    ensures Good(Step(s, c))
  {
    if c.Lifecycle? && FirstWithId(s.docs, c.docId) < |s.docs| {
      LifecycleStaysGood(s, FirstWithId(s.docs, c.docId), c.action, c.now);
    }
  }

  /** Over any run with fresh upload ids, ids also stay unique and at most one version per slot is active. */
  lemma {:induction false} RunStaysGood(s: Flow, cs: seq<Command>)
    requires Good(s) && FreshUploads(s, cs)
    ensures Good(Run(s, cs))
    decreases |cs|
  {
    if cs != [] {
      assert FreshUploads(s, [cs[0]]) by { assert [cs[0]][1..] == []; }
      StepStaysGood(s, cs[0]);
      RunStaysGood(Step(s, cs[0]), cs[1..]);
    }
  }

  /**
    From every profile's reset: active versions and event ids are sound after any run; after a run
    with fresh upload ids the state is good and the log accounts for all statuses.
   */
  lemma ReachableStatesAreGood(profile: Profile, now: string, cs: seq<Command>)
    ensures Sound(Run(Reset(profile, now), cs))
    ensures FreshUploads(Reset(profile, now), cs) ==>
      Good(Run(Reset(profile, now), cs)) && ReplaysTo(Reset(profile, now), Run(Reset(profile, now), cs))
  {
    ResetIsGood(profile, now);
    RunStaysSound(Reset(profile, now), cs);
    if FreshUploads(Reset(profile, now), cs) {
      RunStaysGood(Reset(profile, now), cs);
      RunReplays(Reset(profile, now), cs);
    }
  }

  /** A refused request leaves documents and log alone; an accepted one always logs. */
  lemma RefusalChangesNothing(s: Flow, docId: string, action: Action, now: string)
    ensures var (t, reply) := LifecycleRequest(s, docId, action, now);
      && (reply.Err? ==> t == s.(attempts := t.attempts))
      && (reply.Ok? <==> |t.events| > |s.events|)
  {
    var i := FirstWithId(s.docs, docId);
    if i < |s.docs| {
      SupersedeExtends(s.docs, s.events, s.docs[i], now, 0);
    }
  }
}
