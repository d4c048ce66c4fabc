/**
  What each request of the invoice server changes and what it leaves alone, field by field, and
  what the status of an invoice follows from.
*/
module InvoiceEffects {
  import opened Options
  import opened InvoiceLedger
  import opened InvoiceLedgerProofs

  // ---------------------------------------------------------------- one invoice, its row and its timeline

  /** The row shows the invoice and, if there is one, the panel's document; nothing else of it changes. */
  ghost predicate RowShows(before: ListItem, after: ListItem, invoice: Invoice, document: Option<Document>) {
    && after.id == before.id && after.direction == before.direction
    && after.totalGross == before.totalGross && after.isOverdue == before.isOverdue
    && after.status == invoice.status
    && after.paidAmount == invoice.paidCents && after.outstandingAmount == invoice.outstandingCents
    && (document.None? ==>
          after.documentStatus == before.documentStatus && after.activeDocumentId == before.activeDocumentId)
    && (document.Some? ==>
          after.documentStatus == Some(document.value.status) && after.activeDocumentId == Some(document.value.id))
  }

  /** The panel's document, if the invoice has a panel that shows one. */
  ghost function ShownDocument(s: Store, id: string): Option<Document> {
    if id in s.panels then s.panels[id].activeDocument else None
  }

  /** Of the invoices only this one changed, of the list only its row, of the timelines only its own. */
  ghost predicate ChangesInvoice(s: Store, t: Store, id: string, invoice: Invoice, entry: Entry) {
    && t.invoices == s.invoices[id := invoice]
    && |t.list| == |s.list|
    && (forall i :: 0 <= i < |s.list| ==>
          if s.list[i].id == id then RowShows(s.list[i], t.list[i], invoice, ShownDocument(t, id))
          else t.list[i] == s.list[i])
    && AddsEntry(s, t, id, entry)
  }

  ghost predicate AddsEntry(s: Store, t: Store, id: string, entry: Entry) {
    && TimelineOf(t, id) == [entry] + TimelineOf(s, id)
    && t.timelines == s.timelines[id := TimelineOf(t, id)]
  }

  lemma SyncedListShows(s: Store, invoice: Invoice)
    requires forall i, j :: 0 <= i < j < |s.list| ==> s.list[i].id != s.list[j].id
    ensures var t := SyncList(s, invoice);
      && t == s.(list := t.list) && |t.list| == |s.list|
      && (forall i :: 0 <= i < |s.list| ==>
            if s.list[i].id == invoice.id then RowShows(s.list[i], t.list[i], invoice, ShownDocument(s, invoice.id))
            else t.list[i] == s.list[i])
  {
  }

  // ---------------------------------------------------------------- payments and sending marks

  /** The invoice after a payment. */
  ghost predicate IsPaidInto(before: Invoice, after: Invoice, payment: Payment, now: string) {
    var paid := before.paidCents + payment.amountCents;
    && after.id == before.id && after.totalCents == before.totalCents && after.paidCents == paid
    && after.outstandingCents == (if paid >= before.totalCents then 0 else before.totalCents - paid)
    && (after.status == Paid <== paid >= before.totalCents)
    && (after.status == PartiallyPaid <== 0 < paid < before.totalCents)
    && (after.status == before.status <== paid < before.totalCents && paid <= 0)
    && after.paidAt == (if paid >= before.totalCents then Some(now) else before.paidAt)
    && after.sentAt == before.sentAt && after.generatedDocumentId == before.generatedDocumentId
    && after.payments == before.payments + [payment]
  }

  /**
    A payment settles the stored invoice: PAID and dated once nothing is left to pay, PARTIALLY_PAID
    while something is paid, else with its status unchanged; its list row shows the same, and its
    timeline tells the payment as full or partial. An unknown invoice changes nothing.
   */
  lemma PaymentEffect(s: Store, id: string, payment: Payment, now: string)
    requires Consistent(s)
    ensures var t := Step(s, Pay(id, payment, now));
      if id !in s.invoices then t == s
      else
        && id in t.invoices && IsPaidInto(s.invoices[id], t.invoices[id], payment, now)
        && ChangesInvoice(s, t, id, t.invoices[id],
             Entry(payment.id,
                   if t.invoices[id].paidCents >= s.invoices[id].totalCents then PaymentFull else PaymentPartial,
                   payment.paidAt, payment.reference, payment.amountCents))
        && t.panels == s.panels && t.polls == s.polls
  {
    if id in s.invoices {
      var updated := Settle(s.invoices[id], payment, now);
      SyncedListShows(s.(invoices := s.invoices[id := updated]), updated);
    }
  }

  /** A sending mark makes the stored invoice SENT at that time, whatever it was, in store, list and timeline. */
  lemma SendingMarkEffect(s: Store, id: string, entryId: string, now: string)
    requires Consistent(s)
    ensures var t := Step(s, MarkedSent(id, entryId, now));
      if id !in s.invoices then t == s
      else
        && ChangesInvoice(s, t, id, s.invoices[id].(status := Sent, sentAt := Some(now)),
                          Entry(entryId, ExternallyMarked, now, None, 0))
        && t.panels == s.panels && t.polls == s.polls
  {
    if id in s.invoices {
      var updated := s.invoices[id].(status := Sent, sentAt := Some(now));
      SyncedListShows(s.(invoices := s.invoices[id := updated]), updated);
    }
  }

  // ---------------------------------------------------------------- the status over whole runs

  /** PAID once nothing is left to pay, PARTIALLY_PAID while something is paid, else ISSUED. */
  ghost predicate StatusFollowsPaid(invoice: Invoice) {
    && (invoice.status == Paid <==> invoice.paidCents >= invoice.totalCents)
    && (invoice.status == PartiallyPaid <==> 0 < invoice.paidCents < invoice.totalCents)
    && (invoice.status == Issued <==> invoice.paidCents < invoice.totalCents && invoice.paidCents <= 0)
  }

  /** A sending mark on the invoice, or a refund of everything paid on it that leaves it unpaid. */
  ghost predicate LosesStatus(s: Store, c: Command, id: string)
    requires id in s.invoices
  {
    || (c.MarkedSent? && c.id == id)
    || (&& c.Pay? && c.id == id && s.invoices[id].status != Issued
        && var paid := s.invoices[id].paidCents + c.payment.amountCents;
          paid < s.invoices[id].totalCents && paid <= 0)
  }

  lemma OtherInvoicesStay(s: Store, c: Command, id: string)
    requires id in s.invoices && !((c.Pay? || c.MarkedSent?) && c.id == id)
    ensures var t := Step(s, c);
      && id in t.invoices && t.invoices[id].status == s.invoices[id].status
      && t.invoices[id].paidCents == s.invoices[id].paidCents && t.invoices[id].totalCents == s.invoices[id].totalCents
  {
  }

  /** A request keeps an invoice's status in step with what is paid exactly when it does not lose it. */
  lemma StepKeepsStatusIff(s: Store, c: Command, id: string)
    requires Consistent(s) && id in s.invoices && StatusFollowsPaid(s.invoices[id])
    ensures id in Step(s, c).invoices
    ensures StatusFollowsPaid(Step(s, c).invoices[id]) <==> !LosesStatus(s, c, id)
  {
    if c.Pay? && c.id == id {
      PaymentEffect(s, id, c.payment, c.now);
    } else if c.MarkedSent? && c.id == id {
      SendingMarkEffect(s, id, c.entryId, c.now);
    } else {
      OtherInvoicesStay(s, c, id);
    }
  }

  ghost predicate StatusAlwaysFollows(s: Store, cs: seq<Command>, id: string)
    decreases |cs|
  {
    && id in s.invoices && StatusFollowsPaid(s.invoices[id])
    && (cs == [] || StatusAlwaysFollows(Step(s, cs[0]), cs[1..], id))
  }

  ghost predicate NeverLosesStatus(s: Store, cs: seq<Command>, id: string)
    decreases |cs|
  {
    cs == [] || (id in s.invoices && !LosesStatus(s, cs[0], id) && NeverLosesStatus(Step(s, cs[0]), cs[1..], id))
  }

  /** Over any run the status follows what is paid throughout exactly when no request of the run loses it. */
  lemma {:induction false} RunKeepsStatusIff(s: Store, cs: seq<Command>, id: string)
    requires Consistent(s) && id in s.invoices && StatusFollowsPaid(s.invoices[id])
    ensures StatusAlwaysFollows(s, cs, id) <==> NeverLosesStatus(s, cs, id)
    ensures NeverLosesStatus(s, cs, id) ==> id in Run(s, cs).invoices && StatusFollowsPaid(Run(s, cs).invoices[id])
    decreases |cs|
  {
    if cs != [] {
      StepStaysConsistent(s, cs[0]);
      StepKeepsStatusIff(s, cs[0], id);
      if !LosesStatus(s, cs[0], id) {
        RunKeepsStatusIff(Step(s, cs[0]), cs[1..], id);
      }
    }
  }

  ghost predicate NeverMarked(cs: seq<Command>, id: string) {
    forall i :: 0 <= i < |cs| && cs[i].MarkedSent? ==> cs[i].id != id
  }

  lemma {:induction false} PaymentsNeverLoseStatus(s: Store, cs: seq<Command>, id: string)
    requires Consistent(s) && id in s.invoices && StatusFollowsPaid(s.invoices[id])
    requires NonNegativePayments(cs) && NeverMarked(cs, id)
    ensures NeverLosesStatus(s, cs, id)
    decreases |cs|
  {
    if cs != [] {
      StepStaysConsistent(s, cs[0]);
      StepKeepsStatusIff(s, cs[0], id);
      NonNegativeTail(cs);
      assert NeverMarked(cs[1..], id) by {
        assert forall i :: 0 <= i < |cs[1..]| ==> cs[1..][i] == cs[i + 1];
      }
      PaymentsNeverLoseStatus(Step(s, cs[0]), cs[1..], id);
    }
  }

  /**
    While an invoice is not marked as sent and no payment is negative, its status and its list row's
    status are determined by what was paid before, the sum of its payments since, and its total.
   */
  lemma RunStatusFollowsPayments(s: Store, cs: seq<Command>, id: string)
    requires Consistent(s) && id in s.invoices && StatusFollowsPaid(s.invoices[id])
    requires NonNegativePayments(cs) && NeverMarked(cs, id)
    ensures var t, total, paid := Run(s, cs), s.invoices[id].totalCents, s.invoices[id].paidCents + PaidIn(cs, id);
      && id in t.invoices
      && t.invoices[id].status == (if paid >= total then Paid else if paid > 0 then PartiallyPaid else Issued)
      && (forall i :: 0 <= i < |t.list| && t.list[i].id == id ==> t.list[i].status == t.invoices[id].status)
  {
    PaymentsNeverLoseStatus(s, cs, id);
    RunKeepsStatusIff(s, cs, id);
    RunConserves(s, cs, id);
    RunStaysConsistent(s, cs);
    var t := Run(s, cs);
    forall i | 0 <= i < |t.list| && t.list[i].id == id ensures t.list[i].status == t.invoices[id].status {
      assert RowAgrees(t.list[i], t.invoices[id]);
    }
  }

  /** So from the seeded store, where nothing is paid yet, the sum of the payments decides. */
  lemma SeededStatusFollowsPayments(cs: seq<Command>, id: string)
    requires id in InitialStore().invoices && NonNegativePayments(cs) && NeverMarked(cs, id)
    ensures var t, total, paid := Run(InitialStore(), cs), InitialStore().invoices[id].totalCents, PaidIn(cs, id);
      && id in t.invoices
      && t.invoices[id].status == (if paid >= total then Paid else if paid > 0 then PartiallyPaid else Issued)
  {
    InitialStoreIsConsistent();
    SeededInvoiceUnpaid(id);
    SeededStatus(id);
    RunStatusFollowsPayments(InitialStore(), cs, id);
  }

  lemma SeededStatus(id: string)
    requires id in InitialStore().invoices
    ensures StatusFollowsPaid(InitialStore().invoices[id])
  {
  }

  // ---------------------------------------------------------------- documents

  /** A request for the document empties the panel but for its history and restarts the count of polls. */
  lemma GenerateEffect(s: Store, id: string)
    ensures var t := Step(s, GeneratePdf(id));
      && id in t.panels && t.panels[id].state == PanelGenerating && t.panels[id].activeDocument == None
      && t.panels[id].deliveryHistory == (if id in s.panels then s.panels[id].deliveryHistory else [])
      && t == s.(panels := s.panels[id := t.panels[id]], polls := s.polls[id := 0])
  {
  }

  /** A poll of a panel that is not generating changes nothing; the first one of a request only counts. */
  lemma EarlyPollEffect(s: Store, id: string, now: string)
    ensures !(id in s.panels && s.panels[id].state == PanelGenerating) ==> Step(s, PollPanel(id, now)) == s
    ensures id in s.panels && s.panels[id].state == PanelGenerating && (id !in s.polls || s.polls[id] == 0) ==>
      Step(s, PollPanel(id, now)) == s.(polls := s.polls[id := 1])
  {
  }

  const FAILED_E2E := Delivery("email-failed-e2e", "anna.schmidt@example.com", "FAILED", None)

  /** The document is active in the panel and told in the timeline, and a stored invoice and its row show it. */
  ghost predicate ShowsDocument(s: Store, t: Store, id: string, now: string) {
    var entry := Entry("tl-pdf", PdfGenerated, now, Some("rechnung-2026-0042.pdf"), 0);
    && t.panels == s.panels[id := Panel(PanelActive, Some(Document("doc-e2e-main", "GENERATED")), [FAILED_E2E])]
    && t.polls == s.polls
    && (if id in s.invoices then
          ChangesInvoice(s, t, id, s.invoices[id].(generatedDocumentId := Some("doc-e2e-main")), entry)
        else t.invoices == s.invoices && t.list == s.list && AddsEntry(s, t, id, entry))
  }

  lemma CompletionShowsDocument(s: Store, id: string, now: string)
    requires Consistent(s)
    ensures ShowsDocument(s, Complete(s, id, now), id, now)
  {
    if id in s.invoices {
      var updated := s.invoices[id].(generatedDocumentId := Some(DOC_ID));
      var shown := s.(panels := s.panels[id := ActivePanel([FAILED_DELIVERY])]);
      SyncedListShows(shown.(invoices := shown.invoices[id := updated]), updated);
    }
  }

  /** The completing poll shows the document everywhere, with the failed delivery on record. */
  lemma CompletingPollEffect(s: Store, id: string, now: string)
    requires Consistent(s)
    requires id in s.panels && s.panels[id].state == PanelGenerating && id in s.polls && s.polls[id] >= 1
    ensures ShowsDocument(s.(polls := s.polls[id := s.polls[id] + 1]), Step(s, PollPanel(id, now)), id, now)
  {
    var counted := s.(polls := s.polls[id := s.polls[id] + 1]);
    SecondPollCompletes(s, id, now);
    ConsistentIfSameRows(s, counted);
    CompletionShowsDocument(counted, id, now);
  }

  lemma SecondPollCompletes(s: Store, id: string, now: string)
    requires id in s.panels && s.panels[id].state == PanelGenerating && id in s.polls && s.polls[id] >= 1
    ensures Step(s, PollPanel(id, now)) == Complete(s.(polls := s.polls[id := s.polls[id] + 1]), id, now)
  {
  }

  /** After a request the first poll leaves everything pending, the second completes it, a third changes nothing. */
  lemma ThreePolls(s: Store, id: string, now: string)
    requires Consistent(s)
    ensures var requested := Step(s, GeneratePdf(id));
      var once := Step(requested, PollPanel(id, now));
      var twice := Step(once, PollPanel(id, now));
      && once == requested.(polls := requested.polls[id := 1])
      && id in once.panels && once.panels[id].state == PanelGenerating
      && id in twice.panels && twice.panels[id].state == PanelActive
      && Step(twice, PollPanel(id, now)) == twice
  {
    var requested := Step(s, GeneratePdf(id));
    StepStaysConsistent(s, GeneratePdf(id));
    GenerateEffect(s, id);
    EarlyPollEffect(requested, id, now);
    var once := Step(requested, PollPanel(id, now));
    StepStaysConsistent(requested, PollPanel(id, now));
    CompletingPollEffect(once, id, now);
    EarlyPollEffect(Step(once, PollPanel(id, now)), id, now);
  }

  // ---------------------------------------------------------------- deliveries

  /** A sent e-mail is the newest delivery of the panel, which is created with a document if missing. */
  lemma EmailEffect(s: Store, id: string, toEmail: Option<string>, now: string)
    ensures var t := Step(s, Email(id, toEmail, now));
      var to := if toEmail.Some? then toEmail.value else "unbekannt@example.com";
      var created := Panel(PanelActive, Some(Document("doc-e2e-main", "GENERATED")), []);
      var panel := if id in s.panels then s.panels[id] else created;
      && id in t.panels
      && t.panels[id].deliveryHistory == [Delivery("email-sent-e2e", to, "SENT", Some(now))] + panel.deliveryHistory
      && t.panels[id].state == panel.state && t.panels[id].activeDocument == panel.activeDocument
      && t.panels == s.panels[id := t.panels[id]]
      && AddsEntry(s, t, id, Entry("email-sent-e2e", DeliverySent, now, toEmail, 0))
      && t.invoices == s.invoices && t.list == s.list && t.polls == s.polls
  {
  }

  /** A retry marks exactly the deliveries with that id as sent; without a panel it changes nothing. */
  lemma RetryEffect(s: Store, id: string, emailId: string, now: string)
    ensures var t := Step(s, RetryEmail(id, emailId, now));
      if id !in s.panels then t == s
      else
        && id in t.panels && t.panels == s.panels[id := t.panels[id]]
        && t.panels[id].state == s.panels[id].state && t.panels[id].activeDocument == s.panels[id].activeDocument
        && |t.panels[id].deliveryHistory| == |s.panels[id].deliveryHistory|
        && (forall i :: 0 <= i < |s.panels[id].deliveryHistory| ==>
              var before, after := s.panels[id].deliveryHistory[i], t.panels[id].deliveryHistory[i];
              after == if before.id != emailId then before
                       else Delivery(before.id, before.recipient, "SENT", Some(now)))
        && AddsEntry(s, t, id, Entry("retry-" + emailId, DeliveryRetry, now, Some(emailId), 0))
        && t.invoices == s.invoices && t.list == s.list && t.polls == s.polls
  {
  }

  /** The delivery flow: a generated document comes with one failed delivery, and its retry leaves none failed. */
  lemma RetryLeavesNoneFailed(s: Store, id: string, toEmail: Option<string>, now: string)
    requires Consistent(s)
    ensures var shown := Step(Step(Step(s, GeneratePdf(id)), PollPanel(id, now)), PollPanel(id, now));
      var retried := Step(Step(shown, Email(id, toEmail, now)), RetryEmail(id, "email-failed-e2e", now));
      && id in shown.panels && |shown.panels[id].deliveryHistory| == 1
      && shown.panels[id].deliveryHistory[0].status == "FAILED"
      && id in retried.panels && |retried.panels[id].deliveryHistory| == 2
      && (forall i :: 0 <= i < 2 ==> retried.panels[id].deliveryHistory[i].status == "SENT")
  {
    var once := Step(Step(s, GeneratePdf(id)), PollPanel(id, now));
    var shown := Step(once, PollPanel(id, now));
    ThreePolls(s, id, now);
    StepStaysConsistent(s, GeneratePdf(id));
    StepStaysConsistent(Step(s, GeneratePdf(id)), PollPanel(id, now));
    CompletingPollEffect(once, id, now);
    EmailEffect(shown, id, toEmail, now);
    RetryEffect(Step(shown, Email(id, toEmail, now)), id, "email-failed-e2e", now);
  }

  // ---------------------------------------------------------------- the timeline only grows

  ghost predicate EndsTimeline(older: seq<Entry>, timeline: seq<Entry>) {
    |older| <= |timeline| && timeline[|timeline| - |older|..] == older
  }

  lemma StepEndsTimeline(s: Store, c: Command, id: string)
    ensures EndsTimeline(TimelineOf(s, id), TimelineOf(Step(s, c), id))
  {
    if PaysInvoice(s, c, id) {
      PaymentAddsItsEntry(s, c.payment, c.now, id);
    } else {
      OtherStepsAddNoPayment(s, c, id);
    }
  }

  /** No run ever removes or changes an entry of a timeline. */
  lemma {:induction false} TimelineOnlyGrows(s: Store, cs: seq<Command>, id: string)
    ensures EndsTimeline(TimelineOf(s, id), TimelineOf(Run(s, cs), id))
    decreases |cs|
  {
    if cs != [] {
      var next := Step(s, cs[0]);
      StepEndsTimeline(s, cs[0], id);
      TimelineOnlyGrows(next, cs[1..], id);
      var a, b, c := TimelineOf(s, id), TimelineOf(next, id), TimelineOf(Run(s, cs), id);
      assert c[|c| - |a|..] == c[|c| - |b|..][|b| - |a|..];
    }
  }

  lemma SeededMainTimeline()
    ensures var older := TimelineOf(InitialStore(), "inv-main-e2e");
      && |older| == 2 && older[0].kind == InvoiceCreated
      && older[1].kind == InvoiceIssued && older[1].reference == Some("2026-0042")
  {
    SeededTimelines(MAIN);
  }

  lemma LastTwoStay(s: Store, cs: seq<Command>, id: string)
    requires |TimelineOf(s, id)| == 2
    ensures var older, timeline := TimelineOf(s, id), TimelineOf(Run(s, cs), id);
      |timeline| >= 2 && timeline[|timeline| - 2] == older[0] && timeline[|timeline| - 1] == older[1]
  {
    var older, timeline := TimelineOf(s, id), TimelineOf(Run(s, cs), id);
    TimelineOnlyGrows(s, cs, id);
    assert timeline[|timeline| - 2..][0] == older[0] && timeline[|timeline| - 2..][1] == older[1];
  }

  /** From the seeded store the main invoice's timeline always ends with the seeded creation and issue. */
  lemma MainTimelineEnds(cs: seq<Command>)
    ensures var timeline := TimelineOf(Run(InitialStore(), cs), "inv-main-e2e");
      && |timeline| >= 2
      && timeline[|timeline| - 2].kind == InvoiceCreated && timeline[|timeline| - 1].kind == InvoiceIssued
      && timeline[|timeline| - 1].reference == Some("2026-0042")
  {
    SeededMainTimeline();
    LastTwoStay(InitialStore(), cs, "inv-main-e2e");
  }
}
