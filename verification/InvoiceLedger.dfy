/**
  The invoice server as a state machine on values: the invoice store, its denormalised list, the
  document panels with their polling counters, and one timeline per invoice.
*/
module InvoiceLedger {
  import opened Options
  import opened Search

  datatype InvoiceStatus = Issued | PartiallyPaid | Paid | Sent

  datatype Payment = Payment(id: string, amountCents: int, channel: string, reference: Option<string>, paidAt: string)

  datatype Invoice = Invoice(
    id: string,
    totalCents: int,
    paidCents: int,
    outstandingCents: int,
    status: InvoiceStatus,
    paidAt: Option<string>,
    sentAt: Option<string>,
    generatedDocumentId: Option<string>,
    payments: seq<Payment>)

  datatype Direction = Outgoing | Incoming

  datatype ListItem = ListItem(
    id: string,
    direction: Direction,
    status: InvoiceStatus,
    totalGross: int,
    paidAmount: int,
    outstandingAmount: int,
    isOverdue: bool,
    documentStatus: Option<string>,
    activeDocumentId: Option<string>)

  datatype PanelState = PanelEmpty | PanelActive | PanelFailed | PanelGenerating

  datatype Document = Document(id: string, status: string)

  datatype Delivery = Delivery(id: string, recipient: string, status: string, sentAt: Option<string>)

  datatype Panel = Panel(state: PanelState, activeDocument: Option<Document>, deliveryHistory: seq<Delivery>)

  datatype EntryKind =
    | InvoiceCreated
    | InvoiceIssued
    | PaymentPartial
    | PaymentFull
    | PdfGenerated
    | DeliverySent
    | DeliveryRetry
    | ExternallyMarked

  /** `amountCents` is the amount a payment entry prints in its detail text. */
  datatype Entry = Entry(id: string, kind: EntryKind, occurredAt: string, reference: Option<string>, amountCents: int)

  /** Timelines grow in front. */
  datatype Store = Store(
    invoices: map<string, Invoice>,
    list: seq<ListItem>,
    panels: map<string, Panel>,
    timelines: map<string, seq<Entry>>,
    polls: map<string, nat>)

  // ---------------------------------------------------------------- the seeded store

  const MAIN := "inv-main-e2e"
  const PAID := "inv-paid-e2e"
  const NO_BOOKING := "inv-no-booking-e2e"
  const NO_EMAIL := "inv-no-email-e2e"
  const DOC_ERROR := "inv-doc-error-e2e"
  const DOC_MISSING := "inv-doc-missing-e2e"
  const DOC_ID := "doc-e2e-main"

  function Open(id: string, totalCents: int, documentId: Option<string>): Invoice {
    Invoice(id, totalCents, 0, totalCents, Issued, None, None, documentId, [])
  }

  function OpenRow(id: string, totalCents: int, documentStatus: Option<string>, documentId: Option<string>): ListItem {
    ListItem(id, Outgoing, Issued, totalCents, 0, totalCents, false, documentStatus, documentId)
  }

  function InitialList(): seq<ListItem> {
    [ OpenRow(MAIN, 10000, None, None),
      ListItem(PAID, Outgoing, Paid, 5950, 5950, 0, false, Some("GENERATED"), Some("doc-paid")),
      OpenRow(DOC_MISSING, 2500, None, None),
      OpenRow(NO_BOOKING, 7500, Some("GENERATED"), Some("doc-no-booking")),
      OpenRow(NO_EMAIL, 8900, Some("GENERATED"), Some("doc-no-email")),
      OpenRow(DOC_ERROR, 12000, Some("FAILED"), None) ]
  }

  const EMPTY_PANEL := Panel(PanelEmpty, None, [])

  function ActivePanel(history: seq<Delivery>): Panel {
    Panel(PanelActive, Some(Document(DOC_ID, "GENERATED")), history)
  }

  function InitialTimeline(id: string): seq<Entry> {
    if id == MAIN then
      [ Entry("tl-created", InvoiceCreated, "2026-07-01T09:00:00.000Z", None, 0),
        Entry("tl-issued", InvoiceIssued, "2026-07-01T10:00:00.000Z", Some("2026-0042"), 0) ]
    else []
  }

  function InitialStore(): Store {
    Store(
      map[MAIN := Open(MAIN, 10000, None),
          NO_BOOKING := Open(NO_BOOKING, 7500, Some("doc-no-booking")),
          NO_EMAIL := Open(NO_EMAIL, 8900, Some("doc-no-email")),
          DOC_ERROR := Open(DOC_ERROR, 12000, None)],
      InitialList(),
      map[MAIN := EMPTY_PANEL,
          NO_BOOKING := ActivePanel([]),
          NO_EMAIL := ActivePanel([]),
          DOC_ERROR := Panel(PanelFailed, None, [])],
      map id | id in {MAIN, PAID, DOC_MISSING, NO_BOOKING, NO_EMAIL, DOC_ERROR} :: InitialTimeline(id),
      map[])
  }

  // ---------------------------------------------------------------- updates

  /** The position of the first list row of an invoice, or the number of rows. */
  function RowOf(list: seq<ListItem>, id: string): (i: nat)
    ensures i <= |list|
    ensures i < |list| ==> list[i].id == id
    ensures forall j :: 0 <= j < i ==> list[j].id != id
  {
    IndexOfKey(list, (row: ListItem) => row.id, id)
  }

  function PanelDocument(panels: map<string, Panel>, id: string): Option<Document> {
    if id in panels then panels[id].activeDocument else None
  }

  function Synced(row: ListItem, invoice: Invoice, document: Option<Document>): ListItem {
    row.(status := invoice.status,
         paidAmount := invoice.paidCents,
         outstandingAmount := invoice.outstandingCents,
         documentStatus := if document.Some? then Some(document.value.status) else row.documentStatus,
         activeDocumentId := if document.Some? then Some(document.value.id) else row.activeDocumentId)
  }

  function SyncList(s: Store, invoice: Invoice): Store {
    var i := RowOf(s.list, invoice.id);
    if i == |s.list| then s
    else s.(list := s.list[i := Synced(s.list[i], invoice, PanelDocument(s.panels, invoice.id))])
  }

  function TimelineOf(s: Store, id: string): seq<Entry> {
    if id in s.timelines then s.timelines[id] else InitialTimeline(id)
  }

  function Append(s: Store, id: string, entry: Entry): Store {
    s.(timelines := s.timelines[id := [entry] + TimelineOf(s, id)])
  }

  function Max0(cents: int): int {
    if cents < 0 then 0 else cents
  }

  function Settle(invoice: Invoice, payment: Payment, now: string): Invoice {
    var paid := invoice.paidCents + payment.amountCents;
    var outstanding := Max0(invoice.totalCents - paid);
    invoice.(paidCents := paid,
             outstandingCents := outstanding,
             status := if outstanding <= 0 then Paid else if paid > 0 then PartiallyPaid else invoice.status,
             paidAt := if outstanding <= 0 then Some(now) else invoice.paidAt,
             payments := invoice.payments + [payment])
  }

  function PaymentEntry(updated: Invoice, payment: Payment): Entry {
    Entry(payment.id, if updated.outstandingCents <= 0 then PaymentFull else PaymentPartial,
          payment.paidAt, payment.reference, payment.amountCents)
  }

  /** Throws when the invoice is unknown; the store is then unchanged. */
  function RecordPayment(s: Store, id: string, payment: Payment, now: string): Store {
    if id !in s.invoices then s
    else
      var updated := Settle(s.invoices[id], payment, now);
      Append(SyncList(s.(invoices := s.invoices[id := updated]), updated), id, PaymentEntry(updated, payment))
  }

  function MarkSent(s: Store, id: string, entryId: string, now: string): Store {
    if id !in s.invoices then s
    else
      var updated := s.invoices[id].(status := Sent, sentAt := Some(now));
      Append(SyncList(s.(invoices := s.invoices[id := updated]), updated), id,
             Entry(entryId, ExternallyMarked, now, None, 0))
  }

  function HistoryOf(s: Store, id: string): seq<Delivery> {
    if id in s.panels then s.panels[id].deliveryHistory else []
  }

  function Generate(s: Store, id: string): Store {
    s.(polls := s.polls[id := 0],
       panels := s.panels[id := Panel(PanelGenerating, None, HistoryOf(s, id))])
  }

  const FAILED_DELIVERY := Delivery("email-failed-e2e", "anna.schmidt@example.com", "FAILED", None)

  /** Shows the generated document in the panel, the invoice and its list row. */
  function Complete(s: Store, id: string, now: string): Store {
    var shown := s.(panels := s.panels[id := ActivePanel([FAILED_DELIVERY])]);
    var stored :=
      if id !in shown.invoices then shown
      else
        var updated := shown.invoices[id].(generatedDocumentId := Some(DOC_ID));
        SyncList(shown.(invoices := shown.invoices[id := updated]), updated);
    Append(stored, id, Entry("tl-pdf", PdfGenerated, now, Some("rechnung-2026-0042.pdf"), 0))
  }

  /** The second poll after a request completes the document. */
  function Poll(s: Store, id: string, now: string): Store {
    var panel := if id in s.panels then s.panels[id] else EMPTY_PANEL;
    if panel.state != PanelGenerating then s
    else
      var count := (if id in s.polls then s.polls[id] else 0) + 1;
      var counted := s.(polls := s.polls[id := count]);
      if count < 2 then counted else Complete(counted, id, now)
  }

  function SendEmail(s: Store, id: string, toEmail: Option<string>, now: string): Store {
    var panel := if id in s.panels then s.panels[id] else ActivePanel([]);
    var sent := Delivery("email-sent-e2e", toEmail.GetOr("unbekannt@example.com"), "SENT", Some(now));
    Append(s.(panels := s.panels[id := panel.(deliveryHistory := [sent] + panel.deliveryHistory)]), id,
           Entry("email-sent-e2e", DeliverySent, now, toEmail, 0))
  }

  function Resent(history: seq<Delivery>, emailId: string, now: string): seq<Delivery> {
    seq(|history|, i requires 0 <= i < |history| =>
      if history[i].id == emailId then history[i].(status := "SENT", sentAt := Some(now)) else history[i])
  }

  function RetryDelivery(s: Store, id: string, emailId: string, now: string): Store {
    if id !in s.panels then s
    else
      var panel := s.panels[id];
      Append(s.(panels := s.panels[id := panel.(deliveryHistory := Resent(panel.deliveryHistory, emailId, now))]), id,
             Entry("retry-" + emailId, DeliveryRetry, now, Some(emailId), 0))
  }

  // ---------------------------------------------------------------- runs

  datatype Command =
    | Pay(id: string, payment: Payment, now: string)
    | MarkedSent(id: string, entryId: string, now: string)
    | GeneratePdf(id: string)
    | PollPanel(id: string, now: string)
    | Email(id: string, toEmail: Option<string>, now: string)
    | RetryEmail(id: string, emailId: string, now: string)

  function Step(s: Store, c: Command): Store {
    match c
    case Pay(id, payment, now) => RecordPayment(s, id, payment, now)
    case MarkedSent(id, entryId, now) => MarkSent(s, id, entryId, now)
    case GeneratePdf(id) => Generate(s, id)
    case PollPanel(id, now) => Poll(s, id, now)
    case Email(id, toEmail, now) => SendEmail(s, id, toEmail, now)
    case RetryEmail(id, emailId, now) => RetryDelivery(s, id, emailId, now)
  }

  function Run(s: Store, cs: seq<Command>): Store
    decreases |cs|
  {
    if cs == [] then s else Run(Step(s, cs[0]), cs[1..])
  }
}
