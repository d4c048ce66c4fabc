/** The mutable store behind the invoice endpoints, proved against module InvoiceLedger. */
module InvoiceServer {
  import opened Options
  import opened InvoiceLedger
  import opened InvoiceLedgerProofs

  datatype StoreError = InvoiceNotFound | PanelNotFound

  class Server {
    var invoices: map<string, Invoice>
    var listItems: seq<ListItem>
    var documentPanels: map<string, Panel>
    var timelines: map<string, seq<Entry>>
    var generatingPolls: map<string, nat>

    ghost function State(): Store
      reads this
    {
      Store(invoices, listItems, documentPanels, timelines, generatingPolls)
    }

    constructor ()
      ensures State() == InitialStore() && Consistent(State())
    {
      var store := InitialStore();
      invoices, listItems, documentPanels := store.invoices, store.list, store.panels;
      timelines, generatingPolls := store.timelines, store.polls;
      new;
      InitialStoreIsConsistent();
    }

    method SyncListItemFromInvoice(invoice: Invoice)
      modifies this`listItems
      ensures State() == SyncList(old(State()), invoice)
    {
      var idx := 0;
      while idx < |listItems| && listItems[idx].id != invoice.id
        invariant idx <= |listItems|
        invariant forall j :: 0 <= j < idx ==> listItems[j].id != invoice.id
      {
        idx := idx + 1;
      }
      if idx == |listItems| { return; }
      listItems := listItems[idx := Synced(listItems[idx], invoice, PanelDocument(documentPanels, invoice.id))];
    }

    method AppendTimeline(id: string, entry: Entry)
      modifies this`timelines
      ensures State() == Append(old(State()), id, entry)
    {
      var events := if id in timelines then timelines[id] else InitialTimeline(id);
      timelines := timelines[id := [entry] + events];
    }

    /** POST payments; an unknown invoice throws and changes nothing. */
    method RecordPaymentOnInvoice(id: string, payment: Payment, now: string) returns (r: Result<Invoice, StoreError>)
      modifies this
      ensures State() == Step(old(State()), Pay(id, payment, now))
      ensures r == if id in old(invoices) then Ok(invoices[id]) else Err(InvoiceNotFound)
      ensures old(Consistent(State())) ==> Consistent(State())
    {
      if Consistent(State()) { StepStaysConsistent(State(), Pay(id, payment, now)); }
      if id !in invoices { return Err(InvoiceNotFound); }
      var updated := Settle(invoices[id], payment, now);
      invoices := invoices[id := updated];
      SyncListItemFromInvoice(updated);
      AppendTimeline(id, PaymentEntry(updated, payment));
      r := Ok(updated);
    }

    /** POST mark-sent. */
    method HandleMarkSent(id: string, entryId: string, now: string) returns (r: Result<Invoice, StoreError>)
      modifies this
      ensures State() == Step(old(State()), MarkedSent(id, entryId, now))
      ensures r == if id in old(invoices) then Ok(invoices[id]) else Err(InvoiceNotFound)
      ensures old(Consistent(State())) ==> Consistent(State())
    {
      if Consistent(State()) { StepStaysConsistent(State(), MarkedSent(id, entryId, now)); }
      if id !in invoices { return Err(InvoiceNotFound); }
      var updated := invoices[id].(status := Sent, sentAt := Some(now));
      invoices := invoices[id := updated];
      SyncListItemFromInvoice(updated);
      AppendTimeline(id, Entry(entryId, ExternallyMarked, now, None, 0));
      r := Ok(updated);
    }

    /** POST documents/generate. */
    method HandleGenerate(id: string) returns (panel: Panel)
      modifies this`generatingPolls, this`documentPanels
      ensures State() == Step(old(State()), GeneratePdf(id))
      ensures documentPanels[id] == panel && panel.state == PanelGenerating
    {
      generatingPolls := generatingPolls[id := 0];
      var history := if id in documentPanels then documentPanels[id].deliveryHistory else [];
      panel := Panel(PanelGenerating, None, history);
      documentPanels := documentPanels[id := panel];
    }

    /** The branch of the second poll: the document becomes active everywhere. */
    method CompleteDocument(id: string, now: string) returns (panel: Panel)
      modifies this`documentPanels, this`invoices, this`listItems, this`timelines
      ensures State() == Complete(old(State()), id, now)
      ensures panel == ActivePanel([FAILED_DELIVERY]) && documentPanels == old(documentPanels)[id := panel]
    {
      panel := ActivePanel([FAILED_DELIVERY]);
      documentPanels := documentPanels[id := panel];
      if id in invoices {
        var updated := invoices[id].(generatedDocumentId := Some(DOC_ID));
        invoices := invoices[id := updated];
        SyncListItemFromInvoice(updated);
      }
      AppendTimeline(id, Entry("tl-pdf", PdfGenerated, now, Some("rechnung-2026-0042.pdf"), 0));
    }

    /** GET documents: the poll that completes a pending document. */
    method HandleDocuments(id: string, now: string) returns (panel: Panel)
      modifies this
      ensures State() == Step(old(State()), PollPanel(id, now))
      ensures panel == if id in documentPanels then documentPanels[id] else EMPTY_PANEL
      ensures old(Consistent(State())) ==> Consistent(State())
    {
      if Consistent(State()) { StepStaysConsistent(State(), PollPanel(id, now)); }
      panel := if id in documentPanels then documentPanels[id] else EMPTY_PANEL;
      if panel.state == PanelGenerating {
        var polls := (if id in generatingPolls then generatingPolls[id] else 0) + 1;
        generatingPolls := generatingPolls[id := polls];
        if polls >= 2 {
          panel := CompleteDocument(id, now);
        }
      }
    }

    /** POST documents/send-email. */
    method HandleSendEmail(id: string, toEmail: Option<string>, now: string)
      modifies this`documentPanels, this`timelines
      ensures State() == Step(old(State()), Email(id, toEmail, now))
    {
      var panel := if id in documentPanels then documentPanels[id] else ActivePanel([]);
      var sent := Delivery("email-sent-e2e", toEmail.GetOr("unbekannt@example.com"), "SENT", Some(now));
      documentPanels := documentPanels[id := panel.(deliveryHistory := [sent] + panel.deliveryHistory)];
      AppendTimeline(id, Entry("email-sent-e2e", DeliverySent, now, toEmail, 0));
    }

    /** POST documents/delivery/{emailId}/retry; 404 without a panel. */
    method HandleRetry(id: string, emailId: string, now: string) returns (r: Result<Panel, StoreError>)
      modifies this`documentPanels, this`timelines
      ensures State() == Step(old(State()), RetryEmail(id, emailId, now))
      ensures r.Err? <==> id !in old(documentPanels)
    {
      if id !in documentPanels { return Err(PanelNotFound); }
      var panel := documentPanels[id];
      panel := panel.(deliveryHistory := Resent(panel.deliveryHistory, emailId, now));
      documentPanels := documentPanels[id := panel];
      AppendTimeline(id, Entry("retry-" + emailId, DeliveryRetry, now, Some(emailId), 0));
      r := Ok(panel);
    }
  }
}
