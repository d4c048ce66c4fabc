/**
  What every run of the invoice server conserves, and how the list, the timeline and the store
  agree in every reachable state.
*/
module InvoiceLedgerProofs {
  import opened Options
  import opened InvoiceLedger

  // ---------------------------------------------------------------- agreement of list and store

  ghost predicate RowAgrees(row: ListItem, invoice: Invoice) {
    && row.status == invoice.status
    && row.totalGross == invoice.totalCents
    && row.paidAmount == invoice.paidCents
    && row.outstandingAmount == invoice.outstandingCents
  }

  /** Outstanding is what the total leaves unpaid, never negative. */
  ghost predicate Balanced(invoice: Invoice) {
    invoice.outstandingCents == Max0(invoice.totalCents - invoice.paidCents)
  }

  ghost predicate RowBalanced(row: ListItem) {
    row.outstandingAmount == Max0(row.totalGross - row.paidAmount)
  }

  ghost predicate HasRow(list: seq<ListItem>, id: string) {
    exists i :: 0 <= i < |list| && list[i].id == id
  }

  ghost predicate EachHasRow(s: Store) {
    forall id :: id in s.invoices ==> HasRow(s.list, id)
  }

  ghost predicate RowsAgree(s: Store) {
    && (forall id :: id in s.invoices ==> s.invoices[id].id == id && Balanced(s.invoices[id]))
    && (forall i, j :: 0 <= i < j < |s.list| ==> s.list[i].id != s.list[j].id)
    && (forall i :: 0 <= i < |s.list| ==> RowBalanced(s.list[i]))
    && (forall i :: 0 <= i < |s.list| && s.list[i].id in s.invoices ==> RowAgrees(s.list[i], s.invoices[s.list[i].id]))
  }

  /** Every invoice has exactly one list row, which agrees with it; all amounts balance. */
  ghost predicate Consistent(s: Store) {
    EachHasRow(s) && RowsAgree(s)
  }

  lemma SeededIdsDiffer()
    ensures |MAIN| == |PAID| == 12 && MAIN[4] != PAID[4]
    ensures |NO_EMAIL| == 16 && |DOC_ERROR| == 17 && |NO_BOOKING| == 18 && |DOC_MISSING| == 19
  {
  }

  lemma SeededRowsAgree()
    ensures var s := InitialStore();
      && (forall i, j :: 0 <= i < j < |s.list| ==> s.list[i].id != s.list[j].id)
      && (forall i :: 0 <= i < |s.list| ==> RowBalanced(s.list[i]))
      && (forall i :: 0 <= i < |s.list| && s.list[i].id in s.invoices ==>
            RowAgrees(s.list[i], s.invoices[s.list[i].id]))
  {
  }

  lemma SeededInvoicesHaveRows()
    ensures EachHasRow(InitialStore())
  {
    var list := InitialList();
    assert list[0].id == MAIN && list[3].id == NO_BOOKING && list[4].id == NO_EMAIL && list[5].id == DOC_ERROR;
  }

  lemma SeededRowsAndInvoicesAgree()
    ensures RowsAgree(InitialStore())
  {
    SeededIdsDiffer();
    SeededRowsAgree();
  }

  lemma InitialStoreIsConsistent()
    ensures Consistent(InitialStore())
  {
    SeededInvoicesHaveRows();
    SeededRowsAndInvoicesAgree();
  }

  lemma SyncKeepsRows(s: Store, invoice: Invoice)
    requires EachHasRow(s) && invoice.id in s.invoices
    ensures EachHasRow(SyncList(s.(invoices := s.invoices[invoice.id := invoice]), invoice))
  {
    var t := SyncList(s.(invoices := s.invoices[invoice.id := invoice]), invoice);
    forall id | id in t.invoices ensures HasRow(t.list, id) {
      assert HasRow(s.list, id);
      var i :| 0 <= i < |s.list| && s.list[i].id == id;
      assert t.list[i].id == id;
    }
  }

  lemma SyncKeepsAgreement(s: Store, invoice: Invoice)
    requires RowsAgree(s) && invoice.id in s.invoices && Balanced(invoice)
    requires invoice.totalCents == s.invoices[invoice.id].totalCents
    ensures RowsAgree(SyncList(s.(invoices := s.invoices[invoice.id := invoice]), invoice))
  {
    var i := RowOf(s.list, invoice.id);
    if i < |s.list| {
      assert RowAgrees(s.list[i], s.invoices[invoice.id]);
    }
  }

  /** Replacing an invoice and syncing its row keeps everything in agreement. */
  lemma ReplaceAndSync(s: Store, invoice: Invoice)
    requires Consistent(s) && invoice.id in s.invoices && Balanced(invoice)
    requires invoice.totalCents == s.invoices[invoice.id].totalCents
    ensures Consistent(SyncList(s.(invoices := s.invoices[invoice.id := invoice]), invoice))
  {
    SyncKeepsRows(s, invoice);
    SyncKeepsAgreement(s, invoice);
  }

  /** The store in which a completing poll updates the invoice. */
  function Shown(s: Store, id: string): Store {
    s.(polls := s.polls[id := (if id in s.polls then s.polls[id] else 0) + 1],
       panels := s.panels[id := ActivePanel([FAILED_DELIVERY])])
  }

  lemma ConsistentIfSameRows(s: Store, t: Store)
    requires Consistent(s) && t.invoices == s.invoices && t.list == s.list
    ensures Consistent(t)
  {
  }

  lemma PollStaysConsistent(s: Store, id: string, now: string)
    requires Consistent(s)
    ensures Consistent(Poll(s, id, now))
  {
    var t := Poll(s, id, now);
    if id in s.invoices {
      var updated := s.invoices[id].(generatedDocumentId := Some(DOC_ID));
      var synced := SyncList(Shown(s, id).(invoices := s.invoices[id := updated]), updated);
      ReplaceAndSync(Shown(s, id), updated);
      if t.invoices == synced.invoices && t.list == synced.list {
        ConsistentIfSameRows(synced, t);
      } else {
        ConsistentIfSameRows(s, t);
      }
    } else {
      ConsistentIfSameRows(s, t);
    }
  }

  lemma StepStaysConsistent(s: Store, c: Command)
    requires Consistent(s)
    ensures Consistent(Step(s, c))
  {
    match c {
      case Pay(id, payment, now) =>
        if id in s.invoices {
          var updated := Settle(s.invoices[id], payment, now);
          ReplaceAndSync(s, updated);
          ConsistentIfSameRows(SyncList(s.(invoices := s.invoices[id := updated]), updated), Step(s, c));
        }
      case MarkedSent(id, entryId, now) =>
        if id in s.invoices {
          var updated := s.invoices[id].(status := Sent, sentAt := Some(now));
          ReplaceAndSync(s, updated);
          ConsistentIfSameRows(SyncList(s.(invoices := s.invoices[id := updated]), updated), Step(s, c));
        }
      case PollPanel(id, now) => PollStaysConsistent(s, id, now);
      case _ => ConsistentIfSameRows(s, Step(s, c));
    }
  }

  /**
    After any interleaving of payments of any amount, sending marks, document requests, polls and
    e-mails, every list row shows its invoice's status, total, paid and outstanding amounts, and
    outstanding is max(0, total - paid).
   */
  lemma {:induction false} RunStaysConsistent(s: Store, cs: seq<Command>)
    requires Consistent(s)
    ensures Consistent(Run(s, cs))
    decreases |cs|
  {
    if cs != [] {
      StepStaysConsistent(s, cs[0]);
      RunStaysConsistent(Step(s, cs[0]), cs[1..]);
    }
  }

  // ---------------------------------------------------------------- conservation

  /** The sum of the amounts a run records on one invoice. */
  ghost function PaidIn(cs: seq<Command>, id: string): int {
    if cs == [] then 0
    else (if cs[0].Pay? && cs[0].id == id then cs[0].payment.amountCents else 0) + PaidIn(cs[1..], id)
  }

  /** The payments a run records on one invoice, oldest first. */
  ghost function PaymentsIn(cs: seq<Command>, id: string): seq<Payment> {
    if cs == [] then []
    else if cs[0].Pay? && cs[0].id == id then [cs[0].payment] + PaymentsIn(cs[1..], id)
    else PaymentsIn(cs[1..], id)
  }

  ghost predicate SameMoney(a: Invoice, b: Invoice) {
    && a.totalCents == b.totalCents && a.paidCents == b.paidCents
    && a.outstandingCents == b.outstandingCents && a.payments == b.payments
  }

  ghost predicate KeepsMoney(s: Store, t: Store) {
    s.invoices.Keys == t.invoices.Keys && forall id :: id in s.invoices ==> SameMoney(s.invoices[id], t.invoices[id])
  }

  lemma PollKeepsMoney(s: Store, id: string, now: string)
    ensures KeepsMoney(s, Poll(s, id, now))
  {
  }

  lemma OtherStepsKeepMoney(s: Store, c: Command)
    requires !c.Pay?
    ensures KeepsMoney(s, Step(s, c))
  {
    if c.PollPanel? {
      PollKeepsMoney(s, c.id, c.now);
    }
  }

  lemma PaymentBooksMoney(s: Store, paid: string, payment: Payment, now: string)
    ensures RecordPayment(s, paid, payment, now).invoices ==
      if paid in s.invoices then s.invoices[paid := Settle(s.invoices[paid], payment, now)] else s.invoices
  {
  }

  lemma StepConserves(s: Store, c: Command, id: string)
    requires id in s.invoices
    ensures var t, recorded := Step(s, c), c.Pay? && c.id == id;
      && t.invoices.Keys == s.invoices.Keys
      && t.invoices[id].totalCents == s.invoices[id].totalCents
      && t.invoices[id].paidCents == s.invoices[id].paidCents + (if recorded then c.payment.amountCents else 0)
      && t.invoices[id].payments == s.invoices[id].payments + (if recorded then [c.payment] else [])
      && (!recorded ==> t.invoices[id].outstandingCents == s.invoices[id].outstandingCents)
  {
    if c.Pay? {
      PaymentBooksMoney(s, c.id, c.payment, c.now);
    } else {
      OtherStepsKeepMoney(s, c);
    }
  }

  lemma PaymentsCons(before: seq<Payment>, cs: seq<Command>, id: string)
    requires cs != []
    ensures before + PaymentsIn(cs, id) ==
      (before + (if cs[0].Pay? && cs[0].id == id then [cs[0].payment] else [])) + PaymentsIn(cs[1..], id)
  {
  }

  /**
    Conservation: a run never adds or drops an invoice and never changes a total; paid equals the
    initial paid plus exactly the sum of the payments recorded, which are all kept in order.
   */
  lemma {:induction false} RunConserves(s: Store, cs: seq<Command>, id: string)
    requires id in s.invoices
    ensures var t := Run(s, cs);
      && t.invoices.Keys == s.invoices.Keys
      && t.invoices[id].totalCents == s.invoices[id].totalCents
      && t.invoices[id].paidCents == s.invoices[id].paidCents + PaidIn(cs, id)
      && t.invoices[id].payments == s.invoices[id].payments + PaymentsIn(cs, id)
    decreases |cs|
  {
    if cs != [] {
      var mid := Step(s, cs[0]);
      StepConserves(s, cs[0], id);
      RunConserves(mid, cs[1..], id);
      PaymentsCons(s.invoices[id].payments, cs, id);
    }
  }

  // ---------------------------------------------------------------- settled invoices

  ghost predicate Settled(invoice: Invoice) {
    invoice.status == Paid ==> invoice.outstandingCents == 0
  }

  ghost predicate AllSettled(s: Store) {
    && (forall id :: id in s.invoices ==> Settled(s.invoices[id]))
    && (forall i :: 0 <= i < |s.list| && s.list[i].status == Paid ==> s.list[i].outstandingAmount == 0)
  }

  /**
    A payment keeps "PAID means nothing is outstanding" exactly when it does not pull a PAID
    invoice back to a non-positive paid amount below its total. Only a negative amount can.
   */
  lemma PaymentKeepsSettledIff(invoice: Invoice, payment: Payment, now: string)
    requires Balanced(invoice) && Settled(invoice)
    ensures var paid := invoice.paidCents + payment.amountCents;
      Settled(Settle(invoice, payment, now)) <==> !(invoice.status == Paid && paid <= 0 && paid < invoice.totalCents)
    ensures payment.amountCents >= 0 ==> Settled(Settle(invoice, payment, now))
  {
  }

  /** A refund of a fully paid invoice leaves it PAID with the whole total outstanding. */
  lemma RefundLeavesPaidUnsettled(now: string)
    ensures var full, refund := Payment("p1", 10000, "CARD", None, now), Payment("p2", -10000, "CARD", None, now);
      var t := Settle(Settle(Open(MAIN, 10000, None), full, now), refund, now);
      t.status == Paid && t.outstandingCents == 10000
  {
  }

  ghost predicate NonNegativePayments(cs: seq<Command>) {
    forall i :: 0 <= i < |cs| && cs[i].Pay? ==> cs[i].payment.amountCents >= 0
  }

  lemma SyncKeepsSettled(s: Store, invoice: Invoice)
    requires AllSettled(s) && invoice.id in s.invoices && Settled(invoice)
    ensures AllSettled(SyncList(s.(invoices := s.invoices[invoice.id := invoice]), invoice))
  {
  }

  /** A payment on a stored PAID invoice that pulls it to a non-positive paid amount below its total. */
  ghost predicate Unsettles(s: Store, c: Command) {
    && c.Pay? && c.id in s.invoices && s.invoices[c.id].status == Paid
    && var paid := s.invoices[c.id].paidCents + c.payment.amountCents;
      paid <= 0 && paid < s.invoices[c.id].totalCents
  }

  lemma PayKeepsSettledIff(s: Store, c: Command)
    requires Consistent(s) && AllSettled(s) && c.Pay?
    ensures AllSettled(Step(s, c)) <==> !Unsettles(s, c)
  {
    if c.id in s.invoices {
      var updated := Settle(s.invoices[c.id], c.payment, c.now);
      PaymentKeepsSettledIff(s.invoices[c.id], c.payment, c.now);
      if Settled(updated) {
        SyncKeepsSettled(s, updated);
      } else {
        PaymentBooksMoney(s, c.id, c.payment, c.now);
        assert !Settled(Step(s, c).invoices[c.id]);
      }
    }
  }

  /** In store and list, PAID means nothing outstanding after a request exactly when it does not unsettle. */
  lemma StepKeepsSettledIff(s: Store, c: Command)
    requires Consistent(s) && AllSettled(s)
    ensures AllSettled(Step(s, c)) <==> !Unsettles(s, c)
  {
    match c {
      case Pay(_, _, _) => PayKeepsSettledIff(s, c);
      case MarkedSent(id, entryId, now) =>
        if id in s.invoices { SyncKeepsSettled(s, s.invoices[id].(status := Sent, sentAt := Some(now))); }
      case PollPanel(id, now) =>
        if id in s.invoices { SyncKeepsSettled(Shown(s, id), s.invoices[id].(generatedDocumentId := Some(DOC_ID))); }
      case _ =>
    }
  }

  ghost predicate AlwaysSettled(s: Store, cs: seq<Command>)
    decreases |cs|
  {
    AllSettled(s) && (cs == [] || AlwaysSettled(Step(s, cs[0]), cs[1..]))
  }

  ghost predicate NeverUnsettles(s: Store, cs: seq<Command>)
    decreases |cs|
  {
    cs == [] || (!Unsettles(s, cs[0]) && NeverUnsettles(Step(s, cs[0]), cs[1..]))
  }

  /** Over any run, refunds included, PAID means nothing outstanding throughout iff no payment unsettles. */
  lemma {:induction false} RunKeepsSettledIff(s: Store, cs: seq<Command>)
    requires Consistent(s) && AllSettled(s)
    ensures AlwaysSettled(s, cs) <==> NeverUnsettles(s, cs)
    ensures NeverUnsettles(s, cs) ==> AllSettled(Run(s, cs))
    decreases |cs|
  {
    if cs != [] {
      StepStaysConsistent(s, cs[0]);
      StepKeepsSettledIff(s, cs[0]);
      if !Unsettles(s, cs[0]) {
        RunKeepsSettledIff(Step(s, cs[0]), cs[1..]);
      }
    }
  }

  /** Without negative payments, PAID means nothing outstanding in every reachable state. */
  lemma {:induction false} RunKeepsSettled(s: Store, cs: seq<Command>)
    requires Consistent(s) && AllSettled(s) && NonNegativePayments(cs)
    ensures AllSettled(Run(s, cs))
    decreases |cs|
  {
    if cs != [] {
      StepStaysConsistent(s, cs[0]);
      StepKeepsSettledIff(s, cs[0]);
      NonNegativeTail(cs);
      RunKeepsSettled(Step(s, cs[0]), cs[1..]);
    }
  }

  // ---------------------------------------------------------------- invoices with nothing outstanding

  ghost predicate Cleared(invoice: Invoice) {
    invoice.outstandingCents == 0 ==> invoice.status == Paid
  }

  ghost predicate AllCleared(s: Store) {
    && (forall id :: id in s.invoices ==> Cleared(s.invoices[id]))
    && (forall i :: 0 <= i < |s.list| && s.list[i].outstandingAmount == 0 ==> s.list[i].status == Paid)
  }

  /** A sending mark on a stored invoice with nothing outstanding. */
  ghost predicate HidesPaid(s: Store, c: Command) {
    c.MarkedSent? && c.id in s.invoices && s.invoices[c.id].outstandingCents == 0
  }

  lemma SyncKeepsCleared(s: Store, invoice: Invoice)
    requires AllCleared(s) && invoice.id in s.invoices && Cleared(invoice)
    ensures AllCleared(SyncList(s.(invoices := s.invoices[invoice.id := invoice]), invoice))
  {
  }

  lemma MarkKeepsClearedIff(s: Store, c: Command)
    requires Consistent(s) && AllCleared(s) && c.MarkedSent?
    ensures AllCleared(Step(s, c)) <==> !HidesPaid(s, c)
  {
    if c.id in s.invoices {
      var updated := s.invoices[c.id].(status := Sent, sentAt := Some(c.now));
      if Cleared(updated) {
        SyncKeepsCleared(s, updated);
      } else {
        assert Step(s, c).invoices[c.id] == updated;
      }
    }
  }

  /**
    The converse of "PAID means nothing outstanding": in store and list, an invoice with nothing
    outstanding is PAID after a request exactly when it is not a sending mark on such an invoice.
   */
  lemma StepKeepsClearedIff(s: Store, c: Command)
    requires Consistent(s) && AllCleared(s)
    ensures AllCleared(Step(s, c)) <==> !HidesPaid(s, c)
  {
    match c {
      case Pay(id, payment, now) =>
        if id in s.invoices { SyncKeepsCleared(s, Settle(s.invoices[id], payment, now)); }
      case MarkedSent(_, _, _) => MarkKeepsClearedIff(s, c);
      case PollPanel(id, now) =>
        if id in s.invoices { SyncKeepsCleared(Shown(s, id), s.invoices[id].(generatedDocumentId := Some(DOC_ID))); }
      case _ =>
    }
  }

  ghost predicate AlwaysCleared(s: Store, cs: seq<Command>)
    decreases |cs|
  {
    AllCleared(s) && (cs == [] || AlwaysCleared(Step(s, cs[0]), cs[1..]))
  }

  ghost predicate NeverHidesPaid(s: Store, cs: seq<Command>)
    decreases |cs|
  {
    cs == [] || (!HidesPaid(s, cs[0]) && NeverHidesPaid(Step(s, cs[0]), cs[1..]))
  }

  /** Over any run, nothing outstanding means PAID throughout iff no paid-up invoice is marked as sent. */
  lemma {:induction false} RunKeepsClearedIff(s: Store, cs: seq<Command>)
    requires Consistent(s) && AllCleared(s)
    ensures AlwaysCleared(s, cs) <==> NeverHidesPaid(s, cs)
    ensures NeverHidesPaid(s, cs) ==> AllCleared(Run(s, cs))
    decreases |cs|
  {
    if cs != [] {
      StepStaysConsistent(s, cs[0]);
      StepKeepsClearedIff(s, cs[0]);
      if !HidesPaid(s, cs[0]) {
        RunKeepsClearedIff(Step(s, cs[0]), cs[1..]);
      }
    }
  }

  lemma InitialStoreIsCleared()
    ensures AllCleared(InitialStore())
  {
  }

  /** Marking the seeded invoice as sent once it is paid in full leaves it SENT with nothing outstanding. */
  lemma MarkingPaidInvoiceHidesIt(payment: Payment, entryId: string, now: string)
    requires payment.amountCents == 10000
    ensures var paid := Step(InitialStore(), Pay(MAIN, payment, now));
      var invoice := Step(paid, MarkedSent(MAIN, entryId, now)).invoices[MAIN];
      AllCleared(paid) && invoice.status == Sent && invoice.outstandingCents == 0
  {
    InitialStoreIsConsistent();
    InitialStoreIsCleared();
    StepKeepsClearedIff(InitialStore(), Pay(MAIN, payment, now));
    PaymentBooksMoney(InitialStore(), MAIN, payment, now);
  }

  // ---------------------------------------------------------------- the timeline

  predicate IsPayment(e: Entry) {
    e.kind == PaymentFull || e.kind == PaymentPartial
  }

  /** The payments a newest-first timeline tells of, oldest first. */
  ghost function Told(timeline: seq<Entry>): seq<(string, int)> {
    if timeline == [] then []
    else Told(timeline[1..]) + (if IsPayment(timeline[0]) then [(timeline[0].id, timeline[0].amountCents)] else [])
  }

  ghost function Recorded(payments: seq<Payment>): seq<(string, int)> {
    seq(|payments|, i requires 0 <= i < |payments| => (payments[i].id, payments[i].amountCents))
  }

  /** One payment entry per payment, in order. */
  ghost predicate TellsPayments(s: Store, id: string)
    requires id in s.invoices
  {
    Told(TimelineOf(s, id)) == Recorded(s.invoices[id].payments)
  }

  lemma ToldOfCons(e: Entry, timeline: seq<Entry>)
    ensures Told([e] + timeline) == Told(timeline) + (if IsPayment(e) then [(e.id, e.amountCents)] else [])
  {
  }

  ghost predicate PaysInvoice(s: Store, c: Command, id: string) {
    c.Pay? && c.id == id && id in s.invoices
  }

  /** Everything but a payment adds at most one entry, which is no payment and, but for polls, no completion. */
  lemma OtherStepsAddNoPayment(s: Store, c: Command, id: string)
    requires !PaysInvoice(s, c, id)
    ensures var before, after := TimelineOf(s, id), TimelineOf(Step(s, c), id);
      after == before ||
      (&& after != [] && after == [after[0]] + before && !IsPayment(after[0])
       && (after[0].kind == PdfGenerated ==> c.PollPanel?))
  {
    match c {
      case PollPanel(polled, now) => PollTimeline(s, polled, now, id);
      case Pay(_, _, _) =>
      case _ => OtherTimelines(s, c, id);
    }
  }

  lemma OtherTimelines(s: Store, c: Command, id: string)
    requires !c.Pay? && !c.PollPanel?
    ensures var before, after := TimelineOf(s, id), TimelineOf(Step(s, c), id);
      after == before ||
      (after != [] && after == [after[0]] + before && !IsPayment(after[0]) && after[0].kind != PdfGenerated)
  {
  }

  lemma PollTimeline(s: Store, polled: string, now: string, id: string)
    ensures var t := Poll(s, polled, now);
      var before, after := TimelineOf(s, id), TimelineOf(t, id);
      (after == before && Pending(t, id) == Pending(s, id)) ||
      (&& after != [] && after == [after[0]] + before && after[0].kind == PdfGenerated
       && Pending(s, id) == 1 && Pending(t, id) == 0)
  {
  }

  lemma PaymentAddsItsEntry(s: Store, payment: Payment, now: string, id: string)
    requires id in s.invoices
    ensures TimelineOf(RecordPayment(s, id, payment, now), id) ==
      [PaymentEntry(Settle(s.invoices[id], payment, now), payment)] + TimelineOf(s, id)
  {
  }

  lemma StepTellsPayments(s: Store, c: Command, id: string)
    requires id in s.invoices && TellsPayments(s, id)
    ensures id in Step(s, c).invoices && TellsPayments(Step(s, c), id)
  {
    if PaysInvoice(s, c, id) {
      PaymentTells(s, c.payment, c.now, id);
    } else {
      var before, after := TimelineOf(s, id), TimelineOf(Step(s, c), id);
      StepConserves(s, c, id);
      OtherStepsAddNoPayment(s, c, id);
      if after != before {
        ToldOfCons(after[0], before);
      }
    }
  }

  lemma PaymentTells(s: Store, payment: Payment, now: string, id: string)
    requires id in s.invoices && TellsPayments(s, id)
    ensures var t := RecordPayment(s, id, payment, now); id in t.invoices && TellsPayments(t, id)
  {
    var updated := Settle(s.invoices[id], payment, now);
    PaymentAddsItsEntry(s, payment, now, id);
    PaymentBooksMoney(s, id, payment, now);
    ToldOfCons(PaymentEntry(updated, payment), TimelineOf(s, id));
    assert Recorded(updated.payments) == Recorded(s.invoices[id].payments) + [(payment.id, payment.amountCents)];
  }

  /** For payments of any sign, every invoice's timeline tells exactly its recorded payments, in order. */
  lemma {:induction false} RunTellsPayments(s: Store, cs: seq<Command>, id: string)
    requires id in s.invoices && TellsPayments(s, id)
    ensures id in Run(s, cs).invoices && TellsPayments(Run(s, cs), id)
    decreases |cs|
  {
    if cs != [] {
      StepTellsPayments(s, cs[0], id);
      RunTellsPayments(Step(s, cs[0]), cs[1..], id);
    }
  }

  // ---------------------------------------------------------------- full payment is final

  ghost predicate HoldsFull(timeline: seq<Entry>) {
    exists i :: 0 <= i < |timeline| && timeline[i].kind == PaymentFull
  }

  /** No PAYMENT_PARTIAL entry is newer than a PAYMENT_FULL entry. */
  ghost predicate FullIsFinal(timeline: seq<Entry>) {
    forall i, j :: 0 <= i < j < |timeline| && timeline[j].kind == PaymentFull ==> timeline[i].kind != PaymentPartial
  }

  /** A payment on the invoice after a full one that leaves it below its total. */
  ghost predicate Reopens(s: Store, c: Command, id: string) {
    && PaysInvoice(s, c, id) && HoldsFull(TimelineOf(s, id))
    && s.invoices[id].paidCents + c.payment.amountCents < s.invoices[id].totalCents
  }

  lemma FullIsFinalOfCons(e: Entry, timeline: seq<Entry>)
    requires FullIsFinal(timeline)
    ensures FullIsFinal([e] + timeline) <==> !(e.kind == PaymentPartial && HoldsFull(timeline))
    ensures HoldsFull([e] + timeline) <==> e.kind == PaymentFull || HoldsFull(timeline)
  {
    var longer := [e] + timeline;
    assert longer[0] == e && forall i :: 1 <= i < |longer| ==> longer[i] == timeline[i - 1];
    if j :| 0 <= j < |timeline| && timeline[j].kind == PaymentFull {
      assert longer[j + 1].kind == PaymentFull;
    }
  }

  /** A command keeps full payment final on an invoice exactly when it does not reopen it. */
  lemma StepKeepsFullFinalIff(s: Store, c: Command, id: string)
    requires id in s.invoices && FullIsFinal(TimelineOf(s, id))
    ensures FullIsFinal(TimelineOf(Step(s, c), id)) <==> !Reopens(s, c, id)
  {
    var before, after := TimelineOf(s, id), TimelineOf(Step(s, c), id);
    if PaysInvoice(s, c, id) {
      PaymentAddsItsEntry(s, c.payment, c.now, id);
      FullIsFinalOfCons(PaymentEntry(Settle(s.invoices[id], c.payment, c.now), c.payment), before);
    } else {
      OtherStepsAddNoPayment(s, c, id);
      if after != before {
        FullIsFinalOfCons(after[0], before);
      }
    }
  }

  ghost predicate AlwaysFullFinal(s: Store, cs: seq<Command>, id: string)
    decreases |cs|
  {
    FullIsFinal(TimelineOf(s, id)) && (cs == [] || AlwaysFullFinal(Step(s, cs[0]), cs[1..], id))
  }

  ghost predicate NeverReopens(s: Store, cs: seq<Command>, id: string)
    decreases |cs|
  {
    cs == [] || (!Reopens(s, cs[0], id) && NeverReopens(Step(s, cs[0]), cs[1..], id))
  }

  /** Over any run no partial payment follows a full one throughout iff no payment reopens the invoice. */
  lemma {:induction false} RunKeepsFullFinalIff(s: Store, cs: seq<Command>, id: string)
    requires id in s.invoices && FullIsFinal(TimelineOf(s, id))
    ensures AlwaysFullFinal(s, cs, id) <==> NeverReopens(s, cs, id)
    ensures NeverReopens(s, cs, id) ==> FullIsFinal(TimelineOf(Run(s, cs), id))
    decreases |cs|
  {
    if cs != [] {
      StepKeepsFullFinalIff(s, cs[0], id);
      StepConserves(s, cs[0], id);
      if !Reopens(s, cs[0], id) {
        RunKeepsFullFinalIff(Step(s, cs[0]), cs[1..], id);
      }
    }
  }

  /** A full payment leaves nothing outstanding; without negative payments that stays so. */
  ghost predicate FullIsPaidUp(s: Store, id: string)
    requires id in s.invoices
  {
    HoldsFull(TimelineOf(s, id)) ==> s.invoices[id].outstandingCents == 0
  }

  lemma StepKeepsPaidUp(s: Store, c: Command, id: string)
    requires Consistent(s) && id in s.invoices && FullIsFinal(TimelineOf(s, id)) && FullIsPaidUp(s, id)
    requires c.Pay? ==> c.payment.amountCents >= 0
    ensures !Reopens(s, c, id) && id in Step(s, c).invoices && FullIsPaidUp(Step(s, c), id)
  {
    var before, after := TimelineOf(s, id), TimelineOf(Step(s, c), id);
    StepConserves(s, c, id);
    if PaysInvoice(s, c, id) {
      PaymentAddsItsEntry(s, c.payment, c.now, id);
      PaymentBooksMoney(s, id, c.payment, c.now);
      FullIsFinalOfCons(PaymentEntry(Settle(s.invoices[id], c.payment, c.now), c.payment), before);
    } else {
      OtherStepsAddNoPayment(s, c, id);
      if after != before {
        FullIsFinalOfCons(after[0], before);
      }
    }
  }

  lemma {:induction false} NonNegativeNeverReopens(s: Store, cs: seq<Command>, id: string)
    requires Consistent(s) && id in s.invoices && FullIsFinal(TimelineOf(s, id)) && FullIsPaidUp(s, id)
    requires NonNegativePayments(cs)
    ensures NeverReopens(s, cs, id)
    decreases |cs|
  {
    if cs != [] {
      StepStaysConsistent(s, cs[0]);
      StepKeepsPaidUp(s, cs[0], id);
      StepKeepsFullFinalIff(s, cs[0], id);
      NonNegativeTail(cs);
      NonNegativeNeverReopens(Step(s, cs[0]), cs[1..], id);
    }
  }

  lemma NonNegativeTail(cs: seq<Command>)
    requires cs != [] && NonNegativePayments(cs)
    ensures NonNegativePayments(cs[1..]) && (cs[0].Pay? ==> cs[0].payment.amountCents >= 0)
  {
    assert forall i :: 0 <= i < |cs[1..]| ==> cs[1..][i] == cs[i + 1];
  }

  /** A refund that takes a fully paid invoice below its total again is told as a partial payment. */
  lemma RefundFollowsFull(s: Store, full: Payment, refund: Payment, now: string, id: string)
    requires id in s.invoices
    requires var invoice := s.invoices[id];
      var paid := invoice.paidCents + full.amountCents;
      paid + refund.amountCents < invoice.totalCents <= paid
    ensures var timeline := TimelineOf(Step(Step(s, Pay(id, full, now)), Pay(id, refund, now)), id);
      |timeline| > 1 && timeline[1].kind == PaymentFull && timeline[0].kind == PaymentPartial
  {
    PaymentAddsItsEntry(s, full, now, id);
    PaymentBooksMoney(s, id, full, now);
    PaymentAddsItsEntry(Step(s, Pay(id, full, now)), refund, now, id);
  }

  // ---------------------------------------------------------------- document requests

  ghost function Completions(timeline: seq<Entry>): nat {
    if timeline == [] then 0 else (if timeline[0].kind == PdfGenerated then 1 else 0) + Completions(timeline[1..])
  }

  ghost function Requests(cs: seq<Command>, id: string): nat {
    if cs == [] then 0 else (if cs[0].GeneratePdf? && cs[0].id == id then 1 else 0) + Requests(cs[1..], id)
  }

  ghost function Pending(s: Store, id: string): nat {
    if id in s.panels && s.panels[id].state == PanelGenerating then 1 else 0
  }

  lemma CompletionsOfCons(e: Entry, timeline: seq<Entry>)
    ensures Completions([e] + timeline) == (if e.kind == PdfGenerated then 1 else 0) + Completions(timeline)
  {
  }

  /** No command but a poll completes a document, and only a request makes one pending. */
  lemma OtherStepsCompleteNothing(s: Store, c: Command, id: string)
    requires !c.PollPanel?
    ensures var before, after := TimelineOf(s, id), TimelineOf(Step(s, c), id);
      after == before || (after != [] && after == [after[0]] + before && after[0].kind != PdfGenerated)
  {
    if PaysInvoice(s, c, id) {
      PaymentAddsItsEntry(s, c.payment, c.now, id);
    } else {
      OtherStepsAddNoPayment(s, c, id);
    }
  }

  lemma OtherStepsPending(s: Store, c: Command, id: string)
    requires !c.PollPanel?
    ensures Pending(Step(s, c), id) <= Pending(s, id) + (if c.GeneratePdf? && c.id == id then 1 else 0)
  {
  }

  lemma StepCompletes(s: Store, c: Command, id: string)
    ensures var t := Step(s, c);
      Completions(TimelineOf(t, id)) + Pending(t, id) <=
        Completions(TimelineOf(s, id)) + Pending(s, id) + (if c.GeneratePdf? && c.id == id then 1 else 0)
  {
    var before, after := TimelineOf(s, id), TimelineOf(Step(s, c), id);
    if c.PollPanel? {
      PollTimeline(s, c.id, c.now, id);
    } else {
      OtherStepsCompleteNothing(s, c, id);
      OtherStepsPending(s, c, id);
    }
    if after != before {
      CompletionsOfCons(after[0], before);
    }
  }

  /** Documents are completed at most once per request. */
  lemma {:induction false} CompletionsNeverExceedRequests(s: Store, cs: seq<Command>, id: string)
    ensures Completions(TimelineOf(Run(s, cs), id)) + Pending(Run(s, cs), id) <=
      Completions(TimelineOf(s, id)) + Pending(s, id) + Requests(cs, id)
    decreases |cs|
  {
    if cs != [] {
      StepCompletes(s, cs[0], id);
      CompletionsNeverExceedRequests(Step(s, cs[0]), cs[1..], id);
    }
  }

  /** The second poll after a request shows the document, in the panel, the invoice and the list. */
  lemma SecondPollShowsDocument(s: Store, id: string, now: string)
    requires id in s.invoices && s.invoices[id].id == id
    ensures var t := Poll(Poll(Generate(s, id), id, now), id, now);
      && id in t.panels && t.panels[id] == ActivePanel([FAILED_DELIVERY])
      && id in t.invoices && t.invoices[id].generatedDocumentId == Some(DOC_ID)
      && |t.list| == |s.list|
      && (RowOf(s.list, id) < |s.list| ==> t.list[RowOf(s.list, id)].activeDocumentId == Some(DOC_ID))
  {
    var once := Poll(Generate(s, id), id, now);
    assert once == Generate(s, id).(polls := Generate(s, id).polls[id := 1]);
  }

  // ---------------------------------------------------------------- the seeded server

  lemma SeededTimelines(id: string)
    ensures TimelineOf(InitialStore(), id) == InitialTimeline(id)
    ensures Completions(InitialTimeline(id)) == 0 && Told(InitialTimeline(id)) == []
    ensures !HoldsFull(InitialTimeline(id)) && FullIsFinal(InitialTimeline(id))
    ensures id in InitialStore().invoices ==> TellsPayments(InitialStore(), id)
  {
    var timeline := InitialTimeline(id);
    if timeline != [] {
      assert timeline == [timeline[0]] + ([timeline[1]] + []);
      ToldOfCons(timeline[1], []);
      ToldOfCons(timeline[0], [timeline[1]]);
      CompletionsOfCons(timeline[1], []);
      CompletionsOfCons(timeline[0], [timeline[1]]);
    }
  }

  /** The guarantees of every state reachable from the seeded store, payments of any sign included. */
  lemma ReachableStores(cs: seq<Command>, id: string)
    ensures var t := Run(InitialStore(), cs);
      && Consistent(t)
      && (id in InitialStore().invoices ==>
            id in t.invoices && TellsPayments(t, id) && t.invoices[id].paidCents == PaidIn(cs, id))
      && Completions(TimelineOf(t, id)) <= Requests(cs, id)
  {
    var s := InitialStore();
    InitialStoreIsConsistent();
    SeededTimelines(id);
    SeededPanelsIdle(id);
    RunStaysConsistent(s, cs);
    CompletionsNeverExceedRequests(s, cs, id);
    if id in s.invoices {
      SeededInvoiceUnpaid(id);
      RunConserves(s, cs, id);
      RunTellsPayments(s, cs, id);
    }
  }

  /** What holds besides when no payment is negative. */
  lemma ReachableWithoutRefunds(cs: seq<Command>, id: string)
    requires NonNegativePayments(cs)
    ensures var t := Run(InitialStore(), cs);
      AllSettled(t) && (id in InitialStore().invoices ==> FullIsFinal(TimelineOf(t, id)))
  {
    var s := InitialStore();
    InitialStoreIsConsistent();
    SeededTimelines(id);
    SeededPanelsIdle(id);
    RunKeepsSettled(s, cs);
    if id in s.invoices {
      NonNegativeNeverReopens(s, cs, id);
      RunKeepsFullFinalIff(s, cs, id);
    }
  }

  lemma SeededPanelsIdle(id: string)
    ensures Pending(InitialStore(), id) == 0
    ensures AllSettled(InitialStore())
  {
  }

  lemma SeededInvoiceUnpaid(id: string)
    requires id in InitialStore().invoices
    ensures InitialStore().invoices[id].paidCents == 0
  {
  }
}
