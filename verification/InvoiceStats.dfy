/** The aggregates computed from the invoice list and how they relate in every consistent store. */
module InvoiceStats {
  import opened InvoiceLedger
  import opened InvoiceLedgerProofs

  datatype Stats = Stats(
    total: nat,
    outgoing: nat,
    incoming: nat,
    paid: nat,
    unpaid: nat,
    overdue: nat,
    statusCounts: map<InvoiceStatus, nat>,
    totalRevenueCents: int,
    paidRevenueCents: int)

  function CountIf(list: seq<ListItem>, p: ListItem -> bool): nat {
    if list == [] then 0 else CountIf(list[..|list| - 1], p) + (if p(list[|list| - 1]) then 1 else 0)
  }

  function SumOf(list: seq<ListItem>, f: ListItem -> int): int {
    if list == [] then 0 else SumOf(list[..|list| - 1], f) + f(list[|list| - 1])
  }

  function HasStatus(status: InvoiceStatus): ListItem -> bool {
    (row: ListItem) => row.status == status
  }

  predicate IsPaid(row: ListItem) { row.status == Paid }
  predicate IsUnpaid(row: ListItem) { row.outstandingAmount > 0 }
  predicate IsOutgoing(row: ListItem) { row.direction == Outgoing }
  predicate IsIncoming(row: ListItem) { row.direction == Incoming }
  predicate IsOverdue(row: ListItem) { row.isOverdue }
  function Total(row: ListItem): int { row.totalGross }
  function PaidPart(row: ListItem): int { row.paidAmount }
  function Outstanding(row: ListItem): int { row.outstandingAmount }

  function CountOf(counts: map<InvoiceStatus, nat>, status: InvoiceStatus): nat {
    if status in counts then counts[status] else 0
  }

  /** The counts and sums of a list that the statistics endpoint reports. */
  ghost predicate StatsOf(stats: Stats, list: seq<ListItem>) {
    && stats.total == |list|
    && stats.outgoing == CountIf(list, IsOutgoing) && stats.incoming == CountIf(list, IsIncoming)
    && stats.paid == CountIf(list, IsPaid) && stats.unpaid == CountIf(list, IsUnpaid)
    && stats.overdue == CountIf(list, IsOverdue)
    && (forall status :: CountOf(stats.statusCounts, status) == CountIf(list, HasStatus(status)))
    && (forall status :: status in stats.statusCounts ==> stats.statusCounts[status] > 0)
    && stats.totalRevenueCents == SumOf(list, Total) && stats.paidRevenueCents == SumOf(list, PaidPart)
  }

  ghost function SumOfTotals(list: seq<ListItem>): int {
    if list == [] then 0 else SumOfTotals(list[..|list| - 1]) + list[|list| - 1].totalGross
  }

  ghost function SumOfPaid(list: seq<ListItem>): int {
    if list == [] then 0 else SumOfPaid(list[..|list| - 1]) + list[|list| - 1].paidAmount
  }

  /** The same in terms of the rows: each count is the number of positions it speaks of. */
  ghost predicate StatsShow(stats: Stats, list: seq<ListItem>) {
    && stats.total == |list|
    && stats.outgoing == |set i | 0 <= i < |list| && list[i].direction == Outgoing|
    && stats.incoming == |set i | 0 <= i < |list| && list[i].direction == Incoming|
    && stats.paid == |set i | 0 <= i < |list| && list[i].status == Paid|
    && stats.unpaid == |set i | 0 <= i < |list| && list[i].outstandingAmount > 0|
    && stats.overdue == |set i | 0 <= i < |list| && list[i].isOverdue|
    && (forall status :: status in stats.statusCounts <==> exists i :: 0 <= i < |list| && list[i].status == status)
    && (forall status :: status in stats.statusCounts ==>
          stats.statusCounts[status] == |set i | 0 <= i < |list| && list[i].status == status|)
    && stats.totalRevenueCents == SumOfTotals(list) && stats.paidRevenueCents == SumOfPaid(list)
  }

  lemma {:induction false} CountIfIsSize(list: seq<ListItem>, p: ListItem -> bool, rows: set<int>)
    requires forall i :: i in rows <==> 0 <= i < |list| && p(list[i])
    ensures CountIf(list, p) == |rows|
  {
    if list == [] {
      assert forall i :: i !in rows;
      assert rows == {};
    } else {
      CountIfIsSize(list[..|list| - 1], p, rows - {|list| - 1});
    }
  }

  lemma {:induction false} SumsAre(list: seq<ListItem>)
    ensures SumOf(list, Total) == SumOfTotals(list) && SumOf(list, PaidPart) == SumOfPaid(list)
  {
    if list != [] {
      SumsAre(list[..|list| - 1]);
    }
  }

  lemma StatusCountIs(list: seq<ListItem>, status: InvoiceStatus)
    ensures CountIf(list, HasStatus(status)) == |set i | 0 <= i < |list| && list[i].status == status|
    ensures CountIf(list, HasStatus(status)) > 0 <==> exists i :: 0 <= i < |list| && list[i].status == status
  {
    var all := set i | 0 <= i < |list| && list[i].status == status;
    CountIfIsSize(list, HasStatus(status), all);
    if i :| 0 <= i < |list| && list[i].status == status {
      assert i in all;
    }
    if all != {} {
      var i :| i in all;
      assert list[i].status == status;
    }
  }

  lemma CountsAre(list: seq<ListItem>)
    ensures CountIf(list, IsOutgoing) == |set i | 0 <= i < |list| && list[i].direction == Outgoing|
    ensures CountIf(list, IsIncoming) == |set i | 0 <= i < |list| && list[i].direction == Incoming|
    ensures CountIf(list, IsPaid) == |set i | 0 <= i < |list| && list[i].status == Paid|
    ensures CountIf(list, IsUnpaid) == |set i | 0 <= i < |list| && list[i].outstandingAmount > 0|
    ensures CountIf(list, IsOverdue) == |set i | 0 <= i < |list| && list[i].isOverdue|
  {
    CountIfIsSize(list, IsOutgoing, set i | 0 <= i < |list| && list[i].direction == Outgoing);
    CountIfIsSize(list, IsIncoming, set i | 0 <= i < |list| && list[i].direction == Incoming);
    CountIfIsSize(list, IsPaid, set i | 0 <= i < |list| && list[i].status == Paid);
    CountIfIsSize(list, IsUnpaid, set i | 0 <= i < |list| && list[i].outstandingAmount > 0);
    CountIfIsSize(list, IsOverdue, set i | 0 <= i < |list| && list[i].isOverdue);
  }

  lemma StatsOfShows(stats: Stats, list: seq<ListItem>)
    requires StatsOf(stats, list)
    ensures StatsShow(stats, list)
  {
    CountsAre(list);
    SumsAre(list);
    forall status
      ensures status in stats.statusCounts <==> exists i :: 0 <= i < |list| && list[i].status == status
      ensures status in stats.statusCounts ==>
        stats.statusCounts[status] == |set i | 0 <= i < |list| && list[i].status == status|
    {
      StatusCountIs(list, status);
      assert CountOf(stats.statusCounts, status) == CountIf(list, HasStatus(status));
    }
  }

  /** The statistics endpoint; the status counts are accumulated row by row. */
  method StatsFromList(list: seq<ListItem>) returns (stats: Stats)
    ensures StatsOf(stats, list) && StatsShow(stats, list)
  {
    var statusCounts: map<InvoiceStatus, nat> := map[];
    for n := 0 to |list|
      invariant forall status :: CountOf(statusCounts, status) == CountIf(list[..n], HasStatus(status))
      invariant forall status :: status in statusCounts ==> statusCounts[status] > 0
    {
      assert list[..n + 1][..n] == list[..n];
      var status := list[n].status;
      statusCounts := statusCounts[status := CountOf(statusCounts, status) + 1];
    }
    assert list[..|list|] == list;
    stats := Stats(|list|, CountIf(list, IsOutgoing), CountIf(list, IsIncoming), CountIf(list, IsPaid),
                   CountIf(list, IsUnpaid), CountIf(list, IsOverdue), statusCounts,
                   SumOf(list, Total), SumOf(list, PaidPart));
    StatsOfShows(stats, list);
  }

  lemma {:induction false} StatusesPartition(list: seq<ListItem>)
    ensures CountIf(list, HasStatus(Issued)) + CountIf(list, HasStatus(PartiallyPaid)) +
      CountIf(list, HasStatus(Paid)) + CountIf(list, HasStatus(Sent)) == |list|
    ensures CountIf(list, HasStatus(Paid)) == CountIf(list, IsPaid)
    ensures CountIf(list, IsOutgoing) + CountIf(list, IsIncoming) == |list|
  {
    if list != [] {
      StatusesPartition(list[..|list| - 1]);
    }
  }

  /** No row counts as paid and as unpaid. */
  ghost predicate PaidOrUnpaid(list: seq<ListItem>) {
    forall i :: 0 <= i < |list| ==> !(IsPaid(list[i]) && IsUnpaid(list[i]))
  }

  lemma {:induction false} PaidAndUnpaidFit(list: seq<ListItem>)
    requires PaidOrUnpaid(list)
    ensures CountIf(list, IsPaid) + CountIf(list, IsUnpaid) <= |list|
  {
    if list != [] {
      PaidAndUnpaidFit(list[..|list| - 1]);
    }
  }

  lemma {:induction false} RevenueSplits(list: seq<ListItem>)
    requires forall i :: 0 <= i < |list| ==> RowBalanced(list[i])
    ensures SumOf(list, Total) <= SumOf(list, PaidPart) + SumOf(list, Outstanding)
    ensures SumOf(list, Total) == SumOf(list, PaidPart) + SumOf(list, Outstanding) <==>
      forall i :: 0 <= i < |list| ==> list[i].paidAmount <= list[i].totalGross
  {
    if list != [] {
      var front := list[..|list| - 1];
      RevenueSplits(front);
      assert forall i :: 0 <= i < |list| ==> i == |list| - 1 || list[i] == front[i];
    }
  }

  /**
    In every reachable store, payments of any sign included: the four status counts sum to the
    total and so do the two directions, and paid revenue plus everything outstanding is at least
    the total revenue, with equality exactly when no row is overpaid.
   */
  lemma ReachableStatsAddUp(cs: seq<Command>, stats: Stats)
    requires StatsOf(stats, Run(InitialStore(), cs).list)
    ensures var counts := stats.statusCounts;
      CountOf(counts, Issued) + CountOf(counts, PartiallyPaid) +
        CountOf(counts, Paid) + CountOf(counts, Sent) == stats.total
    ensures stats.paid == CountOf(stats.statusCounts, Paid)
    ensures stats.outgoing + stats.incoming == stats.total
    ensures var list := Run(InitialStore(), cs).list;
      && stats.totalRevenueCents <= stats.paidRevenueCents + SumOf(list, Outstanding)
      && (stats.totalRevenueCents == stats.paidRevenueCents + SumOf(list, Outstanding) <==>
            forall i :: 0 <= i < |list| ==> list[i].paidAmount <= list[i].totalGross)
  {
    ReachableStores(cs, MAIN);
    var list := Run(InitialStore(), cs).list;
    StatusesPartition(list);
    RevenueSplits(list);
  }

  /** With one agreeing row per invoice, the rows alone tell whether PAID means nothing outstanding. */
  lemma SettledIffPaidOrUnpaid(s: Store)
    requires Consistent(s)
    ensures AllSettled(s) <==> PaidOrUnpaid(s.list)
  {
    if PaidOrUnpaid(s.list) {
      forall id | id in s.invoices ensures Settled(s.invoices[id]) {
        assert HasRow(s.list, id);
        var i :| 0 <= i < |s.list| && s.list[i].id == id;
        assert RowAgrees(s.list[i], s.invoices[id]);
      }
    }
  }

  ghost predicate AlwaysPaidOrUnpaid(s: Store, cs: seq<Command>)
    decreases |cs|
  {
    PaidOrUnpaid(s.list) && (cs == [] || AlwaysPaidOrUnpaid(Step(s, cs[0]), cs[1..]))
  }

  lemma {:induction false} AlwaysSettledIffPaidOrUnpaid(s: Store, cs: seq<Command>)
    requires Consistent(s)
    ensures AlwaysSettled(s, cs) <==> AlwaysPaidOrUnpaid(s, cs)
    decreases |cs|
  {
    SettledIffPaidOrUnpaid(s);
    if cs != [] {
      StepStaysConsistent(s, cs[0]);
      AlwaysSettledIffPaidOrUnpaid(Step(s, cs[0]), cs[1..]);
    }
  }

  /**
    From the seeded store no row ever counts as both paid and unpaid exactly when no payment of
    the run unsettles an invoice; the two counts then fit into the total.
   */
  lemma PaidOrUnpaidIff(cs: seq<Command>, stats: Stats)
    requires StatsOf(stats, Run(InitialStore(), cs).list)
    ensures AlwaysPaidOrUnpaid(InitialStore(), cs) <==> NeverUnsettles(InitialStore(), cs)
    ensures NeverUnsettles(InitialStore(), cs) ==> stats.paid + stats.unpaid <= stats.total
  {
    var s := InitialStore();
    InitialStoreIsConsistent();
    SeededPanelsIdle(MAIN);
    AlwaysSettledIffPaidOrUnpaid(s, cs);
    RunKeepsSettledIff(s, cs);
    if NeverUnsettles(s, cs) {
      RunStaysConsistent(s, cs);
      SettledIffPaidOrUnpaid(Run(s, cs));
      PaidAndUnpaidFit(Run(s, cs).list);
    }
  }

  lemma SeededRows()
    ensures var list := InitialList();
      |list| == 6 && forall i :: 0 <= i < 6 ==>
        && list[i].direction == Outgoing && !list[i].isOverdue
        && list[i].status == (if i == 1 then Paid else Issued) && (list[i].outstandingAmount > 0 <==> i != 1)
  {
  }

  lemma PositionsBelow(n: nat, rows: set<int>)
    requires forall i :: i in rows <==> 0 <= i < n
    ensures |rows| == n
  {
    if n > 0 {
      PositionsBelow(n - 1, rows - {n - 1});
    } else {
      assert forall i :: i !in rows;
      assert rows == {};
    }
  }

  /** The seeded list: six outgoing rows over 468.50, of which one is paid with 59.50 and five are issued. */
  lemma SeededStats(stats: Stats)
    requires StatsShow(stats, InitialList())
    ensures stats.total == stats.outgoing == 6 && stats.incoming == stats.overdue == 0
    ensures stats.paid == 1 && stats.unpaid == 5
    ensures stats.totalRevenueCents == 46850 && stats.paidRevenueCents == 5950
  {
    var list := InitialList();
    SeededSums();
    SeededRows();
    PositionsBelow(6, set i | 0 <= i < |list| && list[i].direction == Outgoing);
    PositionsBelow(0, set i | 0 <= i < |list| && list[i].direction == Incoming);
    PositionsBelow(0, set i | 0 <= i < |list| && list[i].isOverdue);
    assert (set i | 0 <= i < |list| && list[i].status == Paid) == {1};
    var open := set i | 0 <= i < |list| && list[i].outstandingAmount > 0;
    PositionsBelow(6, open + {1});
    assert open == (open + {1}) - {1};
  }

  lemma SeededSums()
    ensures SumOfTotals(InitialList()) == 46850 && SumOfPaid(InitialList()) == 5950
  {
    var list := InitialList();
    assert list[..5][..4] == list[..4] && list[..4][..3] == list[..3] && list[..3][..2] == list[..2];
    assert list[..2][..1] == list[..1] && list[..1][..0] == [];
    SumStep(list, 5);
    SumStep(list, 4);
    SumStep(list, 3);
    SumStep(list, 2);
    SumStep(list, 1);
    SumStep(list, 0);
    assert list[..6] == list;
  }

  lemma SumStep(list: seq<ListItem>, n: nat)
    requires n < |list|
    ensures SumOfTotals(list[..n + 1]) == SumOfTotals(list[..n]) + list[n].totalGross
    ensures SumOfPaid(list[..n + 1]) == SumOfPaid(list[..n]) + list[n].paidAmount
  {
    assert list[..n + 1][..n] == list[..n];
  }
}
