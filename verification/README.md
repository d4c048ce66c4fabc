# SynqDrive telemetry, document and ledger models

Dafny models of the stateful logic in SynqDrive's telemetry scripts, in-memory servers and
backfill tools, with proofs of what each of them keeps over every input and every run.
`dafny verify dfyconfig.toml` checks the whole project.

| component | modules |
|---|---|
| driving-event deduplication and burst statistics | `DrivingEventDedupe`, `DrivingEventCounters` |
| percentiles and median | `Percentiles` |
| legal-document lifecycle server | `LegalFlow` (state machine), `LegalFlowEffects`, `LegalFlowHistory`, `LegalFlowProgress`, `LegalFlowRecords`, `LegalFlowEdges` (proofs), `LegalFlowServer` (mutable rows) |
| CSV report | `Csv` |
| invoice ledger | `InvoiceLedger` (state machine), `InvoiceEffects`, `InvoiceLedgerProofs`, `InvoiceStats`, `InvoiceServer` (mutable store) |
| fuel summary and trip backfill | `EventNames`, `FuelSummary`, `FuelOrder`, `TripBackfill` |
| compatibility seed | `SeedUpsert` |
| master console counters | `PlatformState` |
| organisation aliases | `OrganizationAlias` |
| trip analysis status backfill | `StatusBackfill` |
| shared | `Options`, `Search`, `Filtering`, `Sorting`, `Text` |

Where the source changes state step by step the model has a class or a looping method, and that
member's `ensures` ties it to a specification function; the theorems are about that function and
hold for whole runs. `Sorting` models the stable `Array.prototype.sort`. Times are integers in
milliseconds (ISO strings where the source only stores them), money is in integer cents, levels
and statistics are reals, nullable fields are options, and wall-clock values are parameters.

## Results worth knowing

Several properties one might expect are false of the code. For each, the model keeps the code as it
is, shows a failing input and states exactly when the property holds.

- Headers are joined unescaped, so a header with a comma reads back as two
  (`Csv.CommaSplitsHeader`). A CSV file reads back as printed if and only if there is at least one
  header and no header needs quoting (`Csv.PrintedTableParsesBack`). Cells are arbitrary.
- Two uploads in one millisecond share a document id; publishing both leaves two ACTIVE versions
  (`LegalFlowEdges.SameMillisecondUploadsBreakSingleActive`). Over any run every state has at most
  one active version per slot if and only if no accepted activation hits a row whose id another
  row, active in the same slot, also carries (`LegalFlowEdges.RunKeepsSingleActiveIff`). The log
  accounts for all statuses if and only if every upload of the run brought a fresh id
  (`LegalFlowHistory.RunReplaysIff`), which is also exactly when ids stay unique
  (`LegalFlowProgress.RunKeepsIdsUniqueIff`). The status shown for an id falls back from approval
  if and only if the id is uploaded again (`LegalFlowProgress.ApprovedOnlyMovesForwardIff`).
- A negative payment can leave an invoice PAID with its whole total outstanding
  (`InvoiceLedgerProofs.RefundLeavesPaidUnsettled`). Over any run PAID means nothing outstanding if
  and only if no payment pulls a PAID invoice to a non-positive paid amount below its total
  (`InvoiceLedgerProofs.RunKeepsSettledIff`), which is also exactly when no list row ever counts as
  both paid and unpaid (`InvoiceStats.PaidOrUnpaidIff`).
- A refund after the full payment is told as a partial payment
  (`InvoiceLedgerProofs.RefundFollowsFull`). Over any run no partial payment follows a full one if
  and only if no payment takes a fully paid invoice below its total
  (`InvoiceLedgerProofs.RunKeepsFullFinalIff`).
- Marking a fully paid invoice as sent replaces PAID by SENT
  (`InvoiceLedgerProofs.MarkingPaidInvoiceHidesIt`). Over any run nothing outstanding means PAID if
  and only if no stored invoice with nothing outstanding is marked as sent
  (`InvoiceLedgerProofs.RunKeepsClearedIff`).
- The fuel summary depends on arrival order (`FuelOrder.BoundaryTieShows`) if and only if
  simultaneous readings at one end of the trip differ (`FuelOrder.OrderIrrelevantIff`).
- Moving a user to another organisation leaves both counters wrong
  (`PlatformState.MovingUserBreaksCounts`). Each console handler keeps the counters right if and
  only if its call meets a stated condition (`PlatformState.StepConsistentIff`), and a run stays
  right throughout if and only if all its calls do (`PlatformState.RunConsistentIff`).
- A page of newest trips whose status cannot be inferred blocks all older trips in the status
  backfill for good, at any page size (`StatusBackfill.UnknownStatusBlocksOlderTrips`). Enough
  repeated passes close an open trip that can be inferred if and only if fewer than `--limit` trips
  that cannot be inferred stand before it in the initial queue (`StatusBackfill.TripIsClosedIff`),
  and close all of them if and only if this holds of each (`StatusBackfill.PassesCompleteIff`).
- Raw and visible counts may differ without any burst when raw types alternate
  (`DrivingEventCounters.MixedTypesHideWithoutBursts`). Raw - visible is at most the burst count on
  every list over a set of raw types if and only if the set holds at most one type
  (`DrivingEventCounters.HiddenAtMostBurstsIff`).

The handler methods of the four mutable stores tie the imperative code to the state machines; the
results about them are the theorems over runs.

Further observations from the code: a refused activation in the conflict profile still counts as an
attempt; the seeded timeline lists creation before issue although its panel declares descending
order; the documentation of the seed script speaks of replacing rows per (brand, model, years),
where the code updates the record in place and replaces only its signals.
`inferTripAnalysisStatusFromLegacy` is modelled from
`backend/src/modules/vehicle-intelligence/trips/trip-analysis-status.ts`.

## Model

| member | source | states |
|---|---|---|
| `Sorting.StableSortSorts` | backend/scripts/analyze-lte-r1-driving-event-quality.ts:62 | the sort used throughout returns a sorted permutation of its input |
| `Sorting.StableSortIsStable` | backend/scripts/analyze-lte-r1-driving-event-quality.ts:62 | among elements that tie the sort keeps the input order |
| `DrivingEventDedupe.DedupeNativeEvents` | backend/scripts/analyze-lte-r1-driving-event-quality.ts:61-78 | the backward scan with its early exit computes the one-pass rule that remembers only the last kept time per type |
| `DrivingEventDedupe.KeepFirstIsGreedyPerType` | backend/scripts/analyze-lte-r1-driving-event-quality.ts:64-76 | the kept times of one type are those of a greedy pass over that type's times alone |
| `DrivingEventDedupe.KeptEventsAreOptimal` | backend/scripts/analyze-lte-r1-driving-event-quality.ts:61-78 | per class of raw types (hard and extreme braking are one, every other type stands alone) the kept times come from the input, are pairwise more than 2000 ms apart and cover it with 2000 ms windows; no separated choice is larger and no cover is smaller |
| `DrivingEventDedupe.PairIsMergedIff` | backend/scripts/analyze-lte-r1-driving-event-quality.ts:47-76 | of two events the second is dropped iff it lies at most 2000 ms later and has the same raw type, or the two are hard and extreme braking |
| `DrivingEventDedupe.FirstArrivalIsKept` | backend/scripts/analyze-lte-r1-driving-event-quality.ts:61-78 | of several events of one class and time the one that arrived first is kept |
| `DrivingEventDedupe.DedupeIsIdempotent` | backend/scripts/analyze-lte-r1-driving-event-quality.ts:61-78 | only input events are kept, in time order, and deduplicating again removes nothing |
| `DrivingEventDedupe.DedupeIgnoresInputOrder` | backend/scripts/analyze-lte-r1-driving-event-quality.ts:61-78 | permuting the input changes the kept times of no class of raw types |
| `DrivingEventCounters.BurstDuplicateCount` | backend/scripts/analyze-lte-r1-driving-event-quality.ts:80-92 | the loop returns the number of positions of the sorted list whose event repeats its predecessor's raw type within 2 s |
| `DrivingEventCounters.SameSecondDuplicateGroups` | backend/scripts/analyze-lte-r1-driving-event-quality.ts:94-108 | every raw type with more than one event in a second is listed exactly once with the number of its events in that second, largest first |
| `DrivingEventCounters.SurplusOfCounts` | backend/scripts/analyze-lte-r1-driving-event-quality.ts:101-107 | the sum of (count - 1) over the groups is the number of events minus the number of distinct (second, raw type) pairs |
| `DrivingEventCounters.DuplicateCountersBound` | backend/scripts/analyze-lte-r1-driving-event-quality.ts:224-232 | on every input the group surplus is at most raw - visible and the bursts are at most twice that |
| `DrivingEventCounters.SingleTypeHiddenAtMostBursts` | backend/scripts/analyze-lte-r1-driving-event-quality.ts:224-232 | with a single raw type raw - visible is at most the burst count |
| `DrivingEventCounters.MixedTypesHideWithoutBursts` | backend/scripts/analyze-lte-r1-driving-event-quality.ts:47-52 | any two raw types, under one label or two, can alternate so that an event is hidden and no burst forms |
| `DrivingEventCounters.HiddenAtMostBurstsIff` | backend/scripts/analyze-lte-r1-driving-event-quality.ts:224-232 | raw - visible is at most the burst count on every event list over a set of raw types iff the set holds at most one type |
| `Percentiles.FablePctIsNearestRank` | backend/scripts/analyze-rpm-tier-fable-delta.ts:33-37 | for a non-empty sorted list and p above 0 and up to 100 the result is the least sample with at least p percent of all samples at or below it |
| `Percentiles.PctIsFloorRank` | backend/scripts/analyze-lte-r1-driving-event-quality.ts:147-152 | for p from 0 to below 100 the result is the least sample with more than p percent of all samples at or below it, from 100 on the largest sample |
| `Percentiles.PctRankIsFableRankOrNext` | backend/scripts/analyze-lte-r1-driving-event-quality.ts:147-152 | for p above 0 and up to 100 the floor rank is the nearest rank, plus one exactly when p percent of n is whole and p is below 100 |
| `Percentiles.PercentilesMonotone` | backend/scripts/analyze-lte-r1-driving-event-quality.ts:147-152 | both percentiles exist for every non-empty list and never fall as p grows |
| `Percentiles.MedianIsMeanOfPercentiles` | backend/scripts/analyze-lte-r1-driving-event-quality.ts:140-145 | the median is the mean of the two percentile definitions at 50 |
| `LegalFlowServer.Server.constructor` | frontend/e2e/legal-documents-flow-fixtures.ts:121-192 | the rows, log and counters of each profile's reset, which satisfy the server's invariants |
| `LegalFlowServer.Server.PushEvent` | frontend/e2e/legal-documents-flow-fixtures.ts:194-207 | the log gains one newest entry numbered by its length |
| `LegalFlowServer.Server.SupersedeOthers` | frontend/e2e/legal-documents-flow-fixtures.ts:277-287 | the loop over rows supersedes exactly the active peers of the slot and logs each |
| `LegalFlow.SupersedeFacts` | frontend/e2e/legal-documents-flow-fixtures.ts:277-287 | supersession changes the status of active peers of the slot and nothing else |
| `LegalFlowServer.Server.Promote` | frontend/e2e/legal-documents-flow-fixtures.ts:277-292 | supersession and activation of the row in place |
| `LegalFlowServer.Server.ActivateRow` | frontend/e2e/legal-documents-flow-fixtures.ts:258-293 | status, scan and conflict guards in order, then the promotion |
| `LegalFlowServer.Server.ApplyAction` | frontend/e2e/legal-documents-flow-fixtures.ts:218-297 | each action updates the row in place as the state machine does, or is refused with its error |
| `LegalFlowServer.Server.HandleLifecycle` | frontend/e2e/legal-documents-flow-fixtures.ts:355-373 | lookup, action and HTTP status; a refusal leaves documents and log alone and the invariants survive |
| `LegalFlowServer.Server.HandleUpload` | frontend/e2e/legal-documents-flow-fixtures.ts:375-383 | a new draft row in front of the others and its log entry |
| `LegalFlowServer.Server.HandleDelivery` | frontend/e2e/legal-documents-flow-fixtures.ts:486-505 | 200 with the stored row for a known request id, else 201 with a new row |
| `LegalFlowEffects.AcceptedIff` | frontend/e2e/legal-documents-flow-fixtures.ts:218-297 | from any state a request is accepted iff the id is stored and its first row is DRAFT for submit, IN_REVIEW for request-changes and approve, APPROVED for schedule, or APPROVED, SCHEDULED or ACTIVE with a passed scan and no earlier attempt under the conflict profile for activate |
| `LegalFlowEffects.RefusalReason` | frontend/e2e/legal-documents-flow-fixtures.ts:225-276 | each refusal's code is the failed guard's: 404 for an unknown id or action, 409 for the conflict profile, else 422; nothing changes, except that the 409 counts as an attempt |
| `LegalFlowEffects.AcceptedEffect` | frontend/e2e/legal-documents-flow-fixtures.ts:225-257 | an accepted submit, request-changes, approve or schedule sets status, submitter, approver or start of its one row, logs it once and changes nothing else |
| `LegalFlowEffects.ActivationEffect` | frontend/e2e/legal-documents-flow-fixtures.ts:258-293 | an accepted activation makes its row active and keeps a scheduled start, supersedes exactly the other active versions of the slot, and logs each of them before itself |
| `LegalFlowEffects.UploadEffect` | frontend/e2e/legal-documents-flow-fixtures.ts:375-383 | an upload adds a draft of German terms in front, with the default label if none is given, and logs it |
| `LegalFlowEffects.DeliveryEffect` | frontend/e2e/legal-documents-flow-fixtures.ts:486-505 | a new request id stores a row with its defaults and answers 201, a known one answers 200 with its first row |
| `LegalFlowEffects.ActorIsCurrentUser` | frontend/e2e/legal-documents-flow-fixtures.ts:231-246 | submissions and approvals name the user set last |
| `LegalFlowEffects.SettingsEffect` | frontend/e2e/legal-documents-flow-fixtures.ts:695-701 | user, profile and booking flag are changed one by one and nothing else with them |
| `LegalFlowEffects.ProfileSwitchLiftsConflict` | frontend/e2e/legal-documents-flow-fixtures.ts:265-276 | an activation that only the conflict profile refused is accepted once the profile is left |
| `LegalFlowEffects.DraftIsScheduled` | frontend/e2e/legal-documents-flow-fixtures.ts:225-257 | an upload taken through review, changes, review, approval and schedule passes the states in order, whatever the state before |
| `LegalFlowEffects.ScheduledIsActivated` | frontend/e2e/legal-documents-flow-fixtures.ts:258-293 | activation then makes it active from its scheduled start and supersedes the active versions of the slot |
| `LegalFlowEffects.ResetProfiles` | frontend/e2e/legal-documents-flow-fixtures.ts:121-192 | what each profile's reset leaves: its active version or none, its failed scan or integrity check, its booking flag and its log |
| `LegalFlowEffects.ConflictScenario` | frontend/e2e/legal-documents-flow-fixtures.ts:166-173 | from the conflict profile's reset the first activation succeeds and the second answers 409 |
| `LegalFlowEffects.ScanFailedScenario` | frontend/e2e/legal-documents-flow-fixtures.ts:262-264 | from the failed-scan profile's reset activation answers 422 and changes nothing |
| `LegalFlowHistory.RunReplays` | frontend/e2e/legal-documents-flow-fixtures.ts:194-297 | from unique ids and over any run with fresh upload ids the log only grows, and replaying the added entries onto the starting statuses, each naming the status it replaces and following a legal transition, gives every document's final status |
| `LegalFlowHistory.RunReplaysIff` | frontend/e2e/legal-documents-flow-fixtures.ts:194-207 | from unique ids, the log of any run accounts for every document's final status iff every upload of the run brought a fresh id |
| `LegalFlowHistory.LogOnlyGrows` | frontend/e2e/legal-documents-flow-fixtures.ts:194-207 | no run, re-used upload ids included, drops or changes a log entry |
| `LegalFlowHistory.RunStaysSound` | frontend/e2e/legal-documents-flow-fixtures.ts:194-293 | over every run, re-used upload ids included, active versions passed their scan and carry an activation time, and event ids are distinct |
| `LegalFlowHistory.RunStaysGood` | frontend/e2e/legal-documents-flow-fixtures.ts:258-293 | if every upload of the run brings a fresh id, ids stay unique and at most one version per slot is active |
| `LegalFlowHistory.ReachableStatesAreGood` | frontend/e2e/legal-documents-flow-fixtures.ts:121-192 | from every profile's reset `RunStaysSound` holds for every run, and `RunStaysGood` and `RunReplays` for every run with fresh upload ids |
| `LegalFlowHistory.RefusalChangesNothing` | frontend/e2e/legal-documents-flow-fixtures.ts:355-373 | a refused call changes at most the attempt counter, and a call is accepted exactly when the log grows |
| `LegalFlowProgress.RunMovesForward` | frontend/e2e/legal-documents-flow-fixtures.ts:241-293 | over every run, re-used ids included, each stored row keeps its id, slot and version and never falls back from approval on |
| `LegalFlowProgress.RunKeepsIdsUniqueIff` | frontend/e2e/legal-documents-flow-fixtures.ts:375-383 | from unique ids, ids are unique after a run iff every upload of the run brings a fresh id |
| `LegalFlowProgress.ApprovedOnlyMovesForwardIff` | frontend/e2e/legal-documents-flow-fixtures.ts:241-293 | the status shown for an id that is approved or beyond never falls back along APPROVED, SCHEDULED, ACTIVE, SUPERSEDED, in any step or over the run, iff the run does not upload that id again |
| `LegalFlowProgress.ActiveNeedsStandingApproval` | frontend/e2e/legal-documents-flow-fixtures.ts:225-293 | from unique ids and over a run with fresh upload ids, a document uploaded by the run is approved or beyond only if the log of the run holds its approval with no later request for changes |
| `LegalFlowRecords.RunStaysRecorded` | frontend/e2e/legal-documents-flow-fixtures.ts:194-256 | over any run every log entry carries the id, type, language and version of a stored document, and documents under ids that were not there at the start name submitter, approver and start once they reach those states |
| `LegalFlowRecords.ReachableStatesAreRecorded` | frontend/e2e/legal-documents-flow-fixtures.ts:121-192 | the same from every profile's reset |
| `LegalFlowEdges.ConflictProfileActivatesOnce` | frontend/e2e/legal-documents-flow-fixtures.ts:265-276 | while the conflict profile stays set the number of activations is 0 before the first counted attempt and 1 after it |
| `LegalFlowEdges.ConflictResetAllowsOne` | frontend/e2e/legal-documents-flow-fixtures.ts:166-173 | from that profile's reset and while it stays set at most one activation succeeds |
| `LegalFlowEdges.StepKeepsSingleActiveIff` | frontend/e2e/legal-documents-flow-fixtures.ts:258-293 | from any state with single active versions, ids unique or not, a request keeps them single iff it is not an accepted activation of a row whose id another active row of the slot also carries |
| `LegalFlowEdges.RunKeepsSingleActiveIff` | frontend/e2e/legal-documents-flow-fixtures.ts:258-293 | every state of a run has single active versions iff the run contains no such activation |
| `LegalFlowEdges.PublishKeepsSingleActiveIff` | frontend/e2e/legal-documents-flow-fixtures.ts:375-383 | consequence for an upload taken straight to activation: its id is not an active version's id or the conflict profile refuses |
| `LegalFlowEdges.SameMillisecondUploadsBreakSingleActive` | frontend/e2e/legal-documents-flow-fixtures.ts:378 | publishing two uploads with one clock-derived id leaves two active versions |
| `LegalFlowEdges.DeliveryIsIdempotent` | frontend/e2e/legal-documents-flow-fixtures.ts:486-505 | after any run a repeated report gets the first report's row with 200 and stores nothing |
| `Csv.WriteCsv` | scripts/audits/audit-brake-health-production-readiness.ts:151-158 | the text the loop builds, and exactly when it parses back |
| `Csv.FieldParses` | scripts/audits/audit-brake-health-production-readiness.ts:145-149 | an escaped cell followed by a comma or LF parses to its text, for any text |
| `Csv.EscapeIsMinimal` | scripts/audits/audit-brake-health-production-readiness.ts:145-149 | a text without quote, comma, LF and CR is printed as it is, any other between quotes with its own quotes doubled |
| `Csv.RecordParses` | scripts/audits/audit-brake-health-production-readiness.ts:154 | a printed row parses to its cells and stops at its line end |
| `Csv.HeadersParseBackOnlyIfPlain` | scripts/audits/audit-brake-health-production-readiness.ts:152 | raw headers are read back only if none contains a quote, comma, LF or CR |
| `Csv.PrintedTableParsesBack` | scripts/audits/audit-brake-health-production-readiness.ts:145-158 | a strict reader of section 2 of RFC 4180 with LF line ends recovers the headers and each row's text under each header, null and missing entries as empty, iff there is a header and all headers are plain |
| `Csv.FieldsReadBack` | scripts/audits/audit-brake-health-production-readiness.ts:151-158 | field by field: the entry of any row under any plain header is read back as the row's own text |
| `Csv.CommaSplitsHeader` | scripts/audits/audit-brake-health-production-readiness.ts:152 | a header made of two plain texts and a comma is read back as two headers, and the table is lost |
| `Csv.PrintingIsInjective` | scripts/audits/audit-brake-health-production-readiness.ts:145-158 | tables under the same plain headers print alike only if all rows read alike under all headers |
| `InvoiceServer.Server.constructor` | frontend/e2e/invoice-fixtures.ts:440-510 | the seeded store, in which list and invoices agree |
| `InvoiceServer.Server.SyncListItemFromInvoice` | frontend/e2e/invoice-fixtures.ts:518-530 | the first row of the invoice shows its amounts, status and active document |
| `InvoiceServer.Server.AppendTimeline` | frontend/e2e/invoice-fixtures.ts:580-589 | one newest entry on the stored or initial timeline |
| `InvoiceServer.Server.RecordPaymentOnInvoice` | frontend/e2e/invoice-fixtures.ts:591-642 | store, list and timeline after a payment; an unknown invoice is an error and changes nothing |
| `InvoiceServer.Server.HandleMarkSent` | frontend/e2e/invoice-fixtures.ts:882-902 | status SENT in store and list, with an entry |
| `InvoiceServer.Server.HandleGenerate` | frontend/e2e/invoice-fixtures.ts:783-804 | a pending panel that keeps the delivery history, and a poll counter of 0 |
| `InvoiceServer.Server.CompleteDocument` | frontend/e2e/invoice-fixtures.ts:757-777 | the second poll's branch: panel, invoice, list row and timeline |
| `InvoiceServer.Server.HandleDocuments` | frontend/e2e/invoice-fixtures.ts:750-781 | the poll as a step of the state machine, answering with the stored panel |
| `InvoiceServer.Server.HandleSendEmail` | frontend/e2e/invoice-fixtures.ts:806-845 | a delivery in front of the history and an entry |
| `InvoiceServer.Server.HandleRetry` | frontend/e2e/invoice-fixtures.ts:847-880 | the matching deliveries marked sent and an entry; an error without a panel |
| `InvoiceEffects.PaymentEffect` | frontend/e2e/invoice-fixtures.ts:591-642 | a payment makes the stored invoice and its row PAID iff the total is reached and dates it then, PARTIALLY_PAID iff something but not all is paid, else keeps the status; it is told as full or partial, nothing else changes, and an unknown invoice changes nothing |
| `InvoiceEffects.SendingMarkEffect` | frontend/e2e/invoice-fixtures.ts:882-902 | a sending mark makes invoice and row SENT and dates it, tells it, and changes nothing else |
| `InvoiceEffects.StepKeepsStatusIff` | frontend/e2e/invoice-fixtures.ts:611-614 | a status that follows the paid amount keeps following it after a request iff the request is not a sending mark on the invoice or a refund to nothing paid |
| `InvoiceEffects.RunKeepsStatusIff` | frontend/e2e/invoice-fixtures.ts:611-614 | the same over any run |
| `InvoiceEffects.RunStatusFollowsPayments` | frontend/e2e/invoice-fixtures.ts:591-642 | without sending marks on the invoice and negative payments its status and its row's status are determined by the sum of its payments and its total |
| `InvoiceEffects.SeededStatusFollowsPayments` | frontend/e2e/invoice-fixtures.ts:591-642 | the same from the seeded store, where nothing is paid |
| `InvoiceEffects.GenerateEffect` | frontend/e2e/invoice-fixtures.ts:783-804 | a request empties the panel but for its history and restarts the count of polls |
| `InvoiceEffects.EarlyPollEffect` | frontend/e2e/invoice-fixtures.ts:750-756 | a poll of a panel that is not generating changes nothing, the first poll of a request only counts |
| `InvoiceEffects.CompletingPollEffect` | frontend/e2e/invoice-fixtures.ts:757-777 | the completing poll shows the document in panel, invoice and row with the failed delivery on record, tells it, and changes nothing else |
| `InvoiceEffects.ThreePolls` | frontend/e2e/invoice-fixtures.ts:750-804 | after a request the first poll leaves it pending, the second completes it, the third changes nothing |
| `InvoiceEffects.EmailEffect` | frontend/e2e/invoice-fixtures.ts:806-845 | a sent e-mail with its recipient becomes the newest delivery and is told |
| `InvoiceEffects.RetryEffect` | frontend/e2e/invoice-fixtures.ts:847-880 | exactly the deliveries with the id become sent, and the retry is told |
| `InvoiceEffects.RetryLeavesNoneFailed` | frontend/e2e/invoice-fixtures.ts:750-880 | after generating, mailing and retrying the failed delivery none is failed |
| `InvoiceEffects.TimelineOnlyGrows` | frontend/e2e/invoice-fixtures.ts:580-589 | no run removes or changes an entry of a timeline |
| `InvoiceEffects.MainTimelineEnds` | frontend/e2e/invoice-fixtures.ts:372-404 | from the seeded store the main invoice's timeline always ends with its creation and issue |
| `InvoiceLedgerProofs.RunStaysConsistent` | frontend/e2e/invoice-fixtures.ts:518-530 | under any interleaving every invoice has exactly one list row, which shows its status, total, paid and outstanding, and outstanding is max(0, total - paid) |
| `InvoiceLedgerProofs.RunConserves` | frontend/e2e/invoice-fixtures.ts:591-626 | no run adds or drops an invoice or changes a total; paid is initial paid plus the recorded amounts, all kept in order |
| `InvoiceLedgerProofs.PaymentKeepsSettledIff` | frontend/e2e/invoice-fixtures.ts:611-614 | a payment keeps "PAID means nothing outstanding" iff it does not pull a PAID invoice to a non-positive paid amount below its total |
| `InvoiceLedgerProofs.RefundLeavesPaidUnsettled` | frontend/e2e/invoice-fixtures.ts:611-614 | refunding a fully paid invoice leaves it PAID with the total outstanding |
| `InvoiceLedgerProofs.StepKeepsSettledIff` | frontend/e2e/invoice-fixtures.ts:591-626 | in a consistent store, PAID means nothing outstanding in store and list after a request iff it is not such a payment on a stored invoice |
| `InvoiceLedgerProofs.RunKeepsSettledIff` | frontend/e2e/invoice-fixtures.ts:591-642 | over any run, payments of any sign included, this holds throughout iff the run records no such payment |
| `InvoiceLedgerProofs.RunKeepsSettled` | frontend/e2e/invoice-fixtures.ts:591-642 | without negative payments PAID means nothing outstanding, in store and list, in every reachable state |
| `InvoiceLedgerProofs.StepKeepsClearedIff` | frontend/e2e/invoice-fixtures.ts:882-902 | conversely, nothing outstanding means PAID in store and list after a request iff it is not a sending mark on a stored invoice with nothing outstanding |
| `InvoiceLedgerProofs.RunKeepsClearedIff` | frontend/e2e/invoice-fixtures.ts:591-902 | over any run this holds throughout iff the run contains no such sending mark |
| `InvoiceLedgerProofs.MarkingPaidInvoiceHidesIt` | frontend/e2e/invoice-fixtures.ts:882-902 | the seeded invoice, paid in full and then marked as sent, is SENT with nothing outstanding |
| `InvoiceLedgerProofs.RunTellsPayments` | frontend/e2e/invoice-fixtures.ts:628-639 | for payments of any sign the timeline tells exactly the recorded payments, in order |
| `InvoiceLedgerProofs.StepKeepsFullFinalIff` | frontend/e2e/invoice-fixtures.ts:628-639 | no partial payment follows a full one after a request iff it is not a payment that takes an invoice with a full payment below its total |
| `InvoiceLedgerProofs.RunKeepsFullFinalIff` | frontend/e2e/invoice-fixtures.ts:628-639 | over any run this holds throughout iff the run contains no such payment |
| `InvoiceLedgerProofs.RefundFollowsFull` | frontend/e2e/invoice-fixtures.ts:628-639 | a refund that takes a fully paid invoice below its total is told as a partial payment after the full one |
| `InvoiceLedgerProofs.CompletionsNeverExceedRequests` | frontend/e2e/invoice-fixtures.ts:750-804 | generated-PDF entries plus pending documents never exceed the requests made |
| `InvoiceLedgerProofs.SecondPollShowsDocument` | frontend/e2e/invoice-fixtures.ts:754-778 | the second poll after a request shows the document in panel, invoice and list row |
| `InvoiceLedgerProofs.ReachableStores` | frontend/e2e/invoice-fixtures.ts:440-510 | from the seeded store and for payments of any sign: agreement of list and invoices, payments told in order, paid equal to the sum of the payments, completions bounded by requests |
| `InvoiceLedgerProofs.ReachableWithoutRefunds` | frontend/e2e/invoice-fixtures.ts:440-510 | from the seeded store and without negative payments: PAID means nothing outstanding, and no partial payment follows a full one |
| `InvoiceStats.StatsFromList` | frontend/e2e/invoice-fixtures.ts:561-578 | every count is the number of rows it speaks of, the status counts list exactly the statuses that occur, and the revenues are the sums over the rows |
| `InvoiceStats.SeededStats` | frontend/e2e/invoice-fixtures.ts:440-510 | the seeded list's statistics: six outgoing rows over 46850 cents, one of them paid with 5950 |
| `InvoiceStats.ReachableStatsAddUp` | frontend/e2e/invoice-fixtures.ts:561-578 | in every reachable store, payments of any sign included, status counts and directions sum to the total, and paid revenue plus outstanding is at least total revenue, with equality iff nothing is overpaid |
| `InvoiceStats.PaidOrUnpaidIff` | frontend/e2e/invoice-fixtures.ts:561-578 | from the seeded store no row ever counts as both paid and unpaid iff no payment of the run pulls a PAID invoice to a non-positive paid amount below its total; the two counts then fit into the total |
| `FuelSummary.ComputeFuelSummary` | backend/scripts/backfill-lte-r1-events-fuel.ts:228-369 | the scan computes the summary of the time-ordered readings |
| `FuelSummary.SummaryShowsExtremes` | backend/scripts/backfill-lte-r1-events-fuel.ts:253-279 | the shown readings are an earliest and a latest reading of each level among the timed signals, and the counts are exact |
| `FuelSummary.LitersAreSound` | backend/scripts/backfill-lte-r1-events-fuel.ts:283-345 | liters are given iff one of the two paths applies, are never negative, equal max(0, first - last) or lie within 0.005 of the drop's share of the tank and at most tank + 0.005; refuel iff the rise exceeds 2 and the trip lasts 3 minutes |
| `FuelSummary.ConfidenceClassifies` | backend/scripts/backfill-lte-r1-events-fuel.ts:325-354 | each confidence label holds iff the reading counts, the refuel flag and the distances to the trip's ends say so |
| `FuelOrder.OrderIrrelevantIff` | backend/scripts/backfill-lte-r1-events-fuel.ts:246-279 | the summary is the same for every order of arrival iff equally early, and equally late, readings of each level agree in value |
| `FuelOrder.DistinctTimestampsSuffice` | backend/scripts/backfill-lte-r1-events-fuel.ts:246-251 | distinct timestamps make the order irrelevant |
| `FuelOrder.BoundaryTieShows` | backend/scripts/backfill-lte-r1-events-fuel.ts:269-277 | for any tie at one end there are two orders of arrival whose first or last readings differ in value |
| `EventNames.ProviderNames` | backend/scripts/backfill-lte-r1-events-fuel.ts:154-210 | the seven names the script asks for are mapped to their four types |
| `EventNames.OtherNamesAreUnknown` | backend/scripts/backfill-lte-r1-events-fuel.ts:185-210 | behind the prefix no other letters are known |
| `EventNames.SeparatorsAreIgnored` | backend/scripts/backfill-lte-r1-events-fuel.ts:186-190 | white space, underscores and hyphens behind the prefix make no difference |
| `EventNames.UnprefixedLetters` | backend/scripts/backfill-lte-r1-events-fuel.ts:186-190 | without the prefix the same letters count |
| `EventNames.LeadingSpaceIsIgnored` | backend/scripts/backfill-lte-r1-events-fuel.ts:186-190 | white space in front of a name makes no difference |
| `TripBackfill.MappedAreKnown` | backend/scripts/backfill-lte-r1-events-fuel.ts:450-458 | exactly the events with a known name are mapped, in order, to the type of that name |
| `TripBackfill.BackfillStore.RunTransaction` | backend/scripts/backfill-lte-r1-events-fuel.ts:509-574 | delete, create and update in place equal the transaction on values |
| `TripBackfill.BackfillStore.BackfillTrip` | backend/scripts/backfill-lte-r1-events-fuel.ts:442-577 | mapping, fuel summary (skipped for electric vehicles) and transaction of one trip |
| `TripBackfill.TransactionReplacesExactlyItsRows` | backend/scripts/backfill-lte-r1-events-fuel.ts:509-543 | the trip's telemetry rows become one new row per mapped event in order, each with the vehicle, organisation, time, type, severity, name, source and counter of its event; all other rows stay, in order |
| `TripBackfill.TransactionCountsItsRows` | backend/scripts/backfill-lte-r1-events-fuel.ts:460-464 | the stored counters are counts over those rows and add up to their number; known fuel values are never nulled and other trips are untouched |
| `TripBackfill.TransactionWritesFuel` | backend/scripts/backfill-lte-r1-events-fuel.ts:466-574 | known liters of a summary without a refuel are written, with the consumption per 100 km where the distance is positive, in every other case the old values stay; the confidence label follows the summary and is empty for electric vehicles |
| `TripBackfill.FourClasses` | backend/scripts/backfill-lte-r1-events-fuel.ts:185-210 | every mapped event falls into one of the four counted classes |
| `TripBackfill.RerunChangesNothing` | backend/scripts/backfill-lte-r1-events-fuel.ts:509-574 | a re-run with the same input changes only row ids and the enrichment time |
| `TripBackfill.RunBackfillsEveryTrip` | backend/scripts/backfill-lte-r1-events-fuel.ts:442-577 | after a run over distinct stored trips each of them shows exactly its mapped events, matching counters and its fuel values, and all other trips and their telemetry are untouched |
| `SeedUpsert.NormalizeModelIsIdempotent` | backend/scripts/seed-hm-compatibility.ts:38-44 | normalising twice is normalising once, and only letters, digits and hyphens remain |
| `SeedUpsert.WordsAreHyphenated` | backend/scripts/seed-hm-compatibility.ts:38-44 | two words with any white space between them are joined by one hyphen |
| `SeedUpsert.WordIsSpelledOut` | backend/scripts/seed-hm-compatibility.ts:38-44 | of a word lower-case letters, digits and hyphens stay, upper-case letters are lowered, everything else goes |
| `SeedUpsert.OuterSpaceIsIgnored` | backend/scripts/seed-hm-compatibility.ts:38-44 | white space around a name makes no difference |
| `SeedUpsert.CompatibilityStore.UpsertOne` | backend/scripts/seed-hm-compatibility.ts:849-907 | one record updated in place or created, its signal rows replaced |
| `SeedUpsert.CompatibilityStore.RunSeed` | backend/scripts/seed-hm-compatibility.ts:838-913 | the loop runs all upserts; inserted + updated is the list length, inserted is the growth of the table, and the signal counter is the number of seeded signals |
| `SeedUpsert.RunEstablishesSeeds` | backend/scripts/seed-hm-compatibility.ts:845-908 | keys stay unique; each seeded key ends with its last seed's data and signals in display order, every other record is unchanged |
| `SeedUpsert.SecondRunChangesNothing` | backend/scripts/seed-hm-compatibility.ts:845-908 | a second run inserts nothing and leaves all records, ids included, and all their signals as they were |
| `PlatformState.PlatformStore.HandleAddOrg` | frontend/figma-master/App.tsx:39-42 | new organisation in front; consistent iff the call is allowed |
| `PlatformState.PlatformStore.HandleUpdateOrg` | frontend/figma-master/App.tsx:43-47 | organisation replaced; consistent iff its counters are kept |
| `PlatformState.PlatformStore.HandleDeleteOrg` | frontend/figma-master/App.tsx:48-54 | organisation, its users and vehicles removed; always consistent |
| `PlatformState.PlatformStore.HandleAddUser` | frontend/figma-master/App.tsx:57-61 | user added and counted; consistent iff the id is fresh and the organisation exists |
| `PlatformState.PlatformStore.HandleUpdateUser` | frontend/figma-master/App.tsx:62-65 | user replaced, counters untouched; consistent iff the organisation stays the same |
| `PlatformState.PlatformStore.HandleDeleteUser` | frontend/figma-master/App.tsx:66-73 | user removed and uncounted; always consistent |
| `PlatformState.PlatformStore.HandleRegisterVehicle` | frontend/figma-master/App.tsx:76-82 | vehicle moved into the registered list and counted; consistent iff the id is fresh and the organisation exists |
| `PlatformState.StepChanges` | frontend/figma-master/App.tsx:39-82 | from any state a call adds, replaces or removes exactly the rows it names and moves exactly the counters of their organisation by one |
| `PlatformState.StepConsistentIff` | frontend/figma-master/App.tsx:39-82 | unique ids, valid references and exact counters survive a handler iff the call is allowed |
| `PlatformState.RunConsistentIff` | frontend/figma-master/App.tsx:39-82 | a run stays consistent throughout iff every call of it is allowed |
| `PlatformState.MovingUserBreaksCounts` | frontend/figma-master/App.tsx:62-65 | moving a user to another organisation makes exactly the counters of the old and the new organisation wrong |
| `PlatformState.ClampNeverFires` | frontend/figma-master/App.tsx:70 | deleting a stored user always lowers its organisation's counter by one, so the clamp at 0 is never used |
| `PlatformState.RegistrationConservesIff` | frontend/figma-master/App.tsx:76-82 | registered plus unregistered vehicles are conserved iff exactly one unregistered row carries the DIMO id |
| `OrganizationAlias.AliasParsesBack` | scripts/audits/audit-effective-access.ts:242-252 | parsing the zero-padded alias of any position gives its ordinal |
| `OrganizationAlias.AliasesAreInjective` | scripts/audits/audit-effective-access.ts:252 | different positions have different aliases |
| `OrganizationAlias.AliasShape` | scripts/audits/audit-effective-access.ts:252 | aliases are ORG_ and at least three digits, exactly three up to 999 and unpadded from 1000 on |
| `OrganizationAlias.TargetsAre` | scripts/audits/audit-effective-access.ts:240-260 | no filter audits all, a filter that is not ORG_ and digits is malformed, a number that is no ordinal is out of range, any other selects the organisation it numbers |
| `OrganizationAlias.AliasSelectsItsOrganization` | scripts/audits/audit-effective-access.ts:240-260 | filtering by an organisation's alias targets exactly it |
| `OrganizationAlias.Coverage` | scripts/audits/audit-effective-access.ts:254-292 | the loop emits one alias per target, in order, and each alias selects its target; bad filters are reported |
| `StatusBackfill.InferenceIs` | backend/src/modules/vehicle-intelligence/trips/trip-analysis-status.ts:547-564 | the inferred status of a completed trip without one follows from its legacy behaviour status, each in both directions |
| `StatusBackfill.InferenceOfOthers` | backend/src/modules/vehicle-intelligence/trips/trip-analysis-status.ts:547-556 | a stored status stays, and an unfinished trip without one gets none |
| `StatusBackfill.QueueIsOrdered` | backend/scripts/backfill-trip-analysis-status.ts:42-61 | the queue holds exactly the completed trips without a status of the organisation, missing ends first, then the latest end first, ties in table order; a pass takes its first `--limit` trips |
| `StatusBackfill.TripTable.RunPass` | backend/scripts/backfill-trip-analysis-status.ts:42-111 | an apply pass writes what the pass function says, a dry run nothing; the counters are the numbers of selected trips that can be inferred and of those among them whose impact status is due |
| `StatusBackfill.PassClosesInferable` | backend/scripts/backfill-trip-analysis-status.ts:42-99 | a pass writes exactly the selected trips that can be inferred, with their inferred status and, where due, their impact fields; every other row and field stays, and the number of open trips falls by exactly the rows written |
| `StatusBackfill.PassesStall` | backend/scripts/backfill-trip-analysis-status.ts:42-99 | after as many passes as open trips nothing selected can be inferred and no later pass changes anything |
| `StatusBackfill.PassesLeaveLeftover` | backend/scripts/backfill-trip-analysis-status.ts:57-99 | what enough passes leave in the queue, and in which order, is a function of the initial queue and the limit alone |
| `StatusBackfill.TripIsClosedIff` | backend/scripts/backfill-trip-analysis-status.ts:57-66 | an open trip that can be inferred is closed by enough passes iff fewer than the limit of trips that cannot be inferred stand before it in the initial queue |
| `StatusBackfill.PassesCompleteIff` | backend/scripts/backfill-trip-analysis-status.ts:57-66 | enough passes leave no open trip that can be inferred iff that holds of every one of them in the initial queue |
| `StatusBackfill.UnknownStatusBlocksOlderTrips` | backend/scripts/backfill-trip-analysis-status.ts:57-66 | a page of newer trips with an unknown behaviour status, of any size, blocks an older trip that could be inferred for good |

## Left out

- NormalizeEventName: Unicode case folding and white space are reduced to ASCII.
- WordIsSpelledOut: lower-casing and white space cover ASCII only.
- ComputeFuelSummary: floating-point rounding, NaN and invalid timestamp strings are not modelled; levels are reals and timestamps integers.
- PercentilesMonotone: floating-point error in p / 100 * n is not modelled, and p is at least 0 (a negative p indexes outside the array).
- DedupeNativeEvents: the string labels of normalised types are a datatype; `native:<type>` is one constructor over the raw type.
- SameSecondDuplicateGroups: a second is the integer number of seconds, not its ISO text.
- RunPass: a negative `--limit` and equal end times in the database's own order are not modelled; the sort is stable on the stored order, with null end times first.
- Coverage: the per-organisation SQL counts are foreign input; only the alias column is modelled.
- HandleUpload: the multipart body and the clock are parameters, so a missing version label and an equal millisecond are inputs.
- HandleDelivery: a missing request id is replaced by a clock-derived one before the call, as a parameter.
- StepConsistentIff: calls act one after another on the current state; two React handlers sharing one render's stale closure are not modelled.
- Document ids shown by seeded list rows differ from the panels, so agreement of document ids is stated only after a generated document.
- Delivery history across PDF generation: the completing poll overwrites it, so nothing is claimed about keeping it.
- Document fields that no request changes or reads (title, file, size, checksum, snapshot count, uploader) and constant fields of delivery evidence.
- `featuresFromFixture` and `categorizeDelta` of the RPM tier comparison: field-by-field or single-branch facts.
- The seeded demo collections of the master console: the results hold for any consistent start.
- The brand normalisation of the seed script is an uninterpreted function.
- The usage, settings, list-filter and booking endpoints of the document server, and list search of the invoice server: read-only projections.
- Prisma transactions' isolation, SQL, HTTP routing, GraphQL, tokens, React rendering and toasts: foreign to the modelled logic.
- Fixture servers other than the two modelled, migration scripts and configuration: constant payloads or wiring that would only add easy members.
