# Samhain POS: a verified model of the journal, its delivery and its texts

Samhain POS is an offline-first cash register. This project models the parts of it whose
correctness is a property of whole runs, and proves those properties:

- **The sales journal.** Sales, corrections, session openings, float updates and closures are
  appended to a hash-chained journal by the web repository, by a native twin and, one event at a
  time, judged again by the server; an auditor replays the whole store. `Ledger`, `Closures`,
  `CashSessions`, `Refunds`, `Checkout`, `Journal` and `Repository` are the writers, `Services` and
  `Calls` what calls them and what that comes to, `Auditor` the replay, `NativeStore` and `NativeRuns` the twin, `Server` the server's
  judgement.
- **The outbox.** Rows copy journal entries and are claimed, cut to size, sent, acknowledged,
  released, recovered and moved between destinations (`OutboxRows`, `Outbox`, `Acks`,
  `OutboxStore`, `Recovery`, `SyncEngine`, `Workers`), against a server that may answer anything;
  `Claims` says what a claim takes and frees, `Outage` what a failure costs. `Envelope`,
  `ServerStore` and `Persisted` are what the real server checks and stores, `Convergence` follows
  whole sequences of rounds, and `Delivery` and `EndToEnd` join the two ends.
- **Canonical JSON.** The printer, its second escaping profile and the strict parser of the
  server (`Json`, `JsonParser`, `JsonGrammar`, `JsonRoundTrip`, `JsonCanonical`, `JsonCursor`,
  `JsonNumbers`), in the sense of sections 2 to 7 of RFC 8259.
- **Crash-safe procedures.** Archive export and restoration (`Archive`), writing on from a restored
  archive (`Continuation`), replacement of a tablet (`Replacement`), print tracking over a partial
  USB transfer (`Printing`, `UsbJob`).
- **Tax.** Included tax by line (`Vat`) and the breakdown of a closure by rate (`ClosureVat`).

How it is built:

- A run of the writers is a journal whose every entry was accepted over the entries before it
  (`Journal.WellFormed`). A statement about every well-formed journal is a statement about every run;
  the class `Repository.OrderRepository` is proved to produce nothing else.
- Loops and objects of the code are loops and classes here, each proved against a specification
  function or predicate; the laws of the system are lemmas about those.
- Dates are integers in one total order. Cents are unbounded integers with every safe-integer guard
  written out; the native store's 64-bit sums wrap explicitly. A digest carries the content it was
  computed from, which is what an injective hash amounts to. Identifiers, clocks, the network and
  the server's replies are parameters.
- Automatic induction is switched off in every lemma, so each induction is written down.

Where the code does something its reader may not expect, the model keeps the code and states the
exact condition:

- `Convergence.RoundsReachExactly`: after a recovery the worker sends everything again from the first
  entry, and reaches the end if and only if one of its rounds starts exactly at the server's head;
  otherwise the server never stores another entry. With batches of one shape that is if and only if
  the head falls between two batches (`Convergence.RecoveryReachesExactly`). `EndToEnd.Live` is the
  engine itself, its rows and its server in those rounds.
  docs/architecture-mongodb-offline-first.md:219 describes the replay as reaching the suffix in every
  case; `Convergence.LostAcknowledgementBlocks` is the smallest case where it does not.
- `Workers.RequeueUnderAClaim`: requeuing the proven prefix while another worker holds a claim, and
  then confirming that claim, keeps the delivered rows a prefix if and only if the claim holds legacy
  sales or starts at the first entry; `Workers.TwoWorkersBreakThePrefix` is a run that breaks it.
  The store's transactions do not exclude it. What does is outside them: sending is enqueued as unique
  work per chain (native/android/OutboxWorker.kt:34-37), so two workers of one chain arise only if a
  second one is started by other means, or outlives its cancellation.
- `SyncEngine.SentRequestPassesExactly`: a sale older than the journal that names no terminal is
  refused by the envelope check for what it says. `Delivery.OldSaleIsRefused` is such a sale, one the
  writers' legacy checks admit, and `Delivery.RefusedForGood` says that nothing is claimed behind it
  while it stays refused.
- `Checkout.ConfirmedStuckForever`: once a closure ends after the confirmation date of an unsold
  intent, that intent can neither be finalized nor abandoned; `Repository.CloseBeforeFinalizing`
  reaches one by the calls of one day.
- `Replacement.RunToTheEnd`: an archive whose terminal name is longer than 40 characters passes the
  checks made before the restoration and fails the one made after it, which leaves the journal on a
  tablet without identity; `Replacement.MoveUnderLongName` does it to any reachable store.
- `Archive.MatchesExactly`: restoreArchive counts orders and ledger entries only; over a left-over
  technical record it succeeds, and the stores then do not match the archive.
- `Repository.ClosureRetryExactly`: retrying an accepted closure request is refused when the request
  carried a float without a session, or an empty session id.
- `CashSessions.NativeAgreesExactly`: the native fold disagrees exactly when a closure follows the
  opening of a session whose id is empty, which the web repository does not refuse
  (`Repository.BlankSessionDisagrees` is such a run) and its services never ask for.
- `Server.ClientAndServerAgree`: the server refuses a closure the client recorded exactly when one of
  its running sums leaves the safe range, and reads texts the client does not read.
- `Refunds.CanCancelExactly` and `Refunds.CanRefundExactly`: the summary offers a cancellation of a
  sale whose total is zero and a refund when only free items remain; the guard refuses both.

## Model

| member | source | states |
|---|---|---|
| Vat.IncludedVatIsNearest | src/utils/vat.ts:18-20 | the included tax is the cent nearest to gross times rate over 100 plus rate, the upper one on a tie |
| Vat.IncludedVatStep | src/utils/vat.ts:18-20 | a larger gross adds at least nothing and at most the added gross to the tax |
| Vat.IncludedVatBounds | src/utils/vat.ts:18-20 | the tax of nothing is nothing, and a tax lies between zero and its gross |
| Ledger.EntryIdInjective | src/services/orderRepository.ts:821-1454 | equal entry ids mean one kind and one operation key, whatever the keys contain |
| Closures.CalculateClosureTotals | src/services/orderRepository.ts:339-387 | the accumulator loop computes the seven column sums of the period |
| Closures.TotalsOrderIndependent | src/services/orderRepository.ts:339-387 | rearranging the entries leaves every total as it was, so writer (by key) and auditor (by sequence) agree |
| Closures.PaymentsAddUpToNet | src/services/orderRepository.ts:339-387 | cash plus card is the net total, and that is the sum of the amounts dated in the period |
| Closures.PaymentsStep | src/services/orderRepository.ts:339-387 | a sale or a correction of the period changes the column of its payment method by its amount, and no other |
| Closures.CumulativeSplits | src/services/orderRepository.ts:339-387 | the cumulative total is everything dated before the period plus the period's net |
| Closures.LaterEntriesDoNotCount | src/services/orderRepository.ts:339-387 | entries dated at or after the end change no total of the period |
| CashSessions.GetActiveCashSession | src/services/orderRepository.ts:306-337 | the list built forwards and searched backwards is the session specification |
| CashSessions.ListAgreesWithAuditor | src/services/orderRepository.ts:306-505 | on every disciplined journal the session list and the auditor's fold name the same session, period, terminal and current float |
| CashSessions.AuditorAgreesWithServer | server/src/ledger/business.ts:319-342 | latest opened, closed by reference and latest update give the session the auditor's fold gives |
| CashSessions.NativeAgreesExactly | native/android/RoomOrderStore.kt:1117-1148 | the native fold agrees if and only if no closure follows the opening of a session with an empty id |
| Refunds.CalculateCartTotals | src/utils/cartTotals.ts:14-47 | the loop returns the exact sums, or refuses exactly when the persisted count or the safe range is passed |
| Refunds.DeriveRefunded | src/services/saleRefund.ts:69-102 | the map holds for every line the quantity refunded by all corrections, and the flag tells an amount-only refund |
| Refunds.ValidateStructuredRefund | src/services/saleRefund.ts:104-139 | a total is returned exactly for distinct, canonical lines that fit what remains, and it is the sum of their gross |
| Refunds.RefundsConserved | src/services/saleRefund.ts:22-67 | over every accepted history a line's refunded quantity stays within what was sold, and the taxes refunded on it telescope to the rounded tax of that quantity |
| Refunds.RefundLineTaxBounded | src/services/saleRefund.ts:43-64 | the tax of one refund line lies between zero and its gross |
| Refunds.RefundedTaxBounded | src/services/saleRefund.ts:43-64 | the tax refunded on a line never exceeds the tax of the whole line |
| Refunds.RefundedAmountByItem | src/services/orderRepository.ts:1702-1723 | the amount refunded so far is the value of the quantities refunded so far |
| Refunds.LineBoundImpliesTotalBound | src/services/orderRepository.ts:1702-1723 | the per-line bound already implies the bound on the order total |
| Refunds.RefundedAmountBounded | src/services/orderRepository.ts:1702-1723 | refunds never exceed the total of the sale |
| Refunds.CancellationStandsAlone | src/services/orderRepository.ts:1702-1723 | a cancelled sale has exactly one correction |
| Refunds.RemainingIsValueOfQuantities | src/services/saleCorrectionSummary.ts:25-64 | without a cancellation the remaining refundable amount is the sum of remaining quantity times unit price |
| Refunds.SummaryMeans | src/services/saleCorrectionSummary.ts:25-64 | cancelled exactly when a cancellation is among the corrections, and then nothing remains; refunded when the refunds reach the total, partially when they do not |
| Refunds.CanCancelExactly | src/services/saleCorrectionSummary.ts:25-64 | a cancellation is acceptable if and only if the summary announces it and the total is not zero |
| Refunds.CanRefundExactly | src/services/saleCorrectionSummary.ts:25-64 | a refund is acceptable if and only if the summary announces it and a priced item remains |
| Journal.HeadDeterminesJournal | src/services/orderRepository.ts:217-229 | two chains with one head digest are one journal |
| Journal.WellFormedIsChained | src/services/orderRepository.ts:693-1512 | every run of the writers is a sealed chain |
| Journal.LaterEntriesAreLater | src/services/orderRepository.ts:814-1326 | nothing recorded after a closure is dated before its end |
| Journal.ClosureIsFinal | src/services/orderRepository.ts:1402-1489 | recomputing a recorded closure over any later journal gives its recorded totals |
| Journal.ClosuresTile | src/services/orderRepository.ts:1426-1489 | consecutive closures share their boundary and each cumulative total is the previous one plus the closure's own net |
| Journal.FirstClosureCumulates | src/services/orderRepository.ts:1402-1489 | a closure's cumulative total is everything dated before its start plus its net, which is gross plus corrections and cash plus card |
| Journal.CountedOnce | src/services/orderRepository.ts:339-387 | no financial entry is counted by two closures |
| Journal.SomeClosureCounts | src/services/orderRepository.ts:1426-1489 | an entry dated between the start of one closure and the end of a later one is counted by one of them |
| Journal.WritersKeepSessionDiscipline | src/services/orderRepository.ts:1062-1512 | every run of the writers keeps the session discipline |
| Journal.ActiveSessionForms | src/services/orderRepository.ts:306-505 | on every run the list, the auditor and the server agree on the active session, and the native fold under its exact condition |
| Journal.SaleIsUnique | src/services/orderRepository.ts:892-987 | an order id is sold once, never one of a legacy order, and lookup finds that sale |
| Journal.StoredOrderIsStable | src/services/orderRepository.ts:892-987 | no later entry changes a stored order |
| Journal.CorrectionsFormHistory | src/services/orderRepository.ts:1681-1724 | on every run the corrections of an order are a history the guard accepted step by step |
| Journal.RefundsOfASaleConserved | src/services/orderRepository.ts:1681-1724 | on every run the refunds of a sale stay within it by line in quantity, by line in tax, and in total |
| Server.CheckItems | server/src/ledger/business.ts:57-123 | the item loop with its seen set and checked sums accepts exactly the payload items and returns their sums |
| Server.ValidateOrder | server/src/ledger/business.ts:22-126 | an order payload is accepted exactly when its texts, items, running sums and totals are right |
| Server.StreamTotals | server/src/ledger/business.ts:368-400 | streamed closure totals are the closure specification, or a refusal exactly when a checked addition overflows |
| Server.GatherPrior | server/src/ledger/business.ts:445-465 | the prior-correction loop refuses exactly on a cancellation or an overflow and otherwise returns refunded amount and quantities |
| Server.CheckLines | server/src/ledger/business.ts:472-501 | the line loop returns the sum of the gross exactly when every line is the expected one |
| Server.ValidateCorrection | server/src/ledger/business.ts:417-503 | the whole correction check as one condition on order, prior corrections and correction |
| Server.ValidateBusiness | server/src/ledger/business.ts:304-415 | the whole business check over a stored prefix as one condition per kind |
| Server.OrdersAgree | server/src/ledger/business.ts:22-126 | an order is valid for the client exactly when its payload is valid for the server |
| Server.LineAgrees | server/src/ledger/business.ts:473-499 | the client's canonical refund line is exactly the line the server expects, rounding included |
| Server.HistorySumsSafe | server/src/ledger/business.ts:445-465 | on an accepted history no checked addition of the correction loop overflows |
| Server.CorrectionsAgree | server/src/ledger/business.ts:417-503 | writer's guard and server's check accept the same corrections |
| Server.ActiveFloatIsAmount | src/services/orderRepository.ts:1062-1270 | on every run the current float of the active session is a valid cash amount |
| Server.ClosuresAgree | server/src/ledger/business.ts:365-413 | the closure guard and the closure check accept the same closures, up to safe running sums and texts |
| Server.ClientAndServerAgree | server/src/ledger/business.ts:304-503 | on every prefix a run can reach, writers and server accept the same next entry, up to two explicit lists of one-sided conditions |
| Server.ServerReplaysEveryRun | server/src/ledger/business.ts:304-503 | replayed in order, every service-shaped run passes every step of the server |
| Services.ServicesShapeRuns | src/services/salesLedgerService.ts:44-170 | whatever the calls of the services, on whatever tills, every entry of the journal has the texts and terminals the server asks for |
| Services.ServerReplaysServices | server/src/ledger/business.ts:304-503 | replayed in order, a journal the services wrote passes every step of the server, if only the sums of its closures stay in the safe range |
| Services.BuiltRefundAcceptedExactly | src/services/saleRefund.ts:22-67 | a refund the service builds is accepted if and only if the sale is not cancelled, each selected quantity is still there and its amount is not zero |
| Calls.CallsRecord | src/services/salesLedgerService.ts:44-170 | a call of a service records nothing or one entry, and that is the one it asks for: stamped with its id, date and till, with the items, amounts, lines, session and texts of the call |
| Calls.CallsRecordExactly | src/services/salesLedgerService.ts:44-170 | every call but a refund, of which BuiltRefundAcceptedExactly speaks, records its entry if and only if nothing of a given list stands against it |
| Calls.CallsMoveIntents | src/services/checkoutService.ts:38-101 | a call adds the intent it describes exactly when its texts, items and sums are right and its id is new, moves one intent to its next state exactly when there is such a transition, or leaves the intents alone |
| NativeStore.CountItems | native/android/RoomOrderStore.kt:1260-1282 | the native item loop with safeMultiply and safeAdd returns the exact sums or refuses exactly when one leaves the safe range |
| NativeStore.ValidateNewOrder | native/android/RoomOrderStore.kt:1235-1295 | the native checks of a sale accept exactly what the web repository calls a valid order |
| NativeStore.NativeClosureTotals | native/android/RoomOrderStore.kt:1024-1072 | the loop on Int and Long yields the exact totals wrapped once |
| NativeStore.NativeTotalsAgreeExactly | native/android/RoomOrderStore.kt:1024-1072 | native and web totals are equal if and only if the final totals fit the machine integers, whatever overflowed on the way |
| NativeStore.ValidateRefundLines | native/android/RoomOrderStore.kt:959-1022 | the native line loop accepts exactly the refund lines the web code accepts, with the same total, and never overflows a Long |
| NativeStore.ValidateCorrection | native/android/RoomOrderStore.kt:913-957 | the native correction guard accepts exactly what the web guard accepts |
| NativeStore.AlreadyRefunded | native/android/RoomOrderStore.kt:949-956 | the Long sum of earlier refunds is exact on every accepted history |
| NativeStore.ActiveCashSession | native/android/RoomOrderStore.kt:1117-1148 | the native loop computes the native fold |
| NativeStore.SessionEntriesAgree | native/android/RoomOrderStore.kt:421-521 | both writers open sessions and change floats alike, up to the texts each checks |
| NativeStore.ClosuresAgree | native/android/RoomOrderStore.kt:523-591 | both writers accept the same closures up to two explicit lists, and record the same closure when its totals fit |
| NativeRuns.EntriesAgree | native/android/RoomOrderStore.kt:374-591 | on one run both writers accept the same next entry of every kind, up to the texts each reads, if the totals fit |
| NativeRuns.NativeRunsAreRuns | native/android/RoomOrderStore.kt:374-707 | the runs of the native writers are the runs of the web writers, exactly, for entries both sides read and totals that fit |
| NativeRuns.NativeRunsAudit | native/android/RoomOrderStore.kt:374-707 | so what a native store holds passes the audit, in whatever order it is read |
| Numbers.SequenceNumberInjective | src/services/orderRepository.ts:74-84 | a printed number names its prefix and its sequence, also past the four-digit padding |
| Numbers.SequenceNumberReads | src/services/orderRepository.ts:74-84 | a number is its prefix, a dash and at least four digits that read as the sequence |
| Ordering.SortBySequence | src/services/orderRepository.ts:389-392 | sorting returns a rearrangement in sequence order |
| Ordering.SortRestoresJournal | src/services/orderRepository.ts:389-409 | sorting any rearrangement of a journal gives the journal back |
| Ordering.CorrectionRuleOrderIndependent | src/services/orderRepository.ts:1681-1724 | the correction guard does not depend on the order in which the store returns earlier corrections |
| Checkout.TransitionsKeepValid | src/services/orderRepository.ts:652-691 | every transition of a valid intent gives a valid intent |
| Checkout.TransitionsAdvance | src/services/orderRepository.ts:652-691 | no transition leaves finalized or abandoned, and the first confirmation and abandonment dates are kept |
| Checkout.TransitionsExactly | src/services/orderRepository.ts:652-691 | each transition is possible exactly from the states it has and sets its state, the date and its first date, nothing else; finalizing sets state, sale and date |
| Checkout.EvolvesIsTransitive | src/services/orderRepository.ts:652-691 | so that holds over whole runs of the intent store |
| Checkout.ConfirmedStuckForever | src/services/orderRepository.ts:679-818 | once a closure ends after the confirmation date of an unsold intent, it stays confirmed in every later state |
| Repository.ClosureRetryExactly | src/services/orderRepository.ts:250-258 | a repeated closure request matches its own entry if and only if it carries session and float together, or neither |
| Repository.NumbersAreUnique | src/services/orderRepository.ts:74-84 | no two sales share an order number or a receipt number |
| Repository.ValidateCorrection | src/services/orderRepository.ts:1681-1724 | the guard as the code runs it over unsorted entries is the correction rule |
| Repository.OrderRepository.ReadSorted | src/services/orderRepository.ts:306-337 | reading the store and sorting gives the journal |
| Repository.OrderRepository.Append | src/services/orderRepository.ts:227-229 | one accepted entry is appended, metadata follow, and the invariant is kept |
| Repository.OrderRepository.CreateOrder | src/services/orderRepository.ts:892-987 | a sale is recorded exactly when its guard holds: one chained entry of the given terminal and date, whose order keeps every field of the request and carries the next two numbers under the request's own prefixes, stored with a reference to the entry; otherwise nothing changes |
| Repository.OrderRepository.OpenCashSession | src/services/orderRepository.ts:1062-1167 | the same request is found again, a fresh one is appended exactly when its guard holds, anything else changes nothing |
| Repository.OrderRepository.UpdateCashFloat | src/services/orderRepository.ts:1169-1270 | likewise for a float update |
| Repository.OrderRepository.RecordCorrection | src/services/orderRepository.ts:1272-1387 | likewise for a correction, refused when the sale is unknown |
| Repository.OrderRepository.ClosePeriod | src/services/orderRepository.ts:1389-1512 | likewise for a closure, whose totals are those of the journal |
| Repository.OrderRepository.CreateCheckoutIntent | src/services/orderRepository.ts:595-620 | a valid pending intent with a new id is stored, anything else is refused |
| Repository.OrderRepository.Transition | src/services/orderRepository.ts:1632-1679 | a transition replaces the one intent or changes nothing |
| Repository.OrderRepository.FinalizeCheckoutIntent | src/services/orderRepository.ts:693-890 | finalizing again returns the same sale and changes nothing; the first time records one chained entry whose order keeps every field of the intent, paid at its confirmation, with the next two numbers under the intent's own prefixes, and finalizes the intent; a refusal changes nothing |
| Repository.OneSalePerFinalizedIntent | src/services/orderRepository.ts:693-890 | in every reachable store a sale exists exactly for finalized intents, and only one entry carries it |
| Repository.CloseBeforeFinalizing | src/services/orderRepository.ts:679-818 | for every opening, payment and later period end: a session is opened, an intent paid, the session closed as the service closes it, and the paid intent is then refused both finalization and abandonment |
| Repository.BlankSessionDisagrees | native/android/RoomOrderStore.kt:1117-1148 | a run the web repository accepts, with an empty session id and a closure, after which the native store sees no session and the auditor one |
| Auditor.AuditLinks | src/services/orderRepository.ts:392-409 | the link loop checks sequence, previous hash and own hash of every entry |
| Auditor.AuditEntries | src/services/orderRepository.ts:411-506 | the second loop with its accumulators decides every entry against the entries before it |
| Auditor.VerifyAuditSnapshot | src/services/orderRepository.ts:389-565 | valid if and only if the sorted entries satisfy the audit; complete if moreover every order is sealed |
| Auditor.WritersSatisfyAuditor | src/services/orderRepository.ts:389-565 | whatever the run and whatever order the stores are read in, the audit is valid |
| Auditor.HeadPinsStore | src/services/orderRepository.ts:389-565 | two stores that pass the audit with one head digest hold the same entries, metadata and sealed orders |
| Printing.UpdateSelected | src/services/orderService.ts:152-216 | the update loop rewrites exactly the selected documents that are still open |
| Printing.PrintingRuns | src/services/orderService.ts:152-226 | over any run the stored status is the derived one, printed is absorbing, and a document becomes printed only when reported completed |
| Printing.StatusMeans | src/printing/orderPrinting.ts:39-53 | what each derived status says about the three documents, both ways |
| Printing.UpdateMeans | src/services/orderService.ts:152-217 | what begin, complete and fail make of each document: unknown, printed when completed, unknown when it may have been printed, failed otherwise, all others as they were |
| Printing.BeginLeavesNothingRetryable | src/services/orderService.ts:152-171 | once printing began no selected document would be printed again after a crash |
| UsbJob.WriteUsbBuffer | native/android/UsbBulkWriter.kt:25-82 | the transfer ends; confirmed chunks join to the prefix reported; COMPLETE means all of it, NO_BYTES_SENT means offset zero; the failure blames what happened |
| UsbJob.PrintJob | native/android/EpsonUsbPrinterPlugin.kt:453-601 | the step loop with its early exits computes the job accounting, for every wire |
| UsbJob.JobAccounting | native/android/EpsonUsbPrinterPlugin.kt:453-601 | neither completed nor unknown means no confirmed byte, completed means all bytes of a step, unknown means some bytes of a failed job |
| UsbJob.RetryableMeansNothingSent | src/services/orderService.ts:152-216 | begin, job, fail: a document offered for another print never had a byte confirmed |
| OutboxRows.QueryOutstanding | native/android/OutboxEntry.kt:65-66 | the query returns the first unsynced rows, rows without a sequence first |
| OutboxRows.QueryPage | native/android/OutboxEntry.kt:56-57 | the page query returns the next ids in text order and skips none |
| OutboxRows.TextBeforeExactly | native/android/OutboxEntry.kt:45-66 | text order is a proper prefix first, or the smaller code where two texts first differ |
| Outbox.OutstandingIsBlock | native/android/OutboxStore.kt:103-131 | under a delivered prefix the first outstanding ledger rows are the contiguous block right after it, with every legacy sale delivered |
| Acks.IndexAcks | native/android/SyncProtocol.kt:92-110 | the index loop refuses exactly on a repeated id or a malformed acknowledgement |
| Acks.ValidateAck | native/android/SyncProtocol.kt:92-125 | a reply is accepted if and only if context, commitment, head, count, distinctness and every answer are right |
| Acks.RepliesAreOneToOne | native/android/SyncProtocol.kt:92-125 | every acknowledgement of an accepted reply answers exactly one sent event |
| OutboxStore.Store.Record | native/android/OutboxStore.kt:51-72 | an entry and its pending row are stored together or not at all, and the protocol invariant is kept |
| OutboxStore.Store.Claim | native/android/OutboxStore.kt:103-131 | refused exactly for a foreign chain or a row of another scope; otherwise one claim with the effect ClaimIsRight describes |
| Claims.ClaimIsRight | native/android/OutboxStore.kt:103-131 | of any claim: none behind a stopped row, else the longest due start of the first hundred outstanding rows, of one kind and within the limit, leased for two minutes under the scope; every other row is freed, resumed or set right exactly when its lease is over, it waited for a session, or its clock was ahead |
| Claims.NothingLingers | native/android/OutboxEntry.kt:67-80 | after a claim no lease is over and no row waits for a session, and a row another worker is still sending is untouched unless its clock was ahead |
| Claims.CrashFreesRows | native/android/OutboxStore.kt:103-131 | a worker claims rows and dies: a claim two minutes later or more takes those rows first, an earlier one takes nothing |
| Claims.TakenAgain | native/android/OutboxStore.kt:103-131 | rows of an earlier claim that are due again, nothing being stopped, are the first rows of the next claim |
| Claims.RefusedForForeign | native/android/OutboxStore.kt:103-131 | a claim is refused exactly when nothing is stopped and a row it would take carries the evidence of another scope |
| OutboxStore.Store.Renew | native/android/OutboxStore.kt:133-139 | every held lease is pushed back, or nothing changes |
| OutboxStore.Store.MarkAttempt | native/android/OutboxStore.kt:141-149 | one more attempt on every held row |
| OutboxStore.Store.Acknowledge | native/android/OutboxStore.kt:151-168 | accepted exactly for a good reply to a claim still held: every held row then gets its receipt and becomes synced, else nothing changes; the delivered rows stay a prefix, stored receipts and other destinations stay as they were |
| OutboxStore.Store.Release | native/android/OutboxStore.kt:170-177 | the released rows get the status and its reason, the rest stays claimed |
| OutboxStore.Store.Crash | native/android/OutboxEntry.kt:75-76 | a worker that dies leaves the invariant standing; only lease expiry frees its rows |
| OutboxStore.Store.BackfillBatch | native/android/OutboxStore.kt:75-96 | also while a claim is held: a batch takes exactly 100 of the records left, or takes them all and reports completeness, and then every source record has its row; refused, with nothing changed, only when a legacy order and an entry share an id |
| OutboxStore.Store.RewindAndBackfill | native/android/OutboxStore.kt:75-96 | repeated batches end with a complete outbox and change no row that was there, exactly when no legacy order and entry share an id |
| OutboxStore.Store.SelectDestination | native/android/OutboxStore.kt:16-43 | refused exactly while a row is still being sent; otherwise every row is saved and switched exactly once, and a claim whose lease ran out is dropped, so that its reply is refused |
| OutboxStore.Store.BindPage | native/android/OutboxStore.kt:223-233 | a page gets its fingerprints, or nothing changes |
| OutboxStore.Store.ReduceBatch | native/android/OutboxStore.kt:235-243 | half the limit, one at least, exactly when it was above one, and exactly the rows refused for size are tried again |
| OutboxStore.Store.BlockChain | native/android/OutboxStore.kt:245-248 | exactly the first outstanding row gets the blocking status, unless it is being sent, and nothing else changes |
| OutboxStore.Store.RequeueProvenPrefix | native/android/OutboxStore.kt:250-255 | every delivered ledger row is pending again and keeps its receipt |
| OutboxStore.AcknowledgedPrefix | native/android/OutboxStore.kt:151-168 | confirming the block right after the prefix makes a longer prefix |
| OutboxStore.TakenIsClaim | native/android/OutboxStore.kt:103-131 | what claim took is held, contiguous and right after the prefix |
| OutboxStore.SwitchKeeps | native/android/OutboxStore.kt:16-43 | a switch keeps the invariant: what the target had received is a prefix too |
| OutboxStore.SwitchRoundTrip | native/android/OutboxDestination.kt:26-59 | restored evidence is the evidence saved, an expired claim excepted |
| SyncEngine.Select | native/android/SyncEngine.kt:55-67 | the longest prefix of the claim that fits the payload and body limits |
| SyncEngine.BatchIsRight | native/android/SyncEngine.kt:47-72 | a request built from a claim is the contiguous block after the delivered prefix and expects the entry before it as head |
| SyncEngine.PrepareBatch | native/android/SyncEngine.kt:43-72 | a request is the longest sendable part of the claim; when there is none, nothing could be sent |
| Recovery.CheckResults | native/android/SyncEngine.kt:130-144 | a recovery page passes if and only if every row is confirmed once and nothing else is answered, and a conflict is told if and only if one is reported |
| Recovery.Recover | native/android/SyncEngine.kt:107-150 | recovery succeeds exactly when the ledger is not empty, capture is possible, every page can be bound and every page is confirmed; only then are delivered rows requeued, and in no other case does a row stop being synced |
| Recovery.ShowPages | native/android/SyncEngine.kt:107-150 | the page loop passes exactly when every row of every page is ready and the answer to every page covers it |
| Recovery.ConfirmedOnce | native/android/SyncEngine.kt:130-144 | when all pages pass, each ledger entry is confirmed by exactly one result of the page it lies in |
| SyncEngine.SettleReply | native/android/SyncEngine.kt:72-104 | the held rows become synced if and only if the reply is good and the claim still confirmable; in every other case they go back with the status, the error and the next attempt of a table by failure codes, no other row changes, a body too large is met by a smaller batch or a blocked row, and only a recovery, started exactly under its conditions, takes synced rows back |
| SyncEngine.SendBatch | native/android/SyncEngine.kt:43-104 | whatever the server answers: what is sent is the right batch within both size limits, exactly what an accepted reply answers becomes synced and gets its receipt, the rows of a failed batch go back by their failure and no other row is stopped, nothing is sent only when nothing could be, and a recovery happens exactly under its conditions |
| SyncEngine.DrainReady | native/android/SyncEngine.kt:31-104 | one round: nothing is sent without an authorized session and an enabled outbox, what is sent is right for the rows after the requested recovery and the longest part of a claim that fits, rows become synced only by delivery, a failed batch goes back by its failure, and each of the two recoveries happens exactly under its conditions |
| SyncEngine.Drain | native/android/SyncEngine.kt:21-29 | the entry point: refused exactly while a row is being sent for another destination; captures until complete, at most ten batches of 100, which completes exactly when no ids clash and fewer than a thousand records are left; then exactly one round over a complete outbox |
| SyncEngine.OnlyDeliveriesSync | native/android/SyncEngine.kt:72-104 | a row that is synced after a round was synced before it, or was sent in it and delivered |
| SyncEngine.OnlyRecoveryUnsyncs | native/android/SyncEngine.kt:107-150 | in a round without a successful recovery no row stops being synced |
| Outage.OnlyTimeIsLost | native/android/SyncEngine.kt:72-104 | after a round whose failure time heals (an unusable reply, an unreachable server, 408, 429, 500 and above) no row is stopped, and any later claim of enough rows takes the rows of the batch first once the backoff and the wait the server asked for are over, and nothing before |
| SyncEngine.LeaveAndReturn | native/android/OutboxStore.kt:16-43 | a destination is left, entries are recorded and rounds run elsewhere, and on return every row has the evidence it was left with, an expired claim excepted, and rows recorded meanwhile come undelivered; over a complete outbox this fails exactly when a row is being sent at the start or a recorded entry has the id of an older sale |
| SyncEngine.SentRequestPassesExactly | server/src/ledger/protocol.ts:47-186 | the envelope check accepts what a round sends if and only if every event names a terminal and an id |
| Envelope.ValidateRequest | server/src/ledger/protocol.ts:47-186 | the envelope loop accepts exactly distinct, numbered, increasing, sealed and fingerprinted events, and reports a batch over 100 events and an oversized event for what they are |
| Envelope.BodyFaults | server/src/ledger/protocol.ts:47-186 | nothing is wrong with an event's body exactly when it fits, and it is refused as oversized exactly above the limit |
| ServerStore.PersistLedger | server/src/persistence/store.ts:239-429 | both passes, with identities, head, gap, the judgement of each new event, added flag and statuses, all or nothing; Persisted says what that means |
| Persisted.StoresOnlyAddable | server/src/persistence/store.ts:239-429 | of every chain, batch and judge: what is committed is the old chain and added events, each judged well over the chain before it, chained to its head, with its number next and no operation or order taken; every other event was stored before, and the statuses tell the two apart |
| Persisted.AddableIsStored | server/src/persistence/store.ts:239-429 | conversely, a batch of stored and addable events over a well-kept chain is committed as just that |
| Persisted.RefusesFirst | server/src/persistence/store.ts:239-429 | a batch in sequence that passes the identity loop and is refused is refused at its first event that is neither stored nor addable, with the code of what stands against that one |
| ServerStore.CheckIdentities | server/src/persistence/store.ts:239-429 | the first pass, with its sets of what the batch brings, finds the first event with other contents under its id, its sequence taken, its order already sold or its operation already recorded |
| ServerStore.BatchOutcome | server/src/persistence/store.ts:239-429 | of any keyed journal: a right batch is confirmed again when stored, added when next, refused for a missing predecessor behind a gap, and refused for a moved head when it straddles the head |
| Convergence.RoundsReachExactly | native/android/SyncEngine.kt:107-150 | whatever each round cuts, records or recovers: the rounds after a recovery reach the end if and only if one of them starts exactly at the head of a server that stores what persistLedger stores; otherwise its chain never grows |
| Convergence.RecoveryReachesExactly | native/android/SyncEngine.kt:107-150 | with batches of one shape the rounds after a recovery reach the end if and only if the server's head falls between two batches, as the end does; otherwise the server's chain never grows |
| Convergence.LostAcknowledgementBlocks | docs/architecture-mongodb-offline-first.md:219 | one of two entries stored, its acknowledgement lost: after any number of rounds and recoveries the server still holds one |
| Convergence.SentIsARound | native/android/SyncEngine.kt:43-72 | what the engine sends from its rows is one such round: a cut within the limit, answered as persistLedger answers it |
| Convergence.DeliveryAdvances | native/android/OutboxStore.kt:151-168 | its acknowledgement moves the delivered prefix of the rows to the end of the batch |
| Convergence.RecoveryRestarts | native/android/OutboxStore.kt:250-255 | its recovery moves it to the first entry |
| EndToEnd.StoredIsDelivered | server/src/ledger/routes.ts:129-149 | a stored batch, new or again, is answered by a reply the client accepts, whatever receipts it holds from that server |
| EndToEnd.ExchangeIsARound | native/android/SyncEngine.kt:43-104 | what an exchange leaves of the rows and of the server's chain is one such round |
| EndToEnd.Exchange | native/android/SyncEngine.kt:43-104 | the engine and the server together, sending, refusing and recovering: one round, and both ends stay in agreement |
| EndToEnd.Live | native/android/SyncEngine.kt:21-104 | any life of both: entries recorded between turns, any turns; both ends hold what the rounds say, and if no round starts at the server's head the server has gained nothing |
| Workers.RequeueUnderAClaim | native/android/OutboxStore.kt:250-255 | requeuing under another worker's claim and then confirming that claim keeps the delivered rows a prefix if and only if it holds legacy sales or starts at the first entry |
| Workers.TwoWorkersBreakThePrefix | native/android/OutboxStore.kt:151-168 | a run with a valid claim and a good reply after which a later entry is delivered and the first is not |
| Delivery.JournalIsDeliverable | native/android/OutboxStore.kt:51-57 | every run of the writers has the shape the outbox and the envelope check need |
| Delivery.RightBatchIsStoredExactly | server/src/persistence/store.ts:239-429 | a batch of a service-shaped run is stored if and only if it starts at the server's head or ends within it, then the server holds the journal up to its end; it is refused for nothing but its position, by neither pass |
| Delivery.RunIsJudgedWell | server/src/ledger/business.ts:304-503 | the references, the ranges and the business check of the server accept every entry of a service-shaped run over the entries before it |
| Delivery.OldSaleIsRefused | server/src/ledger/protocol.ts:47-186 | an old sale without a terminal is valid for the writers, is sent as it should be, and its envelope is refused as an invalid payload |
| Delivery.RefusedForGood | native/android/OutboxStore.kt:103-131 | behind a row that an invalid payload sent back no claim takes anything, and the row stays refused |
| JsonNumbers.AcceptedExactly | server/src/json.ts:76-90 | a number token is accepted if and only if its exact value is an integer of magnitude at most 2^53 - 1, for any number of digits, any exponent and any faithful rounding |
| JsonNumbers.DigitTest | server/src/json.ts:84-89 | the inspection of digits and shift passes exactly on whole values |
| JsonGrammar.NumeralReads | server/src/json.ts:76-91 | every numeral of section 6 of RFC 8259, written out before anything that does not continue it, is read as its sign, digits, fraction and exponent |
| JsonGrammar.NumeralsExactly | server/src/json.ts:76-91 | the text of a numeral is parsed if and only if its exact decimal value is an integer of magnitude at most 2^53 - 1, and then as that integer |
| JsonGrammar.CharsRead | server/src/json.ts:13-39 | every spelling of a string, each unit as itself, as a short escape or by its number in either case, is read as its units |
| JsonGrammar.ReadsExactlyTheGrammar | server/src/json.ts:5-101 | a text is accepted as a value if and only if it spells that value: blanks, words, numerals, strings, arrays and objects of the grammar, no key twice, no lone surrogate or NUL, no unsafe number, at most 64 levels |
| JsonRoundTrip.ValueParses | native/android/SyncProtocol.kt:15-38 | the canonical text of a value followed by anything parses to the value with sorted keys, or is refused exactly outside the domain |
| JsonRoundTrip.PrinterAndParserInvert | server/src/json.ts:5-101 | parsing canonical text succeeds exactly on the domain and gives the value back |
| JsonRoundTrip.CanonicalIsInjective | native/android/SyncProtocol.kt:15-38 | one canonical text stands for one value, key order apart |
| JsonRoundTrip.KeyOrderDoesNotMatter | native/android/SyncProtocol.kt:15-24 | values that are the same up to key order, at any depth, have one canonical text |
| JsonRoundTrip.NormForgetsKeyOrder | native/android/SyncProtocol.kt:15-24 | two objects with the same members in any order are the same up to key order |
| JsonRoundTrip.CanonicalKeysAscend | native/android/SyncProtocol.kt:15-24 | read in its order, the canonical text holds the keys of every object in ascending order, code unit by code unit |
| JsonCanonical.CanonicalIsTight | native/android/SyncProtocol.kt:15-38 | the canonical text of a value is the one tight spelling of it with ascending keys: no blank, every unit as itself but for a quote, a backslash and the controls, these by letter or by number in lower case, every number plain |
| JsonRoundTrip.ProfilesAgree | src/utils/ledgerCanonicalization.ts:5-8 | the android text is the plain text with every slash escaped |
| JsonRoundTrip.AndroidTextParsesAlike | src/utils/ledgerCanonicalization.ts:5-8 | escaping the slashes of a whole canonical text changes nothing for the parser |
| JsonCursor.ScanThenDecode | server/src/json.ts:13-27 | finding the closing quote first and decoding the slice is decoding character by character |
| JsonCursor.Cursor.ReadString | server/src/json.ts:13-39 | the cursor reads exactly the string the grammar reads and stands behind it |
| JsonCursor.Cursor.ReadToken | server/src/json.ts:76-91 | likewise for literals and numbers |
| JsonCursor.Cursor.ReadValue | server/src/json.ts:40-92 | the recursive descent over one shared cursor computes the parsing function, depth bound included |
| JsonCursor.Cursor.ReadItems | server/src/json.ts:48-75 | the array loop reads the items the grammar reads |
| JsonCursor.Cursor.ReadMembers | server/src/json.ts:48-75 | the object loop refuses exactly a repeated key and otherwise reads the members in order |
| JsonCursor.ParseStrictJson | server/src/json.ts:5-101 | a text is parsed to a value if and only if it is a spelling of that value in the grammar of RFC 8259 within the bounds of the parser; the cursor computes the parsing function on every text |
| ClosureVat.CalculateClosureVat | src/services/salesLedgerService.ts:322-389 | the per-rate map holds the sum of the gross and of the tax of the lines of the period and their difference as net, unavailable exactly when a correction cannot be attributed |
| ClosureVat.FullRefundsGiveAllBack | src/services/salesLedgerService.ts:322-389 | complete refunds give back, at every rate, the gross and the tax of the sale |
| ClosureVat.CollectedSplits | src/services/salesLedgerService.ts:322-389 | what a period collects is what all other entries contribute plus what one sale and its corrections contribute |
| ClosureVat.TakenBackNetsToZero | src/services/salesLedgerService.ts:322-389 | on every run, a sale cancelled or refunded completely within the period leaves the computed breakdown, at every rate, as it is without the sale and its corrections, and available exactly when that one is |
| Archive.VerifySalesArchive | src/services/orderRepository.ts:567-583 | valid exactly when the archive's own hash and the audit of its content are right |
| Archive.ReachableAudits | src/services/orderRepository.ts:1523-1548 | the content read from any reachable store passes the audit |
| Archive.LocalStores.ExportArchive | src/services/orderRepository.ts:1523-1548 | an export is a valid archive of exactly the stored records, and a reachable store always exports |
| Archive.LocalStores.GetTargetState | src/services/orderRepository.ts:134-151 | empty, matching or occupied, decided on the stored records |
| Archive.LocalStores.RestoreArchive | src/services/orderRepository.ts:1554-1619 | restored exactly when the archive is valid, no two records share a key, orders and ledger are empty and no technical record of the archive is there; otherwise nothing changes |
| Archive.ArchiveRoundTrip | src/services/orderRepository.ts:1523-1619 | the records of a reachable store restore into an empty one, which then is the store they came from and matches the archive |
| Archive.MatchesExactly | src/services/orderRepository.ts:134-151 | a restored store matches its archive if and only if no technical record was left over |
| Continuation.Perform | src/services/orderRepository.ts:595-1512 | every call of a writer, accepted, repeated or refused, takes journal and intents exactly where one transition function says |
| Continuation.ReplayGrows | src/services/orderRepository.ts:595-1512 | any calls only add to the journal and never touch what the store started from |
| Continuation.ContinueFromArchive | src/services/orderRepository.ts:1523-1619 | export, restoration into an empty store, any calls of the writers, export again: every step succeeds, the restored store answers the calls as the archived one would without its intents, the journal extends the archived one and the audit is valid |
| Replacement.Tablet.Adopt | src/services/terminalConfigurationService.ts:99-125 | an identity is adopted once, with a trimmed name of at most 40 characters, and never replaced by another |
| Ledger.TrimExactly | src/services/terminalConfigurationService.ts:99-125 | a trimmed text is what stands between the blanks around it |
| Replacement.Tablet.ReplaceFromArchive | src/services/tabletReplacementService.ts:79-148 | whatever the crash point, an identity is adopted only over the archive's journal, another archive is refused while one is pending, a refusal before the first durable step changes nothing, and an uninterrupted call ends adopted exactly under one stated condition |
| Replacement.RunToTheEnd | src/services/tabletReplacementService.ts:79-148 | from an empty tablet and after any number of interrupted calls, an uninterrupted one has restored the journal once, and adopts the identity if and only if its name fits |
| Replacement.MoveUnderLongName | src/services/tabletReplacementService.ts:79-148 | from any reachable store: a valid archive under a name of 41 characters is restored completely and its tablet never gets an identity |

## Left out

- Hash functions, signatures, device keys and sessions of the tablet: digests and fingerprints carry what they hash.
- IndexedDB, Room, HTTP, Fastify and MongoDB plumbing: each transaction is one atomic step.
- Item options, variants, ingredients and notes: they are copied, not computed with.
- Server.CheckItems: the checks of an item's options, ingredients and note are not part of it.
- Server.ValidateOrder: likewise, the item fields it leaves out are those of CheckItems.
- Server.ServerReplaysEveryRun: assumes of every entry what the services put into their requests; Services discharges it, up to the running sums of a closure staying in the safe range, which no service bounds.
- NativeStore.ValidateNewOrder: number prefixes, terminal code, timestamps and printing state are not part of it.
- The 512-byte bound on texts and the full Unicode notion of blank: blank means only space, tab, newline and carriage return.
- Timestamp formats and mixed precision: dates are integers.
- Floating point: `Math.round` of a quotient is exact rounding; the number test of the parser is proved for every faithful rounding to doubles.
- Canonical text of numbers that are not safe integers: the printer is modelled on integers, the parser on every token.
- The chain filter of the outbox queries: a store carries one chain.
- Legacy sales added to the outbox after its creation: the legacy table is fixed, as the writers add none.
- ServerStore.PersistLedger: authorization, enrollment, the write fence and receipts are not part of it, and legacy sales and their dependencies have their own server transaction, which is not modelled.
- Convergence.RecoveryReachesExactly: is about batches of one shape; RoundsReachExactly is not.
- EndToEnd.Live: the payloads of a request are read from the journal it was built from, the endpoint of the older sales and the answers to a recovery are arbitrary, and the server's other tablets, its fence and its sessions are not part of it.
- Services.ServicesShapeRuns: fresh ids are parameters that are never blank, and the responsible mode that unlocks a call is not part of it.
- Envelope.ValidateRequest: the scope's uuid patterns and the canonical text itself are not part of it; the texts are the subject of the Json modules.
- SyncEngine.Drain: the next wake-up time, backoff and jitter are parameters.
- Auditor.VerifyAuditSnapshot: the texts and counts of its findings are collapsed into valid and complete.
- Archive.LocalStores.GetTargetState: records are compared key by key instead of by the hash of a sorted copy.
- NativeStore.SessionEntriesAgree: for journals in which no closure follows the opening of a session with an empty id, which is where the two folds agree.
- The native import of an older snapshot and the native checkout steps: they repeat the web ones over Room tables.
- The web outbox (src/services/outboxRepository.ts): it captures and backfills as the native one does, without sending.
- updateOrderPrinting's store write, receipt layout, printer selection and status messages.
- The catalogue, the dashboard, the cart store, PINs and the user interface: folds and forms that would only add easy members.
