/**
 The local repository (src/services/orderRepository.ts). Each method is one IndexedDB
 transaction: it applies everything or leaves the stores as they were. The stores are
 unordered maps; the ghost journal is the order in which entries were appended.
 */
module Repository {
  import opened Ledger
  import opened Sums
  import opened Closures
  import opened CashSessions
  import opened Refunds
  import opened Journal
  import opened Ordering
  import opened Numbers
  import opened Checkout

  datatype OrderRequest = OrderRequest(
    id: string,
    terminalId: string,
    paymentMethod: PaymentMethod,
    paidAt: int,
    items: seq<Item>,
    itemCount: int,
    totalCents: int,
    createdAt: int,
    orderNumberPrefix: string,
    receiptNumberPrefix: string)

  datatype SessionRequest = SessionRequest(opening: SessionOpening, recordedAt: int, terminalId: string)

  datatype FloatRequest = FloatRequest(update: FloatUpdate, recordedAt: int, terminalId: string)

  datatype CorrectionRequest = CorrectionRequest(
    operationId: string,
    originalOrderId: string,
    kind: CorrectionType,
    reason: string,
    amountDeltaCents: int,
    refundLines: Option<seq<RefundLine>>,
    recordedAt: int,
    terminalId: string)

  datatype ClosureRequest = ClosureRequest(
    operationId: string,
    periodStart: int,
    periodEnd: int,
    cashSessionId: Option<string>,
    openingFloatCents: Option<int>,
    recordedAt: int,
    terminalId: string)

  // ----- What a request becomes -----

  function Envelope(journal: seq<Entry>, recordedAt: int, terminalId: string, body: Body): Entry {
    var content := Content(LEDGER_SCHEMA_VERSION, EntryId(body), |journal| + 1, recordedAt, Head(journal), terminalId, body);
    Entry(content, Digest(content))
  }

  function BuildPersistedOrder(r: OrderRequest, orderSequence: nat, receiptSequence: nat): Order {
    Order(r.id, SequenceNumber(r.orderNumberPrefix, orderSequence), SequenceNumber(r.receiptNumberPrefix, receiptSequence),
          r.terminalId, r.paymentMethod, r.paidAt, r.items, r.itemCount, r.totalCents, r.createdAt)
  }

  /** What a sale keeps of its request. */
  predicate KeepsRequest(o: Order, r: OrderRequest, orderSequence: nat, receiptSequence: nat) {
    && o.id == r.id && o.terminalId == r.terminalId && o.paymentMethod == r.paymentMethod && o.paidAt == r.paidAt
    && o.items == r.items && o.itemCount == r.itemCount && o.totalCents == r.totalCents && o.createdAt == r.createdAt
    && NumberReads(o.orderNumber, r.orderNumberPrefix, orderSequence)
    && NumberReads(o.receiptNumber, r.receiptNumberPrefix, receiptSequence)
  }

  /** And of its intent: it is paid and created when the payment was confirmed. */
  predicate KeepsIntent(o: Order, i: Intent, orderSequence: nat, receiptSequence: nat) {
    && o.id == i.id && o.terminalId == i.terminalId && o.paymentMethod == i.paymentMethod
    && i.paymentConfirmedAt == Some(o.paidAt) && o.createdAt == o.paidAt
    && o.items == i.cart && o.itemCount == i.itemCount && o.totalCents == i.totalCents
    && NumberReads(o.orderNumber, i.orderNumberPrefix, orderSequence)
    && NumberReads(o.receiptNumber, i.receiptNumberPrefix, receiptSequence)
  }

  /** The entry stands at the end of the journal, chained to the one before it, with its id, date and terminal. */
  predicate Stamped(e: Entry, before: seq<Entry>, id: string, recordedAt: int, terminalId: string) {
    && e.content.schemaVersion == 1 && e.content.id == id && e.content.sequence == |before| + 1
    && e.content.recordedAt == recordedAt && e.content.terminalId == terminalId
    && e.content.previousHash == (if before == [] then None else Some(before[|before| - 1].hash))
    && e.hash == Digest(e.content)
  }

  /** A sale is one entry with its order, and the store keeps the order with a reference to that entry. */
  predicate RecordsSale(before: seq<Entry>, after: seq<Entry>, orders: map<string, StoredOrder>, stored: map<string, StoredOrder>, o: Order,
                        recordedAt: int, terminalId: string) {
    && |after| == |before| + 1 && after[..|before|] == before
    && var e := after[|before|];
       && e.content.body == Sale(o) && Stamped(e, before, "sale:" + o.id, recordedAt, terminalId)
       && stored == orders[o.id := StoredOrder(o, Some(Integrity("sale:" + o.id, |before| + 1, e.hash)))]
  }

  lemma {:induction false} SaleIsRecorded(before: seq<Entry>, orders: map<string, StoredOrder>, o: Order, recordedAt: int, terminalId: string)
    ensures var e := Envelope(before, recordedAt, terminalId, Sale(o));
            RecordsSale(before, before + [e], orders, orders[o.id := SealedOrder(e)], o, recordedAt, terminalId)
  {
  }

  lemma {:induction false} RequestIsKept(r: OrderRequest, orderSequence: nat, receiptSequence: nat)
    ensures KeepsRequest(BuildPersistedOrder(r, orderSequence, receiptSequence), r, orderSequence, receiptSequence)
  {
    hide SequenceNumber, NumberReads;
    SequenceNumberReads(r.orderNumberPrefix, orderSequence);
    SequenceNumberReads(r.receiptNumberPrefix, receiptSequence);
  }

  lemma {:induction false} IntentIsKept(i: Intent, orderSequence: nat, receiptSequence: nat)
    requires i.paymentConfirmedAt.Some?
    ensures KeepsIntent(OrderOf(i, i.paymentConfirmedAt.value, orderSequence, receiptSequence), i, orderSequence, receiptSequence)
  {
    hide SequenceNumber, NumberReads;
    SequenceNumberReads(i.orderNumberPrefix, orderSequence);
    SequenceNumberReads(i.receiptNumberPrefix, receiptSequence);
  }

  function CorrectionOf(r: CorrectionRequest, stored: StoredOrder): SaleCorrection {
    SaleCorrection(r.operationId, stored.order.id, stored.order.orderNumber, stored.order.receiptNumber, r.kind, r.reason,
                   r.amountDeltaCents, stored.order.paymentMethod, HashOf(stored), r.refundLines)
  }

  predicate SameCorrection(c: SaleCorrection, r: CorrectionRequest) {
    && c.operationId == r.operationId
    && c.originalOrderId == r.originalOrderId
    && c.kind == r.kind
    && c.reason == r.reason
    && c.amountDeltaCents == r.amountDeltaCents
    && c.refundLines == r.refundLines
  }

  /** `if (request.cashSessionId)` */
  predicate AsksSession(r: ClosureRequest) { r.cashSessionId.Some? && r.cashSessionId.value != "" }

  function ClosureOf(journal: seq<Entry>, r: ClosureRequest): SalesClosure {
    var totals := ClosureTotals(journal, r.periodStart, r.periodEnd);
    SalesClosure(r.operationId, r.periodStart, r.periodEnd, totals,
      if AsksSession(r) && r.openingFloatCents.Some?
      then Some(ClosedSession(r.cashSessionId.value, r.openingFloatCents.value, r.openingFloatCents.value + totals.cashCents))
      else None)
  }

  predicate SameClosure(c: SalesClosure, r: ClosureRequest) {
    && c.operationId == r.operationId
    && c.periodStart == r.periodStart
    && c.periodEnd == r.periodEnd
    && (if c.session.Some? then Some(c.session.value.cashSessionId) else None) == r.cashSessionId
    && (if c.session.Some? then Some(c.session.value.openingFloatCents) else None) == r.openingFloatCents
  }

  /**
   Repeating a closure request finds its own entry only when the request carries both a
   session and its float, or neither: otherwise the retry of an accepted closure is refused.
   */
  lemma {:induction false} ClosureRetryExactly(journal: seq<Entry>, r: ClosureRequest)
    ensures SameClosure(ClosureOf(journal, r), r) <==>
            (if AsksSession(r) then r.openingFloatCents.Some? else r.cashSessionId.None? && r.openingFloatCents.None?)
  {
  }

  // ----- The stores and the journal -----

  function SaleCount(journal: seq<Entry>): nat {
    if journal == [] then 0
    else SaleCount(journal[..|journal| - 1]) + if journal[|journal| - 1].Body().Sale? then 1 else 0
  }

  ghost predicate HasNumber(number: string, sequence: nat) {
    exists prefix :: number == SequenceNumber(prefix, sequence)
  }

  ghost predicate NumberedAt(firstOrder: nat, firstReceipt: nat, before: seq<Entry>, e: Entry) {
    e.Body().Sale? ==>
      && HasNumber(e.Body().order.orderNumber, firstOrder + SaleCount(before))
      && HasNumber(e.Body().order.receiptNumber, firstReceipt + SaleCount(before))
  }

  /** The n-th sale carries the n-th order number and receipt number after the first ones. */
  ghost predicate Numbered(firstOrder: nat, firstReceipt: nat, journal: seq<Entry>) {
    forall n :: 0 <= n < |journal| ==> NumberedAt(firstOrder, firstReceipt, journal[..n], journal[n])
  }

  lemma {:induction false} SaleCountGrows(journal: seq<Entry>, n: nat, m: nat)
    requires n < m <= |journal| && journal[n].Body().Sale?
    ensures SaleCount(journal[..n]) < SaleCount(journal[..m])
    decreases m
  {
    assert journal[..m][..m - 1] == journal[..m - 1];
    if n < m - 1 {
      SaleCountGrows(journal, n, m - 1);
    }
  }

  /** No two sales of a store share an order number or a receipt number, whatever their prefixes. */
  lemma {:induction false} NumbersAreUnique(firstOrder: nat, firstReceipt: nat, journal: seq<Entry>, n: nat, m: nat)
    requires Numbered(firstOrder, firstReceipt, journal)
    requires n < m < |journal| && journal[n].Body().Sale? && journal[m].Body().Sale?
    ensures journal[n].Body().order.orderNumber != journal[m].Body().order.orderNumber
    ensures journal[n].Body().order.receiptNumber != journal[m].Body().order.receiptNumber
  {
    hide SequenceNumber;
    SaleCountGrows(journal, n, m);
    assert NumberedAt(firstOrder, firstReceipt, journal[..n], journal[n]);
    assert NumberedAt(firstOrder, firstReceipt, journal[..m], journal[m]);
    var a, b := journal[n].Body().order, journal[m].Body().order;
    var i, k := SaleCount(journal[..n]), SaleCount(journal[..m]);
    NumbersDiffer(a.orderNumber, firstOrder + i, b.orderNumber, firstOrder + k);
    NumbersDiffer(a.receiptNumber, firstReceipt + i, b.receiptNumber, firstReceipt + k);
  }

  lemma {:induction false} NumbersDiffer(a: string, m: nat, b: string, n: nat)
    requires HasNumber(a, m) && HasNumber(b, n) && m != n
    ensures a != b
  {
    hide SequenceNumber;
    var p :| a == SequenceNumber(p, m);
    var q :| b == SequenceNumber(q, n);
    if a == b { SequenceNumberInjective(p, m, q, n); }
  }

  ghost predicate LedgerMatches(ledger: map<string, Entry>, journal: seq<Entry>) {
    && (forall n :: 0 <= n < |journal| ==> journal[n].Id() in ledger && ledger[journal[n].Id()] == journal[n])
    && (forall id :: id in ledger ==> ledger[id].Id() == id && ledger[id] in journal)
  }

  ghost predicate OrdersMatch(orders: map<string, StoredOrder>, legacy: Legacy, journal: seq<Entry>) {
    forall id :: (id in orders <==> StoredIn(legacy, journal, id).Some?)
              && (id in orders ==> orders[id] == StoredIn(legacy, journal, id).value)
  }

  function MetadataOf(firstOrder: nat, firstReceipt: nat, journal: seq<Entry>): Metadata {
    Metadata(firstOrder + SaleCount(journal), firstReceipt + SaleCount(journal), |journal| + 1, Head(journal), LastClosureEnd(journal))
  }

  /** normalizeSequences lets the three counters through. */
  predicate SequencesUsable(m: Metadata) {
    && 1 <= m.nextOrderSequence < MAX_SAFE_INTEGER
    && 1 <= m.nextReceiptSequence < MAX_SAFE_INTEGER
    && 1 <= m.nextJournalSequence < MAX_SAFE_INTEGER
  }

  method NormalizeSequences(m: Metadata) returns (usable: bool)
    ensures usable <==> SequencesUsable(m)
  {
    var values := [m.nextOrderSequence, m.nextReceiptSequence, m.nextJournalSequence];
    for n := 0 to 3
      invariant forall k :: 0 <= k < n ==> 1 <= values[k] < MAX_SAFE_INTEGER
    {
      if !SafeInteger(values[n]) || values[n] < 1 || values[n] >= MAX_SAFE_INTEGER { return false; }
    }
    assert values[0] < MAX_SAFE_INTEGER && values[1] < MAX_SAFE_INTEGER && values[2] < MAX_SAFE_INTEGER;
    return true;
  }

  // ----- Facts the methods use -----

  lemma {:induction false} LedgerAppends(ledger: map<string, Entry>, journal: seq<Entry>, e: Entry)
    requires LedgerMatches(ledger, journal) && FreshId(journal, e.Id())
    ensures LedgerMatches(ledger[e.Id() := e], journal + [e])
  {
  }

  lemma {:induction false} OrdersUnchanged(orders: map<string, StoredOrder>, legacy: Legacy, journal: seq<Entry>, e: Entry)
    requires OrdersMatch(orders, legacy, journal) && !e.Body().Sale?
    ensures OrdersMatch(orders, legacy, journal + [e])
  {
  }

  lemma {:induction false} OrdersAppend(orders: map<string, StoredOrder>, legacy: Legacy, journal: seq<Entry>, e: Entry)
    requires OrdersMatch(orders, legacy, journal) && e.Body().Sale? && e.Body().order.id !in legacy
    ensures OrdersMatch(orders[e.Body().order.id := SealedOrder(e)], legacy, journal + [e])
  {
  }

  lemma {:induction false} NumberedAppends(firstOrder: nat, firstReceipt: nat, journal: seq<Entry>, e: Entry)
    requires Numbered(firstOrder, firstReceipt, journal) && NumberedAt(firstOrder, firstReceipt, journal, e)
    ensures Numbered(firstOrder, firstReceipt, journal + [e])
  {
    hide NumberedAt;
    var longer := journal + [e];
    forall n | 0 <= n < |longer| ensures NumberedAt(firstOrder, firstReceipt, longer[..n], longer[n]) {
      assert longer[..n] == journal[..n];
      assert journal[..|journal|] == journal;
    }
  }

  lemma {:induction false} SaleCountAppends(journal: seq<Entry>, e: Entry)
    ensures SaleCount(journal + [e]) == SaleCount(journal) + if e.Body().Sale? then 1 else 0
    ensures LastClosureEnd(journal + [e]) == if e.Body().Closure? then Some(e.Body().closure.periodEnd) else LastClosureEnd(journal)
    ensures Head(journal + [e]) == Some(e.hash)
  {
  }

  /** Appending an entry keeps the intents matched: only a sale touches one, and only its own. */
  lemma {:induction false} IntentsAfterAppend(intents: map<string, Intent>, direct: set<string>, journal: seq<Entry>, e: Entry)
    requires IntentsMatch(intents, direct, journal)
    requires e.Body().Sale? ==> FindSale(journal, e.Body().order.id).None?
    requires e.Body().Sale? ==> e.Body().order.id in direct
    ensures IntentsMatch(intents, direct, journal + [e])
  {
    hide ValidIntent;
    forall sale | sale in journal + [e] && sale.Body().Sale?
      ensures sale.Body().order.id in direct || sale.Body().order.id in intents
    {
      assert sale in journal || sale == e;
    }
    assert (journal + [e])[..|journal|] == journal;
    forall id | id in intents
      ensures FindSale(journal + [e], id) == FindSale(journal, id) || (id in direct && FindSale(journal, id).None?)
    {
    }
  }

  lemma {:induction false} DirectGrows(intents: map<string, Intent>, direct: set<string>, id: string, journal: seq<Entry>)
    requires IntentsMatch(intents, direct, journal)
    ensures IntentsMatch(intents, direct + {id}, journal)
  {
  }

  lemma {:induction false} IntentUpdated(intents: map<string, Intent>, direct: set<string>, journal: seq<Entry>, i: Intent)
    requires IntentsMatch(intents, direct, journal)
    requires ValidIntent(i) && (i.status == Finalized ==> SoldAs(journal, i))
    requires FindSale(journal, i.id).Some? && i.id !in direct ==> i.status == Finalized
    ensures IntentsMatch(intents[i.id := i], direct, journal)
  {
  }

  lemma {:induction false} IntentsAfterFinalize(intents: map<string, Intent>, direct: set<string>, journal: seq<Entry>, e: Entry, now: int)
    requires IntentsMatch(intents, direct, journal)
    requires e.Body().Sale? && e.Body().order.id in intents && FindSale(journal, e.Body().order.id).None?
    requires var i := intents[e.Body().order.id]; var order := e.Body().order;
      && i.status == PaymentConfirmed && i.paymentConfirmedAt == Some(order.paidAt)
      && order.items == i.cart && order.totalCents == i.totalCents && order.paymentMethod == i.paymentMethod
      && e.content.terminalId == i.terminalId
    ensures IntentsMatch(intents[e.Body().order.id := Finalize(intents[e.Body().order.id], now)], direct, journal + [e])
  {
    hide ValidIntent;
    assert (journal + [e])[..|journal|] == journal;
    var id := e.Body().order.id;
    assert FindSale(journal + [e], id) == Some(e);
    forall other | other != id ensures FindSale(journal + [e], other) == FindSale(journal, other) {}
    forall sale | sale in journal + [e] && sale.Body().Sale?
      ensures sale.Body().order.id in direct || sale.Body().order.id in intents
    {
      assert sale in journal || sale == e;
    }
    TransitionsKeepValid(intents[id], now);
  }

  // ----- validateCorrection -----

  /** The guard as the code runs it, over entries in store order. */
  method ValidateCorrection(r: CorrectionRequest, stored: StoredOrder, entries: seq<Entry>) returns (accepted: bool)
    requires forall item :: item in stored.order.items ==> 0 <= item.vatRate
    ensures accepted <==> CorrectionRule(stored.order, PriorCorrections(entries, stored.order.id), CorrectionOf(r, stored))
  {
    hide ValidRefundLines, Blank, PriorCorrections;
    if Blank(r.operationId) || Blank(r.reason) { return false; }
    if !SafeInteger(r.amountDeltaCents) || (r.kind != Cancellation && r.amountDeltaCents == 0) { return false; }
    if r.kind != Adjustment && r.amountDeltaCents >= 0 { return false; }
    if r.kind == Cancellation && r.amountDeltaCents != -stored.order.totalCents { return false; }
    var prior: seq<SaleCorrection> := [];
    NoPrior(entries, stored.order.id);
    for i := 0 to |entries|
      invariant prior == PriorCorrections(entries[..i], stored.order.id)
    {
      PriorStep(entries, i, stored.order.id);
      if entries[i].Body().Correction? && entries[i].Body().correction.originalOrderId == stored.order.id {
        prior := prior + [entries[i].Body().correction];
      }
    }
    assert entries[..|entries|] == entries;
    if Cancelled(prior) { return false; }
    if r.kind == Cancellation && |prior| > 0 { return false; }
    if r.kind != Refund { return true; }
    var total := ValidateStructuredRefund(stored.order, prior, r.refundLines);
    if total.None? || r.amountDeltaCents != -total.value { return false; }
    var alreadyRefunded := 0;
    for i := 0 to |prior|
      invariant alreadyRefunded == RefundedAmount(prior[..i])
    {
      assert prior[..i + 1] == prior[..i] + [prior[i]];
      SumAppend(prior[..i], prior[i], RefundAmount);
      if prior[i].kind == Refund { alreadyRefunded := alreadyRefunded - prior[i].amountDeltaCents; }
    }
    assert prior[..|prior|] == prior;
    return alreadyRefunded - r.amountDeltaCents <= stored.order.totalCents;
  }

  lemma {:induction false} NoPrior(entries: seq<Entry>, id: string)
    ensures PriorCorrections(entries[..0], id) == []
  {
  }

  lemma {:induction false} PriorStep(entries: seq<Entry>, i: nat, id: string)
    requires i < |entries|
    ensures PriorCorrections(entries[..i + 1], id) == PriorCorrections(entries[..i], id) +
              (if entries[i].Body().Correction? && entries[i].Body().correction.originalOrderId == id
               then [entries[i].Body().correction] else [])
  {
    assert entries[..i + 1][..i] == entries[..i];
  }

  lemma {:induction false} StoredItemsTaxed(legacy: Legacy, journal: seq<Entry>, id: string)
    requires WellFormed(legacy, journal) && LegacyValid(legacy) && StoredIn(legacy, journal, id).Some?
    ensures var order := StoredIn(legacy, journal, id).value.order;
            order.id == id && forall item :: item in order.items ==> 0 <= item.vatRate
  {
  }

  lemma {:induction false} OriginalStored(legacy: Legacy, journal: seq<Entry>, orders: map<string, StoredOrder>, id: string)
    requires WellFormed(legacy, journal) && LegacyValid(legacy) && OrdersMatch(orders, legacy, journal) && id in orders
    ensures orders[id].order.id == id && forall item :: item in orders[id].order.items ==> 0 <= item.vatRate
  {
    hide WellFormed, LegacyValid, StoredIn;
    StoredItemsTaxed(legacy, journal, id);
  }

  /** The outcome of a keyed operation: found again, appended, or refused with nothing changed. */
  ghost predicate KeyedOutcome(ledger: map<string, Entry>, before: seq<Entry>, after: seq<Entry>, e: Entry,
                               same: bool, accepted: bool, result: Option<Entry>) {
    if e.Id() in ledger then
      && result == (if same then Some(ledger[e.Id()]) else None)
      && after == before
    else
      && result == (if accepted then Some(e) else None)
      && after == (if accepted then before + [e] else before)
  }

  lemma {:induction false} CorrectionEntryGuard(legacy: Legacy, journal: seq<Entry>, orders: map<string, StoredOrder>, r: CorrectionRequest)
    requires OrdersMatch(orders, legacy, journal) && r.originalOrderId in orders
    requires orders[r.originalOrderId].order.id == r.originalOrderId
    ensures var stored := orders[r.originalOrderId];
            var e := Envelope(journal, r.recordedAt, r.terminalId, Correction(CorrectionOf(r, stored)));
            Guard(legacy, journal, e) <==>
              && NotBefore(LastClosureEnd(journal), r.recordedAt)
              && CorrectionRule(stored.order, PriorCorrections(journal, r.originalOrderId), CorrectionOf(r, stored))
  {
  }

  /** The session check of closePeriod. */
  predicate ClosureSessionMatches(active: Option<CashSession>, r: ClosureRequest) {
    AsksSession(r) ==>
      && active.Some?
      && active.value.id == r.cashSessionId.value
      && active.value.periodStart == r.periodStart
      && r.openingFloatCents == Some(active.value.openingFloatCents)
      && active.value.terminalId == r.terminalId
  }

  lemma {:induction false} ClosureEntryGuard(legacy: Legacy, journal: seq<Entry>, r: ClosureRequest)
    ensures var e := Envelope(journal, r.recordedAt, r.terminalId, Closure(ClosureOf(journal, r)));
            var cash := ClosureTotals(journal, r.periodStart, r.periodEnd).cashCents;
            Guard(legacy, journal, e) && (AsksSession(r) ==> r.openingFloatCents.Some?) <==>
              && r.periodStart < r.periodEnd <= r.recordedAt
              && ContinuesAt(LastClosureEnd(journal), r.periodStart)
              && ClosureSessionMatches(ActiveSession(journal), r)
              && (AsksSession(r) ==> CashAmount(r.openingFloatCents.value) && SafeInteger(cash)
                                     && SafeInteger(r.openingFloatCents.value + cash))
  {
  }

  function SoldIds(journal: seq<Entry>): set<string> { set e | e in journal && e.Body().Sale? :: e.Body().order.id }

  lemma {:induction false} NoIntents(journal: seq<Entry>)
    ensures IntentsMatch(map[], SoldIds(journal), journal)
  {
  }

  class OrderRepository {
    ghost const legacy: Legacy
    ghost const firstOrder: nat
    ghost const firstReceipt: nat

    var orders: map<string, StoredOrder>
    var ledger: map<string, Entry>
    var metadata: Metadata
    var intents: map<string, Intent>

    ghost var journal: seq<Entry>
    /** Ids sold by createOrder, not through an intent. */
    ghost var direct: set<string>

    ghost predicate Valid()
      reads this
    {
      && LegacyValid(legacy)
      && WellFormed(legacy, journal)
      && LedgerMatches(ledger, journal)
      && OrdersMatch(orders, legacy, journal)
      && metadata == MetadataOf(firstOrder, firstReceipt, journal)
      && Numbered(firstOrder, firstReceipt, journal)
      && IntentsMatch(intents, direct, journal)
    }

    /** A store whose legacy sales used the numbers below the first ones; an empty store starts at one. */
    constructor (legacyOrders: map<string, Order>, nextOrder: nat, nextReceipt: nat)
      requires LegacyValid(legacyOrders)
      ensures Valid() && journal == [] && legacy == legacyOrders && intents == map[]
      ensures firstOrder == nextOrder && firstReceipt == nextReceipt
      ensures orders == map id | id in legacyOrders :: StoredOrder(legacyOrders[id], None)
    {
      legacy, firstOrder, firstReceipt := legacyOrders, nextOrder, nextReceipt;
      orders := map id | id in legacyOrders :: StoredOrder(legacyOrders[id], None);
      ledger, intents := map[], map[];
      metadata := Metadata(nextOrder, nextReceipt, 1, None, None);
      journal, direct := [], {};
    }

    /**
     A repository opened on stores that hold a journal of the writers, as a restored
     archive does. Intents are not part of an archive: every sale counts as a direct one.
     */
    constructor FromStores(storedOrders: map<string, StoredOrder>, entries: map<string, Entry>, m: Metadata,
                           ghost legacyOrders: Legacy, ghost nextOrder: nat, ghost nextReceipt: nat, ghost run: seq<Entry>)
      requires LegacyValid(legacyOrders) && WellFormed(legacyOrders, run) && Numbered(nextOrder, nextReceipt, run)
      requires LedgerMatches(entries, run) && OrdersMatch(storedOrders, legacyOrders, run)
      requires m == MetadataOf(nextOrder, nextReceipt, run)
      ensures Valid() && journal == run && legacy == legacyOrders && firstOrder == nextOrder && firstReceipt == nextReceipt
      ensures orders == storedOrders && ledger == entries && metadata == m && intents == map[]
    {
      hide WellFormed, LedgerMatches, OrdersMatch, Numbered, LegacyValid, IntentsMatch;
      legacy, firstOrder, firstReceipt := legacyOrders, nextOrder, nextReceipt;
      orders, ledger, metadata, intents := storedOrders, entries, m, map[];
      journal, direct := run, SoldIds(run);
      NoIntents(run);
    }

    /** `ledger.getAll()`: every entry once, in no particular order. */
    method ReadEntries() returns (entries: seq<Entry>)
      requires Valid()
      ensures multiset(entries) == multiset(journal)
    {
      hide WellFormed, OrdersMatch, Numbered, IntentsMatch, LegacyValid, MetadataOf;
      var keys := ledger.Keys;
      entries := [];
      while keys != {}
        invariant keys <= ledger.Keys
        invariant forall e :: e in entries <==> e.Id() in ledger.Keys - keys && ledger[e.Id()] == e
        invariant forall i, k :: 0 <= i < k < |entries| ==> entries[i] != entries[k]
        decreases |keys|
      {
        var key :| key in keys;
        entries := entries + [ledger[key]];
        keys := keys - {key};
      }
      BagOfLedger(legacy, ledger, journal, entries);
    }

    /** The sorted read the session functions fold over. */
    method ReadSorted() returns (entries: seq<Entry>)
      requires Valid()
      ensures entries == journal
    {
      var unsorted := ReadEntries();
      entries := SortBySequence(unsorted);
      WellFormedIsChained(legacy, journal);
      SortRestoresJournal(entries, journal);
    }

    /** The writes every append shares: one entry added, the metadata moved to it. */
    method Append(e: Entry)
      requires Valid() && Accepted(legacy, journal, e)
      requires !e.Body().Sale?
      modifies `orders, `ledger, `metadata, `journal
      ensures Valid() && journal == old(journal) + [e]
    {
      hide Accepted, Numbered, OrdersMatch, LedgerMatches, IntentsMatch, WellFormed;
      AppendFacts(legacy, journal, e);
      LedgerAppends(ledger, journal, e);
      OrdersUnchanged(orders, legacy, journal, e);
      NumberedAppends(firstOrder, firstReceipt, journal, e);
      SaleCountAppends(journal, e);
      IntentsAfterAppend(intents, direct, journal, e);
      ledger := ledger[e.Id() := e];
      metadata := metadata.(nextJournalSequence := e.Sequence() + 1, lastJournalHash := Some(e.hash));
      if e.Body().Closure? { metadata := metadata.(lastClosureEnd := Some(e.Body().closure.periodEnd)); }
      journal := journal + [e];
    }

    /** A sale adds its order and moves the two number sequences as well. */
    method AppendSale(e: Entry, prefix: string, receiptPrefix: string)
      requires Valid() && Accepted(legacy, journal, e) && e.Body().Sale?
      requires e.Body().order.orderNumber == SequenceNumber(prefix, metadata.nextOrderSequence)
      requires e.Body().order.receiptNumber == SequenceNumber(receiptPrefix, metadata.nextReceiptSequence)
      modifies `orders, `ledger, `metadata, `journal
      ensures WellFormed(legacy, journal) && LedgerMatches(ledger, journal) && OrdersMatch(orders, legacy, journal)
      ensures metadata == MetadataOf(firstOrder, firstReceipt, journal) && Numbered(firstOrder, firstReceipt, journal)
      ensures journal == old(journal) + [e] && orders == old(orders)[e.Body().order.id := SealedOrder(e)]
    {
      hide Accepted, Numbered, OrdersMatch, LedgerMatches, IntentsMatch, WellFormed, SequenceNumber;
      AppendFacts(legacy, journal, e);
      LedgerAppends(ledger, journal, e);
      OrdersAppend(orders, legacy, journal, e);
      assert HasNumber(e.Body().order.orderNumber, firstOrder + SaleCount(journal));
      assert HasNumber(e.Body().order.receiptNumber, firstReceipt + SaleCount(journal));
      NumberedAppends(firstOrder, firstReceipt, journal, e);
      SaleCountAppends(journal, e);
      orders := orders[e.Body().order.id := SealedOrder(e)];
      ledger := ledger[e.Id() := e];
      metadata := metadata.(nextOrderSequence := metadata.nextOrderSequence + 1,
                            nextReceiptSequence := metadata.nextReceiptSequence + 1,
                            nextJournalSequence := e.Sequence() + 1,
                            lastJournalHash := Some(e.hash));
      journal := journal + [e];
    }

    /** Whether a sale of this request would be accepted now. */
    ghost predicate Sellable(r: OrderRequest, sourceTerminal: string)
      reads this
    {
      && SequencesUsable(metadata)
      && Guard(legacy, journal, SaleEntry(r, sourceTerminal))
      && FindSale(journal, r.id).None?
    }

    ghost function SaleEntry(r: OrderRequest, sourceTerminal: string): Entry
      reads this
    {
      Envelope(journal, r.createdAt, sourceTerminal,
               Sale(BuildPersistedOrder(r, firstOrder + SaleCount(journal), firstReceipt + SaleCount(journal))))
    }

    /** createOrder: a sale without an intent. */
    method CreateOrder(r: OrderRequest, sourceTerminal: string) returns (created: Option<Order>)
      requires Valid()
      modifies this
      ensures Valid() && intents == old(intents)
      ensures created.Some? <==> old(Sellable(r, sourceTerminal))
      ensures created.Some? ==> journal == old(journal) + [old(SaleEntry(r, sourceTerminal))]
                                && created == Some(old(SaleEntry(r, sourceTerminal)).Body().order)
                                && orders == old(orders)[r.id := SealedOrder(old(SaleEntry(r, sourceTerminal)))]
                                && direct == old(direct) + {r.id}
      ensures created.Some? ==> KeepsRequest(created.value, r, old(metadata.nextOrderSequence), old(metadata.nextReceiptSequence))
      ensures created.Some? ==> RecordsSale(old(journal), journal, old(orders), orders, created.value, r.createdAt, sourceTerminal)
      ensures created.None? ==> unchanged(this)
    {
      hide KeepsRequest, RecordsSale, ValidOrder, WellFormed, Numbered, OrdersMatch, LedgerMatches, IntentsMatch, SequenceNumber, Accepted;
      created := None;
      var order := BuildPersistedOrder(r, metadata.nextOrderSequence, metadata.nextReceiptSequence);
      RequestIsKept(r, metadata.nextOrderSequence, metadata.nextReceiptSequence);
      var usable := NormalizeSequences(metadata);
      if !ValidNewOrder(order) || !usable { return; }
      if metadata.lastClosureEnd.Some? && order.paidAt < metadata.lastClosureEnd.value { return; }
      SoldOrNot(this, r.id);
      if r.id in orders { return; }
      var e := SealEntry(metadata, r.createdAt, sourceTerminal, Sale(order));
      assert e == SaleEntry(r, sourceTerminal);
      SaleIsRecorded(journal, orders, order, r.createdAt, sourceTerminal);
      SaleIsAccepted(legacy, journal, e);
      AppendSale(e, r.orderNumberPrefix, r.receiptNumberPrefix);
      direct := direct + {r.id};
      assert IntentsMatch(intents, direct, journal) by {
        DirectGrows(intents, old(direct), r.id, old(journal));
        IntentsAfterAppend(intents, direct, old(journal), e);
      }
      created := Some(order);
    }

    ghost function OpeningEntry(r: SessionRequest): Entry
      reads this
    {
      Envelope(journal, r.recordedAt, r.terminalId, SessionOpened(r.opening))
    }

    method OpenCashSession(r: SessionRequest) returns (result: Option<Entry>)
      requires Valid()
      modifies `orders, `ledger, `metadata, `journal
      ensures Valid()
      ensures KeyedOutcome(old(ledger), old(journal), journal, old(OpeningEntry(r)),
                old(OpeningEntry(r).Id() in ledger && ledger[OpeningEntry(r).Id()].Body() == SessionOpened(r.opening)),
                old(SequencesUsable(metadata) && Guard(legacy, journal, OpeningEntry(r))), result)
    {
      hide WellFormed, Numbered, OrdersMatch, IntentsMatch, Accepted, Sum, SessionsOf;
      var id := EntryId(SessionOpened(r.opening));
      var entries := ReadSorted();
      if id in ledger {
        return if ledger[id].Body() == SessionOpened(r.opening) then Some(ledger[id]) else None;
      }
      var usable := NormalizeSequences(metadata);
      if !usable || !CashAmount(r.opening.openingFloatCents) { return None; }
      if r.opening.periodStart > r.opening.createdAt || r.opening.createdAt != r.recordedAt { return None; }
      if metadata.lastClosureEnd.Some? && r.opening.periodStart != metadata.lastClosureEnd.value { return None; }
      var active := GetActiveCashSession(entries);
      if active.Some? || Blank(r.terminalId) { return None; }
      var e := SealEntry(metadata, r.recordedAt, r.terminalId, SessionOpened(r.opening));
      assert e == OpeningEntry(r);
      KeyedIsAccepted(legacy, ledger, journal, e);
      Append(e);
      return Some(e);
    }

    ghost function FloatEntry(r: FloatRequest): Entry
      reads this
    {
      Envelope(journal, r.recordedAt, r.terminalId, FloatUpdated(r.update))
    }

    method UpdateCashFloat(r: FloatRequest) returns (result: Option<Entry>)
      requires Valid()
      modifies `orders, `ledger, `metadata, `journal
      ensures Valid()
      ensures KeyedOutcome(old(ledger), old(journal), journal, old(FloatEntry(r)),
                old(FloatEntry(r).Id() in ledger && ledger[FloatEntry(r).Id()].Body() == FloatUpdated(r.update)),
                old(SequencesUsable(metadata) && Guard(legacy, journal, FloatEntry(r))), result)
    {
      hide WellFormed, Numbered, OrdersMatch, IntentsMatch, Accepted, Sum, SessionsOf;
      var id := EntryId(FloatUpdated(r.update));
      var entries := ReadSorted();
      if id in ledger {
        return if ledger[id].Body() == FloatUpdated(r.update) then Some(ledger[id]) else None;
      }
      var usable := NormalizeSequences(metadata);
      if !usable || !CashAmount(r.update.newOpeningFloatCents) { return None; }
      var active := GetActiveCashSession(entries);
      if active.None? || active.value.id != r.update.sessionId { return None; }
      if active.value.terminalId != r.terminalId { return None; }
      if active.value.openingFloatCents != r.update.previousOpeningFloatCents { return None; }
      var e := SealEntry(metadata, r.recordedAt, r.terminalId, FloatUpdated(r.update));
      assert e == FloatEntry(r);
      KeyedIsAccepted(legacy, ledger, journal, e);
      Append(e);
      return Some(e);
    }

    ghost function CorrectionEntry(r: CorrectionRequest, stored: StoredOrder): Entry
      reads this
    {
      Envelope(journal, r.recordedAt, r.terminalId, Correction(CorrectionOf(r, stored)))
    }

    method RecordCorrection(r: CorrectionRequest) returns (result: Option<Entry>)
      requires Valid()
      modifies `orders, `ledger, `metadata, `journal
      ensures Valid()
      ensures r.originalOrderId !in old(orders) ==> result.None? && journal == old(journal)
      ensures r.originalOrderId in old(orders) ==>
        KeyedOutcome(old(ledger), old(journal), journal, old(CorrectionEntry(r, orders[r.originalOrderId])),
          old(var id := "correction:" + r.operationId;
              id in ledger && ledger[id].Body().Correction? && SameCorrection(ledger[id].Body().correction, r)),
          old(SequencesUsable(metadata) && Guard(legacy, journal, CorrectionEntry(r, orders[r.originalOrderId]))), result)
    {
      hide WellFormed, Numbered, IntentsMatch, Accepted, CorrectionRule, PriorCorrections, LegacyValid, OrdersMatch, Guard,
           LastClosureEnd;
      if r.originalOrderId !in orders { return None; }
      var stored := orders[r.originalOrderId];
      OriginalStored(legacy, journal, orders, r.originalOrderId);
      var id := "correction:" + r.operationId;
      var entries := ReadEntries();
      if id in ledger {
        if !ledger[id].Body().Correction? { return None; }
        var c := ledger[id].Body().correction;
        var repeated := c.operationId == r.operationId && c.originalOrderId == r.originalOrderId && c.kind == r.kind
                        && c.reason == r.reason && c.amountDeltaCents == r.amountDeltaCents && c.refundLines == r.refundLines;
        return if repeated then Some(ledger[id]) else None;
      }
      var usable := NormalizeSequences(metadata);
      if !usable { return None; }
      CorrectionEntryGuard(legacy, journal, orders, r);
      if metadata.lastClosureEnd.Some? && r.recordedAt < metadata.lastClosureEnd.value { return None; }
      var ok := ValidateCorrection(r, stored, entries);
      PriorPermutes(entries, journal, r.originalOrderId);
      CorrectionRuleOrderIndependent(stored.order, PriorCorrections(entries, r.originalOrderId),
                                     PriorCorrections(journal, r.originalOrderId), CorrectionOf(r, stored));
      if !ok { return None; }
      var correction := SaleCorrection(r.operationId, stored.order.id, stored.order.orderNumber, stored.order.receiptNumber, r.kind,
                                       r.reason, r.amountDeltaCents, stored.order.paymentMethod,
                                       if stored.integrity.Some? then Some(stored.integrity.value.hash) else None, r.refundLines);
      var e := SealEntry(metadata, r.recordedAt, r.terminalId, Correction(correction));
      assert e == CorrectionEntry(r, stored);
      KeyedIsAccepted(legacy, ledger, journal, e);
      Append(e);
      return Some(e);
    }

    ghost function ClosureEntry(r: ClosureRequest): Entry
      reads this
    {
      Envelope(journal, r.recordedAt, r.terminalId, Closure(ClosureOf(journal, r)))
    }

    method ClosePeriod(r: ClosureRequest) returns (result: Option<Entry>)
      requires Valid()
      modifies `orders, `ledger, `metadata, `journal
      ensures Valid()
      ensures KeyedOutcome(old(ledger), old(journal), journal, old(ClosureEntry(r)),
                old(var id := "closure:" + r.operationId;
                    id in ledger && ledger[id].Body().Closure? && SameClosure(ledger[id].Body().closure, r)),
                old(SequencesUsable(metadata) && Guard(legacy, journal, ClosureEntry(r))
                    && (AsksSession(r) ==> r.openingFloatCents.Some?)), result)
    {
      hide WellFormed, Numbered, OrdersMatch, IntentsMatch, Accepted, ClosureTotals, Guard, ActiveSession, LastClosureEnd;
      var id := "closure:" + r.operationId;
      var entries := ReadEntries();
      if id in ledger {
        if !ledger[id].Body().Closure? { return None; }
        var c := ledger[id].Body().closure;
        var session := if c.session.Some? then Some(c.session.value.cashSessionId) else None;
        var float := if c.session.Some? then Some(c.session.value.openingFloatCents) else None;
        var repeated := c.operationId == r.operationId && c.periodStart == r.periodStart && c.periodEnd == r.periodEnd
                        && session == r.cashSessionId && float == r.openingFloatCents;
        return if repeated then Some(ledger[id]) else None;
      }
      var usable := NormalizeSequences(metadata);
      if !usable { return None; }
      ClosureEntryGuard(legacy, journal, r);
      if r.periodStart >= r.periodEnd || r.periodEnd > r.recordedAt { return None; }
      if metadata.lastClosureEnd.Some? && r.periodStart != metadata.lastClosureEnd.value { return None; }
      var sorted := ReadSorted();
      var active := GetActiveCashSession(sorted);
      if r.cashSessionId.Some? && r.cashSessionId.value != "" {
        if active.None? || active.value.id != r.cashSessionId.value || active.value.periodStart != r.periodStart
           || r.openingFloatCents != Some(active.value.openingFloatCents) || active.value.terminalId != r.terminalId {
          return None;
        }
      }
      var totals := CalculateClosureTotals(entries, r.periodStart, r.periodEnd);
      TotalsOrderIndependent(entries, journal, r.periodStart, r.periodEnd);
      var session := None;
      if r.cashSessionId.Some? && r.cashSessionId.value != "" {
        var float := r.openingFloatCents.value;
        if !CashAmount(float) || !SafeInteger(totals.cashCents) || !SafeInteger(float + totals.cashCents) { return None; }
        session := Some(ClosedSession(r.cashSessionId.value, float, float + totals.cashCents));
      }
      var e := SealEntry(metadata, r.recordedAt, r.terminalId,
                         Closure(SalesClosure(r.operationId, r.periodStart, r.periodEnd, totals, session)));
      assert e == ClosureEntry(r);
      KeyedIsAccepted(legacy, ledger, journal, e);
      Append(e);
      return Some(e);
    }

    // ----- Checkout -----

    method CreateCheckoutIntent(i: Intent) returns (created: bool)
      requires Valid()
      modifies `intents
      ensures Valid() && Evolves(old(intents), intents)
      ensures created <==> ValidIntent(i) && i.status == PendingPayment && i.id !in old(intents)
      ensures intents == if created then old(intents)[i.id := i] else old(intents)
    {
      hide WellFormed, Numbered, OrdersMatch, LedgerMatches, ValidIntent;
      created := CheckIntent(i);
      if i.status != PendingPayment || i.id in intents { created := false; }
      if created {
        IntentUpdated(intents, direct, journal, i);
        intents := intents[i.id := i];
      }
    }

    /** transitionCheckoutIntent, for each of its three callers. */
    method Transition(id: string, now: int, next: (Intent, int) -> Option<Intent>) returns (result: Option<Intent>)
      requires Valid()
      requires next == MarkToVerify || next == Confirm || next == Abandon
      modifies `intents
      ensures Valid() && Evolves(old(intents), intents)
      ensures result == if id in old(intents) then next(old(intents)[id], now) else None
      ensures intents == if result.Some? then old(intents)[id := result.value] else old(intents)
    {
      hide WellFormed, Numbered, OrdersMatch, LedgerMatches, ValidIntent;
      if id !in intents { return None; }
      result := next(intents[id], now);
      if result.Some? {
        TransitionsAdvance(intents[id], now);
        TransitionsKeepValid(intents[id], now);
        IntentUpdated(intents, direct, journal, result.value);
        intents := intents[id := result.value];
      }
    }

    ghost function IntentEntry(i: Intent): Entry
      requires i.paymentConfirmedAt.Some?
      reads this
    {
      Envelope(journal, i.paymentConfirmedAt.value, i.sourceTerminalId,
               Sale(OrderOf(i, i.paymentConfirmedAt.value, firstOrder + SaleCount(journal), firstReceipt + SaleCount(journal))))
    }

    /** An intent becomes a sale when it is confirmed, its id is unsold and no closure has passed its date. */
    ghost predicate Finalizable(i: Intent)
      reads this
    {
      && i.status == PaymentConfirmed
      && i.paymentConfirmedAt.Some?
      && SequencesUsable(metadata)
      && i.id !in orders
      && NotBefore(LastClosureEnd(journal), i.paymentConfirmedAt.value)
    }

    method FinalizeCheckoutIntent(id: string, now: int) returns (sale: Option<Order>)
      requires Valid()
      modifies `orders, `ledger, `metadata, `journal, `intents
      ensures Valid() && Evolves(old(intents), intents) && old(journal) <= journal
      ensures sale.Some? <==> id in old(intents) && (old(intents)[id].status == Finalized || old(Finalizable(intents[id])))
      ensures sale.Some? && old(intents)[id].status == Finalized ==> unchanged(this) && id in orders && sale == Some(orders[id].order)
      ensures sale.Some? && old(intents)[id].status != Finalized ==>
        && journal == old(journal) + [old(IntentEntry(intents[id]))]
        && intents == old(intents)[id := Finalize(old(intents)[id], now)]
        && orders == old(orders)[id := SealedOrder(old(IntentEntry(intents[id])))]
        && sale == Some(orders[id].order)
      ensures sale.Some? && old(intents)[id].status != Finalized ==>
        && KeepsIntent(sale.value, old(intents)[id], old(metadata.nextOrderSequence), old(metadata.nextReceiptSequence))
        && RecordsSale(old(journal), journal, old(orders), orders, sale.value, sale.value.paidAt, old(intents)[id].sourceTerminalId)
      ensures sale.None? ==> unchanged(this)
    {
      hide KeepsIntent, RecordsSale, WellFormed, Numbered, LedgerMatches, OrdersMatch, IntentsMatch, ValidIntent, ValidOrder, SequenceNumber, Accepted,
           LegacyValid, FindSale, Evolves, Later, SoldAs, Finalizable;
      SameIntents(intents);
      if id !in intents { return None; }
      var i := intents[id];
      IntentFacts(this, id);
      if i.status == Finalized {
        if i.finalizedOrderId.None? || i.finalizedOrderId.value !in orders { return None; }
        return Some(orders[i.finalizedOrderId.value].order);
      }
      FinalizableIs(this, i);
      if i.status != PaymentConfirmed || i.paymentConfirmedAt.None? { return None; }
      var usable := NormalizeSequences(metadata);
      if !usable { return None; }
      var order := OrderOf(i, i.paymentConfirmedAt.value, metadata.nextOrderSequence, metadata.nextReceiptSequence);
      IntentIsKept(i, metadata.nextOrderSequence, metadata.nextReceiptSequence);
      IntentOrderIsValid(i, i.paymentConfirmedAt.value, metadata.nextOrderSequence, metadata.nextReceiptSequence);
      if metadata.lastClosureEnd.Some? && order.paidAt < metadata.lastClosureEnd.value { return None; }
      SoldOrNot(this, id);
      if id in orders { return None; }
      var e := SealEntry(metadata, order.createdAt, i.sourceTerminalId, Sale(order));
      assert e == IntentEntry(i);
      SaleIsRecorded(journal, orders, order, order.createdAt, i.sourceTerminalId);
      SaleIsAccepted(legacy, journal, e);
      IntentsAfterFinalize(intents, direct, journal, e, now);
      OneIntentAdvances(intents, i, now);
      AppendSale(e, i.orderNumberPrefix, i.receiptNumberPrefix);
      intents := intents[id := Finalize(i, now)];
      return Some(order);
    }
  }

  lemma {:induction false} SameIntents(intents: map<string, Intent>)
    ensures Evolves(intents, intents)
  {
  }

  lemma {:induction false} OneIntentAdvances(intents: map<string, Intent>, i: Intent, now: int)
    requires i.id in intents && intents[i.id] == i && i.status == PaymentConfirmed
    ensures Evolves(intents, intents[i.id := Finalize(i, now)])
  {
  }

  /** What the invariant says of one stored intent. */
  lemma {:induction false} IntentFacts(repository: OrderRepository, id: string)
    requires repository.Valid() && id in repository.intents
    ensures var i := repository.intents[id];
            && i.id == id && ValidIntent(i)
            && (i.status == Finalized ==> i.finalizedOrderId == Some(id) && id in repository.orders)
  {
  }

  lemma {:induction false} FinalizableIs(repository: OrderRepository, i: Intent)
    requires repository.metadata == MetadataOf(repository.firstOrder, repository.firstReceipt, repository.journal)
    ensures repository.Finalizable(i) <==>
            && i.status == PaymentConfirmed
            && i.paymentConfirmedAt.Some?
            && SequencesUsable(repository.metadata)
            && i.id !in repository.orders
            && NotBefore(repository.metadata.lastClosureEnd, i.paymentConfirmedAt.value)
  {
  }

  /**
   The sale of an intent: one journal entry when the intent is finalized, none before, for
   every intent whose id was not also sold directly.
   */
  lemma {:induction false} OneSalePerFinalizedIntent(legacy: Legacy, journal: seq<Entry>, intents: map<string, Intent>, direct: set<string>, id: string)
    requires WellFormed(legacy, journal) && IntentsMatch(intents, direct, journal)
    requires id in intents && id !in direct
    ensures intents[id].status == Finalized <==> exists n :: 0 <= n < |journal| && SaleOf(journal[n], id)
    ensures forall n, m :: 0 <= n < |journal| && 0 <= m < |journal| && SaleOf(journal[n], id) && SaleOf(journal[m], id) ==> n == m
  {
    hide ValidIntent, WellFormed, Accepted;
    if intents[id].status == Finalized {
      var sale := FindSale(journal, id).value;
      var n :| 0 <= n < |journal| && journal[n] == sale;
      assert SaleOf(journal[n], id);
    }
    forall n | 0 <= n < |journal| && SaleOf(journal[n], id)
      ensures FindSale(journal, id).Some?
      ensures forall m :: 0 <= m < |journal| && SaleOf(journal[m], id) ==> m == n
    {
      SaleIsUnique(legacy, journal, n);
    }
  }

  predicate SaleOf(e: Entry, id: string) { e.Body().Sale? && e.Body().order.id == id }

  lemma {:induction false} IntentOrderIsValid(i: Intent, paidAt: int, orderSequence: nat, receiptSequence: nat)
    requires ValidIntent(i)
    ensures ValidNewOrder(OrderOf(i, paidAt, orderSequence, receiptSequence))
    ensures i.sourceTerminalId == i.terminalId
  {
  }

  /** A keyed entry whose id is not stored yet is accepted exactly when its guard holds. */
  lemma {:induction false} KeyedIsAccepted(legacy: Legacy, ledger: map<string, Entry>, journal: seq<Entry>, e: Entry)
    requires LedgerMatches(ledger, journal) && Linked(journal, e) && Guard(legacy, journal, e) && e.Id() !in ledger
    ensures Accepted(legacy, journal, e)
  {
  }

  /** The entry a writer seals from the stored metadata. */
  function SealEntry(m: Metadata, recordedAt: int, terminalId: string, body: Body): Entry {
    var content := Content(LEDGER_SCHEMA_VERSION, EntryId(body), m.nextJournalSequence, recordedAt, m.lastJournalHash, terminalId, body);
    Entry(content, Digest(content))
  }

  lemma {:induction false} SaleIsAccepted(legacy: Legacy, journal: seq<Entry>, e: Entry)
    requires WellFormed(legacy, journal) && Linked(journal, e) && Guard(legacy, journal, e)
    requires e.Body().Sale? && FindSale(journal, e.Body().order.id).None?
    ensures Accepted(legacy, journal, e)
  {
    hide Guard;
    forall n | 0 <= n < |journal| ensures journal[n].Id() != e.Id() {
      assert Accepted(legacy, journal[..n], journal[n]);
      assert journal[n] in journal;
      assert journal[n].Body().Sale? ==> OperationKey(journal[n].Body()) != OperationKey(e.Body());
      if journal[n].Id() == e.Id() {
        EntryIdInjective(journal[n].Body(), e.Body());
      }
    }
  }

  lemma {:induction false} SoldOrNot(repository: OrderRepository, id: string)
    requires repository.Valid()
    ensures id in repository.orders <==> id in repository.legacy || FindSale(repository.journal, id).Some?
  {
  }

  lemma {:induction false} AppendFacts(legacy: Legacy, journal: seq<Entry>, e: Entry)
    requires WellFormed(legacy, journal) && Accepted(legacy, journal, e)
    ensures WellFormed(legacy, journal + [e])
    ensures FreshId(journal, e.Id()) && e.Sequence() == |journal| + 1
    ensures e.Body().Sale? ==> e.Body().order.id !in legacy
  {
    hide Guard, SaleGuard;
    WellFormedAppend(legacy, journal, e);
    if e.Body().Sale? { assert SaleGuard(legacy, journal, e, e.Body().order) by { GuardOfSale(legacy, journal, e); } SaleGuardId(legacy, journal, e); }
  }

  lemma {:induction false} GuardOfSale(legacy: Legacy, journal: seq<Entry>, e: Entry)
    requires Guard(legacy, journal, e) && e.Body().Sale?
    ensures SaleGuard(legacy, journal, e, e.Body().order)
  {
  }

  lemma {:induction false} SaleGuardId(legacy: Legacy, journal: seq<Entry>, e: Entry)
    requires e.Body().Sale? && SaleGuard(legacy, journal, e, e.Body().order)
    ensures e.Body().order.id !in legacy
  {
  }

  /** A read of every key once is a rearrangement of the journal. */
  lemma {:induction false} BagOfLedger(legacy: Legacy, ledger: map<string, Entry>, journal: seq<Entry>, entries: seq<Entry>)
    requires WellFormed(legacy, journal) && LedgerMatches(ledger, journal)
    requires forall e :: e in entries <==> e.Id() in ledger && ledger[e.Id()] == e
    requires forall i, k :: 0 <= i < k < |entries| ==> entries[i] != entries[k]
    ensures multiset(entries) == multiset(journal)
  {
    hide Accepted, WellFormed;
    forall i, k | 0 <= i < k < |journal| ensures journal[i] != journal[k] {
      IdsAreDistinct(legacy, journal, i, k);
    }
    DistinctMultiset(entries, journal);
  }

  // ----- A session without an id -----

  /** What the repository lets through without its services: a session with an empty id, then a closure. */
  function BlankOpening(): Entry { Envelope([], 0, "till", SessionOpened(SessionOpening("", 0, 0, 0))) }

  function BlankSessionRun(): seq<Entry> {
    var r := ClosureRequest("operation", 0, 20, None, None, 20, "till");
    [BlankOpening(), Envelope([BlankOpening()], 20, "till", Closure(ClosureOf([BlankOpening()], r)))]
  }

  /** After it the native store sees no session and the other three forms see one. */
  lemma {:induction false} BlankSessionDisagrees()
    ensures WellFormed(map[], BlankSessionRun()) && BlankSessionThenClosure(BlankSessionRun())
    ensures NativeActive(BlankSessionRun()).None? && AuditorActive(BlankSessionRun()).Some?
  {
    hide Guard;
    var e, closing := BlankOpening(), BlankSessionRun()[1];
    assert [e][..0] == [] && [e, closing][..1] == [e] && [e, closing][..0] == [];
    BlankSessionIsAllowed();
    ClosureIdDiffers(closing, e);
    forall n | 0 <= n < 2 ensures Accepted(map[], BlankSessionRun()[..n], BlankSessionRun()[n]) {
    }
    ActiveOfTwo(e, closing);
  }

  lemma {:induction false} BlankSessionIsAllowed()
    ensures Guard(map[], [], BlankOpening()) && Guard(map[], [BlankOpening()], BlankSessionRun()[1])
  {
    Visible("till");
    assert [BlankOpening()][..0] == [];
    assert LastClosureEnd([BlankOpening()]) == None;
    ClosureEntryGuard(map[], [BlankOpening()], ClosureRequest("operation", 0, 20, None, None, 20, "till"));
  }

  lemma {:induction false} ClosureIdDiffers(a: Entry, b: Entry)
    requires a.Id() == EntryId(a.Body()) && b.Id() == EntryId(b.Body()) && a.Body().Closure? && b.Body().SessionOpened?
    ensures a.Id() != b.Id()
  {
    if EntryId(a.Body()) == EntryId(b.Body()) { EntryIdInjective(a.Body(), b.Body()); }
  }

  lemma {:induction false} ActiveOfTwo(e: Entry, closing: Entry)
    requires e.Body().SessionOpened? && e.Body().session.sessionId == "" && closing.Body().Closure? && closing.Body().closure.session.None?
    ensures NativeActive([e, closing]).None? && AuditorActive([e, closing]).Some? && BlankSessionThenClosure([e, closing])
  {
    assert [e, closing][..1] == [e] && [e][..0] == [];
  }

  // ----- A paid intent no one can finish -----

  const PAID_ITEM := Item("line", "coffee", "Coffee", 100, 1, 20)
  const PAID_INTENT := Intent("intent", [PAID_ITEM], 1, 100, Cash, PendingPayment, "till", "A", "till", "A", "R-A-", 0, 0, None, None, None)

  lemma {:induction false} PaidIntentIsValid()
    ensures ValidIntent(PAID_INTENT)
  {
    var items := [PAID_ITEM];
    CostUnits(PAID_ITEM.unitPriceCents);
    assert items[..0] == [];
    assert Sum(items, Quantity) == Quantity(PAID_ITEM) == 1;
    assert Sum(items, Price) == Price(PAID_ITEM) == 100;
    assert "R-" + "A" + "-" == "R-A-";
    Visible("intent");
    Visible("till");
    Visible("A");
    Visible("R-A-");
    Visible("line");
    Visible("coffee");
    Visible("Coffee");
  }

  lemma {:induction false} Visible(text: string)
    requires text != "" && text[0] !in WHITESPACE
    ensures !Blank(text)
  {
    assert text[0] in text;
  }

  /** Nothing finishes this intent: it is paid, unsold, and a closure has passed its date. */
  ghost predicate Stuck(repository: OrderRepository, id: string)
    reads repository
  {
    && id in repository.intents
    && var i := repository.intents[id];
       && i.status == PaymentConfirmed && i.paymentConfirmedAt.Some? && FindSale(repository.journal, id).None?
       && !NotBefore(LastClosureEnd(repository.journal), i.paymentConfirmedAt.value)
  }

  /** A session opened on the till, and the closure the service asks for at its end. */
  function OpeningAt(opensAt: int): Entry {
    Envelope([], opensAt, PAID_INTENT.terminalId, SessionOpened(SessionOpening("session", opensAt, 0, opensAt)))
  }

  function ClosingOf(opensAt: int, periodEnd: int): ClosureRequest {
    ClosureRequest("operation", opensAt, periodEnd, Some("session"), Some(0), periodEnd, PAID_INTENT.terminalId)
  }

  lemma {:induction false} OpeningIsAllowed(opensAt: int)
    ensures Guard(map[], [], OpeningAt(opensAt))
  {
    Visible("till");
  }

  lemma {:induction false} NothingSold(e: Entry, start: int, end: int)
    requires !Financial(e)
    ensures ClosureTotals([e], start, end).cashCents == 0
  {
    SumZero([e], PaymentsIn(Cash, start, end));
  }

  lemma {:induction false} ClosingIsAllowed(opensAt: int, periodEnd: int)
    requires opensAt < periodEnd
    ensures var r, e := ClosingOf(opensAt, periodEnd), OpeningAt(opensAt);
            var closing := Envelope([e], r.recordedAt, r.terminalId, Closure(ClosureOf([e], r)));
            && Guard(map[], [e], closing) && closing.Id() != e.Id()
            && LastClosureEnd([e, closing]) == Some(periodEnd) && FindSale([e, closing], PAID_INTENT.id).None?
  {
    hide Guard;
    var r, e := ClosingOf(opensAt, periodEnd), OpeningAt(opensAt);
    assert [e][..0] == [];
    var session := CashSession("session", "till", opensAt, opensAt, 0, None);
    assert SessionsOf([]) == [];
    assert SessionsOf([e]) == [] + [session] == [session];
    assert LastOpen([session]) == Some(session);
    assert ActiveSession([e]) == Some(session);
    NothingSold(e, opensAt, periodEnd);
    assert LastClosureEnd([e]) == None;
    ClosureEntryGuard(map[], [e], r);
    var closing := Envelope([e], r.recordedAt, r.terminalId, Closure(ClosureOf([e], r)));
    ClosureIdDiffers(closing, e);
    assert [e, closing][..1] == [e];
  }

  /** Ids and counters of a store with at most one entry. */
  lemma {:induction false} SmallStore(repository: OrderRepository)
    requires repository.Valid() && |repository.journal| <= 1 && repository.firstOrder == repository.firstReceipt == 1
    requires forall e :: e in repository.journal ==> !e.Body().Sale?
    ensures SequencesUsable(repository.metadata)
    ensures forall id :: id in repository.ledger ==> |repository.journal| == 1 && id == repository.journal[0].Id()
  {
    hide OrdersMatch, IntentsMatch, Numbered, WellFormed;
    if |repository.journal| == 1 {
      assert repository.journal[0] in repository.journal;
      assert repository.journal[..0] == [];
      assert SaleCount(repository.journal) == 0;
    }
  }

  /** A new store with an open session in which one intent is paid at the given date. */
  method PayIntent(opensAt: int, paidAt: int) returns (repository: OrderRepository)
    ensures fresh(repository) && repository.Valid() && repository.legacy == map[] && repository.journal == [OpeningAt(opensAt)]
    ensures repository.firstOrder == repository.firstReceipt == 1 && PAID_INTENT.id in repository.intents
    ensures var i := repository.intents[PAID_INTENT.id]; i.status == PaymentConfirmed && i.paymentConfirmedAt == Some(paidAt)
  {
    hide OrderRepository.Valid, ValidIntent, Evolves, Guard, SequencesUsable;
    repository := new OrderRepository(map[], 1, 1);
    SmallStore(repository);
    OpeningIsAllowed(opensAt);
    var opening := repository.OpenCashSession(
      SessionRequest(SessionOpening("session", opensAt, 0, opensAt), opensAt, PAID_INTENT.terminalId));
    PaidIntentIsValid();
    var created := repository.CreateCheckoutIntent(PAID_INTENT);
    var marked := repository.Transition(PAID_INTENT.id, paidAt, MarkToVerify);
    var confirmed := repository.Transition(PAID_INTENT.id, paidAt, Confirm);
  }

  /**
   The calls of one day reach a stuck intent from an empty store: a session is opened, the
   intent is paid, the session is closed over the payment, and then the intent can neither
   be finalized nor abandoned.
   */
  method CloseBeforeFinalizing(opensAt: int, paidAt: int, periodEnd: int, now: int)
    returns (repository: OrderRepository, sale: Option<Order>, abandoned: Option<Intent>)
    requires opensAt < periodEnd && paidAt < periodEnd
    ensures fresh(repository) && repository.Valid() && Stuck(repository, PAID_INTENT.id)
    ensures sale.None? && abandoned.None?
  {
    hide OrderRepository.Valid, ValidIntent, ClosureTotals, Guard, SequencesUsable, Evolves, FindSale, LastClosureEnd;
    repository := PayIntent(opensAt, paidAt);
    var r := ClosingOf(opensAt, periodEnd);
    SmallStore(repository);
    ClosingIsAllowed(opensAt, periodEnd);
    ghost var closing := repository.ClosureEntry(r);
    var closed := repository.ClosePeriod(r);
    assert repository.journal == [OpeningAt(opensAt), closing];
    sale := repository.FinalizeCheckoutIntent(PAID_INTENT.id, now);
    abandoned := repository.Transition(PAID_INTENT.id, now, Abandon);
  }
}
