/**
 The services the till calls (src/services/orderService.ts:94-126, checkoutService.ts:38-101,
 cashSessionService.ts:31-93, salesLedgerService.ts:44-170): what they put into the requests
 they make of the repository. Fresh ids are parameters.
 */
module Services {
  import opened Ledger
  import opened Sums
  import opened Closures
  import opened CashSessions
  import opened Refunds
  import opened Journal
  import opened Checkout
  import opened Numbers
  import opened Repository
  import opened Continuation
  import opened Vat
  import Server

  /** The configured terminal. */
  datatype Till = Till(terminalId: string, terminalCode: string)

  datatype Selection = Selection(originalLineId: string, quantity: int)

  /** `receiptDay` is the day of the receipt prefix; `newId` is what createId returns. */
  datatype Call =
    | PlaceOrder(newId: string, items: seq<Item>, paymentMethod: PaymentMethod, createdAt: int, receiptDay: string)
    | CreateIntent(newId: string, items: seq<Item>, paymentMethod: PaymentMethod, createdAt: int, receiptDay: string)
    | BeginPayment(id: string, now: int)
    | ConfirmPayment(id: string, now: int)
    | AbandonPayment(id: string, now: int)
    | FinalizeSale(id: string, now: int)
    | OpenSession(newId: string, openingFloatCents: int, createdAt: int)
    | UpdateOpeningFloat(newId: string, newOpeningFloatCents: int, updatedAt: int)
    | CancelSale(newId: string, originalOrderId: string, reason: string, recordedAt: int)
    | RefundSale(newId: string, originalOrderId: string, selections: seq<Selection>, reason: string, recordedAt: int)
    | AdjustSale(newId: string, originalOrderId: string, amountDeltaCents: int, reason: string, recordedAt: int)
    | CloseSession(newId: string, periodStart: int, periodEnd: int, recordedAt: int)

  // ----- The requests -----

  function OrderRequestOf(till: Till, id: string, items: seq<Item>, means: PaymentMethod, at: int, receiptDay: string): OrderRequest {
    OrderRequest(id, till.terminalId, means, at, items, Sum(items, Quantity), Sum(items, Price), at, till.terminalCode,
                 "R-" + till.terminalCode + "-" + receiptDay)
  }

  function IntentOf(till: Till, id: string, items: seq<Item>, means: PaymentMethod, at: int, receiptDay: string): Intent {
    Intent(id, items, Sum(items, Quantity), Sum(items, Price), means, PendingPayment, till.terminalId, till.terminalCode,
           till.terminalId, till.terminalCode, "R-" + till.terminalCode + "-" + receiptDay, at, at, None, None, None)
  }

  /** The earliest dated sale or correction. */
  function FirstFinancial(journal: seq<Entry>): Option<int> {
    if journal == [] then None
    else
      var before, e := FirstFinancial(journal[..|journal| - 1]), journal[|journal| - 1];
      if Financial(e) && (before.None? || FinancialDate(e) < before.value) then Some(FinancialDate(e)) else before
  }

  function SessionPeriodStart(journal: seq<Entry>, createdAt: int): int {
    if LastClosureEnd(journal).Some? then LastClosureEnd(journal).value
    else
      var first := FirstFinancial(journal);
      if first.Some? && first.value < createdAt then first.value else createdAt
  }

  /** buildRefundLines, which throws before it reaches the repository. */
  predicate Selectable(items: seq<Item>, selections: seq<Selection>) {
    && selections != []
    && (forall i, k :: 0 <= i < k < |selections| ==> selections[i].originalLineId != selections[k].originalLineId)
    && forall i :: 0 <= i < |selections| ==> SelectionFits(items, selections[i])
  }

  predicate SelectionFits(items: seq<Item>, s: Selection) {
    var found := FindItem(items, s.originalLineId);
    && !Blank(s.originalLineId)
    && 0 < s.quantity <= MAX_SAFE_INTEGER
    && found.Some? && 0 <= found.value.vatRate
    && s.quantity <= found.value.quantity
  }

  function BuildRefundLines(items: seq<Item>, selections: seq<Selection>, prior: seq<SaleCorrection>): (lines: seq<RefundLine>)
    requires Selectable(items, selections)
    ensures |lines| == |selections|
  {
    seq(|selections|, i requires 0 <= i < |selections| =>
      assert SelectionFits(items, selections[i]);
      BuildLine(FindItem(items, selections[i].originalLineId).value, selections[i].quantity,
                RefundedQuantity(prior, selections[i].originalLineId)))
  }

  function CorrectionBy(till: Till, newId: string, orderId: string, kind: CorrectionType, reason: string, amount: int,
                      lines: Option<seq<RefundLine>>, at: int): Operation
  {
    RecordCorrection(CorrectionRequest(newId, orderId, kind, Trim(reason), amount, lines, at, till.terminalId))
  }

  /** The request a call makes of the repository; None when it throws or has nothing to do. */
  function Request(s: State, till: Till, call: Call): Option<Operation> {
    match call
    case PlaceOrder(newId, items, means, at, day) =>
      Some(CreateOrder(OrderRequestOf(till, newId, items, means, at, day), till.terminalId))
    case CreateIntent(newId, items, means, at, day) => Some(CreateCheckoutIntent(IntentOf(till, newId, items, means, at, day)))
    case BeginPayment(id, now) => Some(MarkIntentToVerify(id, now))
    case ConfirmPayment(id, now) => Some(ConfirmIntentPayment(id, now))
    case AbandonPayment(id, now) => Some(AbandonIntent(id, now))
    case FinalizeSale(id, now) => Some(FinalizeIntent(id, now))
    case OpenSession(newId, float, at) =>
      if !CashAmount(float) || ActiveSession(s.journal).Some? then None
      else Some(OpenCashSession(SessionRequest(SessionOpening(newId, SessionPeriodStart(s.journal, at), float, at), at, till.terminalId)))
    case UpdateOpeningFloat(newId, float, at) =>
      var active := ActiveSession(s.journal);
      if !CashAmount(float) || active.None? || active.value.terminalId != till.terminalId || active.value.openingFloatCents == float then None
      else Some(UpdateCashFloat(FloatRequest(FloatUpdate(newId, active.value.id, active.value.openingFloatCents, float, at), at, till.terminalId)))
    case CancelSale(newId, orderId, reason, at) =>
      (match StoredIn(s.legacy, s.journal, orderId)
       case None => None
       case Some(stored) => Some(CorrectionBy(till, newId, orderId, Cancellation, reason, -stored.order.totalCents, None, at)))
    case RefundSale(newId, orderId, selections, reason, at) =>
      (match StoredIn(s.legacy, s.journal, orderId)
       case None => None
       case Some(stored) =>
         if !FreshId(s.journal, "correction:" + newId) || !Selectable(stored.order.items, selections) then None
         else
           var lines := BuildRefundLines(stored.order.items, selections, PriorCorrections(s.journal, orderId));
           Some(CorrectionBy(till, newId, orderId, Refund, reason, -Sum(lines, Gross), Some(lines), at)))
    case AdjustSale(newId, orderId, amount, reason, at) => Some(CorrectionBy(till, newId, orderId, Adjustment, reason, amount, None, at))
    case CloseSession(newId, start, end, at) =>
      var active := ActiveSession(s.journal);
      if !(start < end <= at) || active.None? || active.value.terminalId != till.terminalId || active.value.periodStart != start then None
      else Some(ClosePeriod(ClosureRequest(newId, start, end, Some(active.value.id), Some(active.value.openingFloatCents), at, till.terminalId)))
  }

  /** One call on a till, whose identity may change between calls. */
  datatype Use = Use(till: Till, call: Call)

  function Serve(s: State, uses: seq<Use>): State {
    if uses == [] then s
    else
      var before, last := Serve(s, uses[..|uses| - 1]), uses[|uses| - 1];
      match Request(before, last.till, last.call) case None => before case Some(op) => Next(before, op)
  }

  /** createId never returns a blank id. */
  predicate Named(uses: seq<Use>) { forall i :: 0 <= i < |uses| ==> CallNamed(uses[i].call) }

  predicate CallNamed(call: Call) {
    (call.PlaceOrder? || call.CreateIntent? || call.OpenSession? || call.UpdateOpeningFloat? || call.CancelSale?
     || call.RefundSale? || call.AdjustSale? || call.CloseSession?) ==> !Blank(call.newId)
  }

  // ----- What the server asks of an entry and the repository does not look at -----

  predicate Shaped(e: Entry) {
    match e.Body()
    case Sale(order) => order.terminalId == e.content.terminalId && !Blank(order.orderNumber) && !Blank(order.receiptNumber)
    case Correction(c) =>
      && !Blank(c.originalOrderId) && !Blank(c.originalOrderNumber) && !Blank(c.originalReceiptNumber)
      && (c.refundLines.Some? ==> c.kind.Refund?)
    case SessionOpened(session) => !Blank(session.sessionId)
    case FloatUpdated(u) => !Blank(u.operationId) && !Blank(u.sessionId) && u.updatedAt == e.RecordedAt()
    case Closure(c) => !Blank(c.operationId) && (c.session.Some? ==> !Blank(c.session.value.cashSessionId))
  }

  ghost predicate AllShaped(journal: seq<Entry>) { forall n :: 0 <= n < |journal| ==> Shaped(journal[n]) }

  lemma {:induction false} ServerOnlyIs(journal: seq<Entry>, e: Entry)
    ensures Server.ServerOnly(journal, e) <==>
              Shaped(e) && (e.Body().Closure? ==> Server.SumsSafe(journal, e.Body().closure.periodStart, e.Body().closure.periodEnd))
  {
    hide Server.SumsSafe;
  }

  /** Sales older than the journal carry their numbers. */
  ghost predicate LegacyNamed(legacy: Legacy) {
    forall id :: id in legacy ==> !Blank(legacy[id].orderNumber) && !Blank(legacy[id].receiptNumber)
  }

  /** A state the services can reach. */
  ghost predicate Served(s: State) {
    && LegacyValid(s.legacy) && LegacyNamed(s.legacy)
    && WellFormed(s.legacy, s.journal) && AllShaped(s.journal)
    && forall id :: id in s.intents ==> ValidIntent(s.intents[id]) && s.intents[id].id == id
  }

  /** A printed number is never blank. */
  lemma {:induction false} NumberIsVisible(prefix: string, sequence: nat)
    ensures !Blank(SequenceNumber(prefix, sequence))
  {
    var padded := PadStart(Decimal(sequence), 4);
    var text := SequenceNumber(prefix, sequence);
    assert text[|prefix|] == '-';
    NotBlank(text, |prefix|);
  }

  lemma {:induction false} SessionsAreNamed(journal: seq<Entry>)
    requires AllShaped(journal)
    ensures forall k :: 0 <= k < |SessionsOf(journal)| ==> !Blank(SessionsOf(journal)[k].id)
  {
    hide Blank;
    if journal != [] {
      SessionsAreNamed(journal[..|journal| - 1]);
      assert Shaped(journal[|journal| - 1]);
    }
  }

  lemma {:induction false} ActiveIsNamed(journal: seq<Entry>)
    requires AllShaped(journal)
    ensures ActiveSession(journal).Some? ==> !Blank(ActiveSession(journal).value.id)
  {
    hide Blank;
    SessionsAreNamed(journal);
    LastOpenIsOne(SessionsOf(journal));
  }

  lemma {:induction false} LastOpenIsOne(sessions: seq<CashSession>)
    ensures LastOpen(sessions).Some? ==> LastOpen(sessions).value in sessions
  {
    if sessions != [] { LastOpenIsOne(sessions[..|sessions| - 1]); }
  }

  lemma {:induction false} StoredIsNamed(s: State, id: string)
    requires Served(s) && StoredIn(s.legacy, s.journal, id).Some?
    ensures var order := StoredIn(s.legacy, s.journal, id).value.order;
            !Blank(order.id) && !Blank(order.orderNumber) && !Blank(order.receiptNumber)
  {
    hide Blank, WellFormed;
    if id !in s.legacy {
      var sale := FindSale(s.journal, id).value;
      var n :| 0 <= n < |s.journal| && s.journal[n] == sale;
      assert Shaped(s.journal[n]);
      SoldOrderIsValid(s.legacy, s.journal, n);
    }
  }

  /** What a request has to carry for its entry to be one the server reads. */
  predicate RequestShaped(op: Operation) {
    match op
    case CreateOrder(r, sourceTerminal) => r.terminalId == sourceTerminal
    case OpenCashSession(r) => !Blank(r.opening.sessionId)
    case UpdateCashFloat(r) => !Blank(r.update.operationId) && !Blank(r.update.sessionId) && r.update.updatedAt == r.recordedAt
    case RecordCorrection(r) => r.refundLines.Some? ==> r.kind.Refund?
    case ClosePeriod(r) => !Blank(r.operationId)
    case _ => true
  }

  /** Every request of a service carries it. */
  lemma {:induction false} RequestsAreShaped(s: State, till: Till, call: Call)
    requires Served(s) && CallNamed(call) && Request(s, till, call).Some?
    ensures RequestShaped(Request(s, till, call).value)
  {
    hide Blank, WellFormed, LegacyValid;
    ActiveIsNamed(s.journal);
  }

  lemma {:induction false} AppendServed(s: State, e: Entry, intents: map<string, Intent>)
    requires Served(s) && Accepted(s.legacy, s.journal, e) && Shaped(e)
    requires forall id :: id in intents ==> ValidIntent(intents[id]) && intents[id].id == id
    ensures Served(s.(journal := s.journal + [e], intents := intents))
  {
    hide Accepted, Shaped, WellFormed, ValidIntent;
    WellFormedAppend(s.legacy, s.journal, e);
  }

  lemma {:induction false} KeyedServed(s: State, recordedAt: int, terminalId: string, body: Body, allowed: bool)
    requires Served(s) && !body.Sale?
    requires var e := Repository.Envelope(s.journal, recordedAt, terminalId, body); Guard(s.legacy, s.journal, e) && allowed ==> Shaped(e)
    ensures Served(s.Keyed(Repository.Envelope(s.journal, recordedAt, terminalId, body), allowed))
  {
    hide Guard, Shaped, ValidIntent, WellFormed, SequencesUsable;
    var e := Repository.Envelope(s.journal, recordedAt, terminalId, body);
    if FreshId(s.journal, e.Id()) && s.Usable() && Guard(s.legacy, s.journal, e) && allowed {
      AppendServed(s, e, s.intents);
      assert s.(journal := s.journal + [e], intents := s.intents) == s.(journal := s.journal + [e]);
    }
  }

  lemma {:induction false} CorrectionServed(s: State, r: CorrectionRequest)
    requires Served(s) && (r.refundLines.Some? ==> r.kind.Refund?)
    ensures Served(s.Correct(r))
  {
    hide ValidIntent, WellFormed, SequencesUsable, CorrectionRule, Blank, LegacyValid, FindSale;
    match StoredIn(s.legacy, s.journal, r.originalOrderId)
    case None =>
    case Some(stored) =>
      StoredIsNamed(s, r.originalOrderId);
      KeyedServed(s, r.recordedAt, r.terminalId, Correction(CorrectionOf(r, stored)), true);
  }

  lemma {:induction false} ClosureServed(s: State, r: ClosureRequest)
    requires Served(s) && !Blank(r.operationId)
    ensures Served(s.Close(r))
  {
    hide ValidIntent, WellFormed, SequencesUsable, Blank, LegacyValid, ClosureTotals, ActiveSession, LastClosureEnd;
    ActiveIsNamed(s.journal);
    KeyedServed(s, r.recordedAt, r.terminalId, Closure(ClosureOf(s.journal, r)), AsksSession(r) ==> r.openingFloatCents.Some?);
  }

  lemma {:induction false} SaleServed(s: State, r: OrderRequest)
    requires Served(s)
    ensures Served(s.Sell(r, r.terminalId))
  {
    hide ValidIntent, WellFormed, SequencesUsable, Blank, LegacyValid, LastClosureEnd, SequenceNumber, FindSale, Accepted;
    var order := BuildPersistedOrder(r, s.firstOrder + SaleCount(s.journal), s.firstReceipt + SaleCount(s.journal));
    var e := Repository.Envelope(s.journal, r.createdAt, r.terminalId, Sale(order));
    NumberIsVisible(r.orderNumberPrefix, s.firstOrder + SaleCount(s.journal));
    NumberIsVisible(r.receiptNumberPrefix, s.firstReceipt + SaleCount(s.journal));
    if s.Usable() && Guard(s.legacy, s.journal, e) && FindSale(s.journal, r.id).None? {
      SaleIsAccepted(s.legacy, s.journal, e);
      AppendServed(s, e, s.intents);
      assert s.(journal := s.journal + [e], intents := s.intents) == s.(journal := s.journal + [e]);
    }
  }

  lemma {:induction false} IntentSaleServed(s: State, id: string, now: int)
    requires Served(s)
    ensures Served(s.SellIntent(id, now))
  {
    hide WellFormed, SequencesUsable, Blank, LegacyValid, LastClosureEnd, SequenceNumber, FindSale, Accepted, ValidIntent, ValidNewOrder;
    if s.Finalizes(id) {
      var i := s.intents[id];
      var paidAt := i.paymentConfirmedAt.value;
      var orderSequence, receiptSequence := s.firstOrder + SaleCount(s.journal), s.firstReceipt + SaleCount(s.journal);
      NumberIsVisible(i.orderNumberPrefix, orderSequence);
      NumberIsVisible(i.receiptNumberPrefix, receiptSequence);
      IntentOrderIsValid(i, paidAt, orderSequence, receiptSequence);
      var e := Repository.Envelope(s.journal, paidAt, i.sourceTerminalId, Sale(OrderOf(i, paidAt, orderSequence, receiptSequence)));
      SaleIsAccepted(s.legacy, s.journal, e);
      TransitionsKeepValid(i, now);
      AppendServed(s, e, s.intents[id := Finalize(i, now)]);
    }
  }

  lemma {:induction false} ChangeServed(s: State, id: string, now: int, next: (Intent, int) -> Option<Intent>)
    requires Served(s) && (next == MarkToVerify || next == Confirm || next == Abandon)
    ensures Served(s.Change(id, (i: Intent) => next(i, now)))
  {
    hide WellFormed, ValidIntent, LegacyValid;
    if id in s.intents { TransitionsKeepValid(s.intents[id], now); }
  }

  /** Shaped requests keep every entry one the server reads. */
  lemma {:induction false} NextServed(s: State, op: Operation)
    requires Served(s) && RequestShaped(op)
    ensures Served(Next(s, op))
  {
    hide Served, Blank, ValidIntent, Guard, SequencesUsable, SequenceNumber;
    match op
    case CreateOrder(r, sourceTerminal) => SaleServed(s, r);
    case OpenCashSession(r) => KeyedServed(s, r.recordedAt, r.terminalId, SessionOpened(r.opening), true);
    case UpdateCashFloat(r) => KeyedServed(s, r.recordedAt, r.terminalId, FloatUpdated(r.update), true);
    case RecordCorrection(r) => CorrectionServed(s, r);
    case ClosePeriod(r) => ClosureServed(s, r);
    case CreateCheckoutIntent(i) => IntentServed(s, i);
    case MarkIntentToVerify(id, now) => ChangeServed(s, id, now, MarkToVerify);
    case ConfirmIntentPayment(id, now) => ChangeServed(s, id, now, Confirm);
    case AbandonIntent(id, now) => ChangeServed(s, id, now, Abandon);
    case FinalizeIntent(id, now) => IntentSaleServed(s, id, now);
  }

  lemma {:induction false} IntentServed(s: State, i: Intent)
    requires Served(s)
    ensures Served(Next(s, CreateCheckoutIntent(i)))
  {
    hide ValidIntent, WellFormed;
  }

  /** Whatever the calls, on whatever tills, every entry of the journal has the shape the server asks for. */
  lemma {:induction false} ServicesShapeRuns(s: State, uses: seq<Use>)
    requires Served(s) && Named(uses)
    ensures Served(Serve(s, uses))
  {
    hide Served, CallNamed, Request, Next, RequestShaped;
    if uses != [] {
      var n := |uses| - 1;
      ServicesShapeRuns(s, uses[..n]);
      var before := Serve(s, uses[..n]);
      if Request(before, uses[n].till, uses[n].call).Some? {
        RequestsAreShaped(before, uses[n].till, uses[n].call);
        NextServed(before, Request(before, uses[n].till, uses[n].call).value);
      }
    }
  }

  /** The running sums of every closure stay within the safe integers. */
  ghost predicate SumsStaySafe(journal: seq<Entry>) {
    forall n :: 0 <= n < |journal| && journal[n].Body().Closure? ==>
      Server.SumsSafe(journal[..n], journal[n].Body().closure.periodStart, journal[n].Body().closure.periodEnd)
  }

  /** Replayed in order on the server, a journal the services wrote passes every step, the sums of its closures permitting. */
  lemma {:induction false} ServerReplaysServices(s: State, uses: seq<Use>)
    requires Served(s) && Named(uses) && SumsStaySafe(Serve(s, uses).journal)
    ensures var journal := Serve(s, uses).journal;
            && WellFormed(s.legacy, journal) && s.journal <= journal
            && (forall n :: 0 <= n < |journal| ==> Server.ServerOnly(journal[..n], journal[n]))
            && forall n :: 0 <= n < |journal| ==> Server.ServerAccepts(s.legacy, journal[..n], journal[n])
  {
    hide Server.ServerOnly, Server.ServerAccepts, Shaped, WellFormed, Server.SumsSafe, Serve;
    var after := Serve(s, uses);
    ServicesShapeRuns(s, uses);
    ServesOn(s, uses);
    forall n | 0 <= n < |after.journal| ensures Server.ServerOnly(after.journal[..n], after.journal[n]) {
      ServerOnlyIs(after.journal[..n], after.journal[n]);
    }
    Server.ServerReplaysEveryRun(s.legacy, after.journal);
  }

  lemma {:induction false} ServesOn(s: State, uses: seq<Use>)
    ensures s.journal <= Serve(s, uses).journal && Serve(s, uses).legacy == s.legacy
  {
    hide Request, Next;
    if uses != [] {
      var n := |uses| - 1;
      ServesOn(s, uses[..n]);
      var before := Serve(s, uses[..n]);
      if Request(before, uses[n].till, uses[n].call).Some? {
        ReplayGrows(before, [Request(before, uses[n].till, uses[n].call).value]);
        OneStep(before, Request(before, uses[n].till, uses[n].call).value);
      }
    }
  }

  lemma {:induction false} OneStep(s: State, op: Operation)
    ensures Replay(s, [op]) == Next(s, op)
  {
    assert [op][..0] == [];
  }

  // ----- The refunds the service builds -----

  /** Each selected quantity is still there to be refunded. */
  predicate SelectionsRemain(items: seq<Item>, prior: seq<SaleCorrection>, selections: seq<Selection>)
    requires Selectable(items, selections)
  {
    forall i :: 0 <= i < |selections| ==>
      SelectionFits(items, selections[i])
      && selections[i].quantity
         <= FindItem(items, selections[i].originalLineId).value.quantity - RefundedQuantity(prior, selections[i].originalLineId)
  }

  lemma {:induction false} NoAmountOnly(order: Order, prior: seq<SaleCorrection>)
    requires CorrectionHistory(order, prior)
    ensures !HasAmountOnlyRefund(prior)
  {
    forall c | c in prior && c.kind.Refund? ensures c.refundLines.Some? {
      var n :| 0 <= n < |prior| && prior[n] == c;
      assert CorrectionRule(order, prior[..n], prior[n]);
    }
  }

  /** The lines the service builds are canonical, so only the quantities can stand against them. */
  lemma {:induction false} BuiltLinesAreValid(items: seq<Item>, prior: seq<SaleCorrection>, selections: seq<Selection>)
    requires Selectable(items, selections) && !HasAmountOnlyRefund(prior)
    ensures ValidRefundLines(items, prior, BuildRefundLines(items, selections, prior)) <==> SelectionsRemain(items, prior, selections)
  {
    hide Cost, IncludedVat, Blank, RefundedQuantity, HasAmountOnlyRefund;
    var lines := BuildRefundLines(items, selections, prior);
    forall i | 0 <= i < |selections|
      ensures lines[i].originalLineId == selections[i].originalLineId && lines[i].quantity == selections[i].quantity
      ensures ValidLine(items, prior, lines[i]) <==>
                selections[i].quantity
                <= FindItem(items, selections[i].originalLineId).value.quantity - RefundedQuantity(prior, selections[i].originalLineId)
    {
      assert SelectionFits(items, selections[i]);
    }
  }

  /**
   A refund the service builds is accepted exactly when the sale is not cancelled, every
   selected quantity is still there and something of value is given back: neither a tax, nor
   a total, nor the bound on the sale can stand against it.
   */
  lemma {:induction false} BuiltRefundAcceptedExactly(order: Order, prior: seq<SaleCorrection>, selections: seq<Selection>, c: SaleCorrection)
    requires ValidOrder(order) && CorrectionHistory(order, prior) && Selectable(order.items, selections)
    requires c.kind.Refund? && !Blank(c.operationId) && !Blank(c.reason)
    requires c.refundLines == Some(BuildRefundLines(order.items, selections, prior))
    requires c.amountDeltaCents == -Sum(BuildRefundLines(order.items, selections, prior), Gross)
    ensures CorrectionRule(order, prior, c) <==>
              !Cancelled(prior) && SelectionsRemain(order.items, prior, selections) && c.amountDeltaCents < 0
  {
    hide ValidRefundLines, ValidOrder, Blank, CorrectionHistory, SelectionsRemain, RefundedAmount, Cancelled, BuildRefundLines;
    var lines := BuildRefundLines(order.items, selections, prior);
    NoAmountOnly(order, prior);
    BuiltLinesAreValid(order.items, prior, selections);
    if SelectionsRemain(order.items, prior, selections) {
      LineBoundImpliesTotalBound(order, prior, lines);
      RefundedAmountBounded(order, prior);
      TotalIsSafe(order);
    }
  }

  lemma {:induction false} TotalIsSafe(order: Order)
    requires ValidOrder(order)
    ensures order.totalCents <= MAX_SAFE_INTEGER
  {
  }
}
