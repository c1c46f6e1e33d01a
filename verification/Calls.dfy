/**
 What a call of a service comes to (src/services/orderService.ts:94-126,
 cashSessionService.ts:31-93, salesLedgerService.ts:44-170): the one entry it records, said
 by what was asked for, and when it records it.
 */
module Calls {
  import opened Ledger
  import opened Sums
  import opened Closures
  import opened CashSessions
  import opened Refunds
  import opened Journal
  import opened Checkout
  import opened Numbers
  import opened Repository
  import opened Continuation
  import opened Services

  /** The journal and the intents after a call. */
  function After(s: State, till: Till, call: Call): State {
    match Request(s, till, call) case None => s case Some(op) => Next(s, op)
  }

  // ----- What is recorded -----

  predicate DatedFrom(journal: seq<Entry>, n: nat, start: int)
    requires n < |journal|
  {
    match journal[n].content.body
    case Sale(o) => start <= o.paidAt
    case Correction(_) => start <= journal[n].content.recordedAt
    case _ => true
  }

  predicate DatedAt(journal: seq<Entry>, n: nat, start: int)
    requires n < |journal|
  {
    match journal[n].content.body
    case Sale(o) => start == o.paidAt
    case Correction(_) => start == journal[n].content.recordedAt
    case _ => false
  }

  /** A session begins where the last closure ended, or with the first sale or correction there is. */
  ghost predicate SessionStarts(journal: seq<Entry>, createdAt: int, start: int) {
    if LastClosureEnd(journal).Some? then start == LastClosureEnd(journal).value
    else
      && start <= createdAt
      && (forall n :: 0 <= n < |journal| ==> DatedFrom(journal, n, start))
      && (start == createdAt || exists n :: 0 <= n < |journal| && DatedAt(journal, n, start))
  }

  predicate SaleOfCall(o: Order, till: Till, id: string, items: seq<Item>, means: PaymentMethod, at: int) {
    && o.id == id && o.terminalId == till.terminalId && o.items == items && o.paymentMethod == means
    && o.paidAt == at && o.createdAt == at
    && o.itemCount == Sum(items, Quantity) && o.totalCents == Sum(items, Price)
  }

  predicate CorrectionOfCall(c: SaleCorrection, stored: StoredOrder, id: string, kind: CorrectionType, reason: string, amount: int) {
    && c.operationId == id && c.kind == kind && c.reason == Trim(reason) && c.amountDeltaCents == amount
    && c.originalOrderId == stored.order.id && c.originalOrderNumber == stored.order.orderNumber
    && c.originalReceiptNumber == stored.order.receiptNumber && c.paymentMethod == stored.order.paymentMethod
    && c.originalSaleHash == (if stored.integrity.Some? then Some(stored.integrity.value.hash) else None)
  }

  /** The entry is the one the call asks for. */
  ghost predicate Records(s: State, till: Till, call: Call, e: Entry) {
    match call
    case PlaceOrder(newId, items, means, at, day) =>
      && Repository.Stamped(e, s.journal, "sale:" + newId, at, till.terminalId)
      && e.content.body.Sale?
      && var o := e.content.body.order;
         && SaleOfCall(o, till, newId, items, means, at)
         && NumberReads(o.orderNumber, till.terminalCode, s.firstOrder + SaleCount(s.journal))
         && NumberReads(o.receiptNumber, "R-" + till.terminalCode + "-" + day, s.firstReceipt + SaleCount(s.journal))
    case FinalizeSale(id, _) =>
      && id in s.intents && e.content.body.Sale?
      && Repository.Stamped(e, s.journal, "sale:" + id, e.content.body.order.paidAt, s.intents[id].sourceTerminalId)
      && KeepsIntent(e.content.body.order, s.intents[id], s.firstOrder + SaleCount(s.journal), s.firstReceipt + SaleCount(s.journal))
    case OpenSession(newId, float, at) =>
      && Repository.Stamped(e, s.journal, "cash-session:" + newId, at, till.terminalId)
      && e.content.body.SessionOpened?
      && var opening := e.content.body.session;
         opening.sessionId == newId && opening.openingFloatCents == float && opening.createdAt == at
         && SessionStarts(s.journal, at, opening.periodStart)
    case UpdateOpeningFloat(newId, float, at) =>
      && Repository.Stamped(e, s.journal, "cash-float-update:" + newId, at, till.terminalId)
      && ActiveSession(s.journal).Some?
      && e.content.body == FloatUpdated(FloatUpdate(newId, ActiveSession(s.journal).value.id, ActiveSession(s.journal).value.openingFloatCents, float, at))
    case CancelSale(newId, orderId, reason, at) =>
      var stored := StoredIn(s.legacy, s.journal, orderId);
      && Repository.Stamped(e, s.journal, "correction:" + newId, at, till.terminalId)
      && stored.Some? && e.content.body.Correction? && e.content.body.correction.refundLines.None?
      && CorrectionOfCall(e.content.body.correction, stored.value, newId, Cancellation, reason, -stored.value.order.totalCents)
    case RefundSale(newId, orderId, selections, reason, at) =>
      var stored := StoredIn(s.legacy, s.journal, orderId);
      && Repository.Stamped(e, s.journal, "correction:" + newId, at, till.terminalId)
      && stored.Some? && e.content.body.Correction? && e.content.body.correction.refundLines.Some?
      && var lines := e.content.body.correction.refundLines.value;
         && CorrectionOfCall(e.content.body.correction, stored.value, newId, Refund, reason, -Sum(lines, Gross))
         && |lines| == |selections|
         && forall i :: 0 <= i < |lines| ==>
              lines[i].originalLineId == selections[i].originalLineId && lines[i].quantity == selections[i].quantity
    case AdjustSale(newId, orderId, amount, reason, at) =>
      var stored := StoredIn(s.legacy, s.journal, orderId);
      && Repository.Stamped(e, s.journal, "correction:" + newId, at, till.terminalId)
      && stored.Some? && e.content.body.Correction? && e.content.body.correction.refundLines.None?
      && CorrectionOfCall(e.content.body.correction, stored.value, newId, Adjustment, reason, amount)
    case CloseSession(newId, start, end, at) =>
      && Repository.Stamped(e, s.journal, "closure:" + newId, at, till.terminalId)
      && ActiveSession(s.journal).Some?
      && var active, totals := ActiveSession(s.journal).value, ClosureTotals(s.journal, start, end);
         e.content.body == Closure(SalesClosure(newId, start, end, totals,
           Some(ClosedSession(active.id, active.openingFloatCents, active.openingFloatCents + totals.cashCents))))
    case _ => false
  }

  // ----- When it is recorded -----

  predicate Fits(s: State, id: string) { s.Usable() && forall n :: 0 <= n < |s.journal| ==> s.journal[n].content.id != id }

  /** The active session is one of this till. */
  predicate SessionHere(s: State, till: Till) { ActiveSession(s.journal).Some? && ActiveSession(s.journal).value.terminalId == till.terminalId }

  /** Nothing but what is said here refuses a call. Refunds are the subject of BuiltRefundAcceptedExactly. */
  ghost predicate Allowed(s: State, till: Till, call: Call)
    requires !call.RefundSale?
  {
    match call
    case PlaceOrder(newId, items, means, at, day) =>
      && s.Usable() && !Blank(newId) && !Blank(till.terminalId) && StoredIn(s.legacy, s.journal, newId).None?
      && items != [] && (forall i :: 0 <= i < |items| ==> ValidItem(items[i])) && DistinctLines(items)
      && Sum(items, Quantity) <= MAX_PERSISTED_ITEM_COUNT && Sum(items, Price) <= MAX_SAFE_INTEGER
      && NotBefore(LastClosureEnd(s.journal), at)
    case FinalizeSale(id, _) => s.Finalizes(id)
    case OpenSession(newId, float, at) =>
      && Fits(s, "cash-session:" + newId) && !Blank(till.terminalId)
      && 0 <= float <= MAX_SAFE_INTEGER && ActiveSession(s.journal).None? && NotBefore(LastClosureEnd(s.journal), at)
    case UpdateOpeningFloat(newId, float, at) =>
      && Fits(s, "cash-float-update:" + newId)
      && 0 <= float <= MAX_SAFE_INTEGER && SessionHere(s, till) && ActiveSession(s.journal).value.openingFloatCents != float
    case CancelSale(newId, orderId, reason, at) =>
      var stored := StoredIn(s.legacy, s.journal, orderId);
      && Fits(s, "correction:" + newId) && !Blank(newId) && !Blank(reason) && NotBefore(LastClosureEnd(s.journal), at)
      && stored.Some? && 0 < stored.value.order.totalCents <= MAX_SAFE_INTEGER && PriorCorrections(s.journal, orderId) == []
    case AdjustSale(newId, orderId, amount, reason, at) =>
      && Fits(s, "correction:" + newId) && !Blank(newId) && !Blank(reason) && NotBefore(LastClosureEnd(s.journal), at)
      && StoredIn(s.legacy, s.journal, orderId).Some? && amount != 0 && SafeInteger(amount)
      && !Cancelled(PriorCorrections(s.journal, orderId))
    case CloseSession(newId, start, end, at) =>
      && Fits(s, "closure:" + newId) && start < end <= at && ContinuesAt(LastClosureEnd(s.journal), start)
      && SessionHere(s, till)
      && var active, cash := ActiveSession(s.journal).value, ClosureTotals(s.journal, start, end).cashCents;
         && active.id != "" && active.periodStart == start
         && 0 <= active.openingFloatCents <= MAX_SAFE_INTEGER && SafeInteger(cash) && SafeInteger(active.openingFloatCents + cash)
    case _ => false
  }

  ghost predicate Appends(s: State, till: Till, call: Call, after: State) {
    || after.journal == s.journal
    || (|after.journal| == |s.journal| + 1 && after.journal[..|s.journal|] == s.journal
        && Records(s, till, call, after.journal[|s.journal|]))
  }

  /** A new intent: what is sold, for whom, under which numbers, and nothing of a payment yet. */
  predicate IntentOfCall(i: Intent, till: Till, call: Call)
    requires call.CreateIntent?
  {
    && i.id == call.newId && i.cart == call.items && i.paymentMethod == call.paymentMethod
    && i.itemCount == Sum(call.items, Quantity) && i.totalCents == Sum(call.items, Price)
    && i.status == PendingPayment && i.createdAt == call.createdAt && i.updatedAt == call.createdAt
    && i.terminalId == till.terminalId && i.sourceTerminalId == till.terminalId && i.terminalCode == till.terminalCode
    && i.orderNumberPrefix == till.terminalCode && i.receiptNumberPrefix == "R-" + till.terminalCode + "-" + call.receiptDay
    && i.paymentConfirmedAt.None? && i.finalizedOrderId.None? && i.abandonedAt.None?
  }

  /** What a call does to the intents: it adds one, moves one to its next state, or leaves them alone. */
  ghost predicate MovesIntents(s: State, till: Till, call: Call, after: map<string, Intent>) {
    match call
    case CreateIntent(newId, items, means, at, day) =>
      if newId !in s.intents && !Blank(newId) && !Blank(till.terminalId) && !Blank(till.terminalCode) && items != []
         && (forall i :: 0 <= i < |items| ==> ValidItem(items[i])) && DistinctLines(items)
         && Sum(items, Quantity) <= MAX_PERSISTED_ITEM_COUNT && Sum(items, Price) <= MAX_SAFE_INTEGER
      then newId in after && IntentOfCall(after[newId], till, call) && after == s.intents[newId := after[newId]]
      else after == s.intents
    case BeginPayment(id, now) => MovesOne(s.intents, after, id, PaymentToVerify, now)
    case ConfirmPayment(id, now) => MovesOne(s.intents, after, id, PaymentConfirmed, now)
    case AbandonPayment(id, now) => MovesOne(s.intents, after, id, Abandoned, now)
    case FinalizeSale(id, now) =>
      if s.Finalizes(id)
      then id in after && after[id] == s.intents[id].(status := Finalized, finalizedOrderId := Some(id), updatedAt := now)
           && after == s.intents[id := after[id]]
      else after == s.intents
    case _ => after == s.intents
  }

  predicate MovesOne(before: map<string, Intent>, after: map<string, Intent>, id: string, to: IntentStatus, now: int) {
    if id in before && Leads(before[id].status, to)
    then id in after && Becomes(before[id], Some(after[id]), to, now) && after == before[id := after[id]]
    else after == before
  }

  // ----- The proof -----

  lemma {:induction false} EnvelopeIsStamped(journal: seq<Entry>, at: int, terminalId: string, body: Body)
    ensures Repository.Stamped(Repository.Envelope(journal, at, terminalId, body), journal, EntryId(body), at, terminalId)
    ensures Repository.Envelope(journal, at, terminalId, body).content.body == body
  {
  }

  /** One entry more, or the journal as it was. */
  lemma {:induction false} OneEntry(s: State, e: Entry, allowed: bool)
    ensures var after := s.Keyed(e, allowed);
            if FreshId(s.journal, e.Id()) && s.Usable() && Guard(s.legacy, s.journal, e) && allowed
            then |after.journal| == |s.journal| + 1 && after.journal[..|s.journal|] == s.journal && after.journal[|s.journal|] == e
            else after.journal == s.journal
  {
    hide FreshId, Guard;
  }

  lemma {:induction false} FirstIsFirst(journal: seq<Entry>)
    ensures var first := FirstFinancial(journal);
            && (first.Some? ==> (forall n :: 0 <= n < |journal| ==> DatedFrom(journal, n, first.value))
                                && exists n :: 0 <= n < |journal| && DatedAt(journal, n, first.value))
            && (first.None? ==> forall n, start :: 0 <= n < |journal| ==> DatedFrom(journal, n, start))
  {
    if journal != [] {
      var m := |journal| - 1;
      var front, e := journal[..m], journal[m];
      FirstIsFirst(front);
      forall n, start | 0 <= n < m
        ensures DatedFrom(journal, n, start) <==> DatedFrom(front, n, start)
        ensures DatedAt(journal, n, start) <==> DatedAt(front, n, start)
      {
        assert journal[n] == front[n];
      }
      var first := FirstFinancial(journal);
      if first.Some? {
        if FirstFinancial(front).Some? && first == FirstFinancial(front) {
          var n :| 0 <= n < m && DatedAt(front, n, first.value);
          assert DatedAt(journal, n, first.value);
        } else {
          assert DatedAt(journal, m, first.value);
        }
        forall n | 0 <= n < |journal| ensures DatedFrom(journal, n, first.value) {
          if n < m { assert DatedFrom(front, n, if FirstFinancial(front).Some? then FirstFinancial(front).value else first.value); }
        }
      }
    }
  }

  lemma {:induction false} StartIsRight(journal: seq<Entry>, createdAt: int)
    ensures SessionStarts(journal, createdAt, SessionPeriodStart(journal, createdAt))
  {
    hide FirstFinancial, LastClosureEnd;
    FirstIsFirst(journal);
    if LastClosureEnd(journal).None? && FirstFinancial(journal).Some? && createdAt <= FirstFinancial(journal).value {
      forall n | 0 <= n < |journal| ensures DatedFrom(journal, n, createdAt) {
        assert DatedFrom(journal, n, FirstFinancial(journal).value);
      }
    }
  }

  lemma {:induction false} TrimmedBlank(text: string)
    ensures Blank(Trim(text)) <==> Blank(text)
  {
    TrimsToNothing(text);
    var before, after := TrimExactly(text);
    var name := Trim(text);
    if name != "" {
      SpaceIs(name[0]);
      assert name[0] in name;
    }
  }

  lemma {:induction false} StoredHasId(s: State, id: string)
    requires LegacyValid(s.legacy) && StoredIn(s.legacy, s.journal, id).Some?
    ensures StoredIn(s.legacy, s.journal, id).value.order.id == id
  {
  }

  lemma {:induction false} PlacedOrder(s: State, till: Till, call: Call)
    requires call.PlaceOrder?
    ensures var after := After(s, till, call); Appends(s, till, call, after) && (after.journal != s.journal <==> Allowed(s, till, call))
  {
    hide SequenceNumber, NumberReads, FindSale, LastClosureEnd, Blank, Sum, ValidItem, DistinctLines, SaleCount, SequencesUsable;
    var r := OrderRequestOf(till, call.newId, call.items, call.paymentMethod, call.createdAt, call.receiptDay);
    var n, m := s.firstOrder + SaleCount(s.journal), s.firstReceipt + SaleCount(s.journal);
    RequestIsKept(r, n, m);
    var o := BuildPersistedOrder(r, n, m);
    EnvelopeIsStamped(s.journal, r.createdAt, till.terminalId, Sale(o));
    var e := Repository.Envelope(s.journal, r.createdAt, till.terminalId, Sale(o));
    var after := s.Sell(r, till.terminalId);
    assert After(s, till, call) == after;
    if after.journal != s.journal {
      assert after.journal == s.journal + [e];
      assert after.journal[..|s.journal|] == s.journal && after.journal[|s.journal|] == e;
    }
  }

  lemma {:induction false} FinalizedSale(s: State, till: Till, call: Call)
    requires call.FinalizeSale? && (call.id in s.intents ==> s.intents[call.id].id == call.id)
    ensures var after := After(s, till, call); Appends(s, till, call, after) && (after.journal != s.journal <==> Allowed(s, till, call))
  {
    hide SequenceNumber, NumberReads, FindSale, LastClosureEnd, SaleCount, SequencesUsable, StoredIn;
    if s.Finalizes(call.id) {
      var i := s.intents[call.id];
      var n, m := s.firstOrder + SaleCount(s.journal), s.firstReceipt + SaleCount(s.journal);
      IntentIsKept(i, n, m);
      var paidAt := i.paymentConfirmedAt.value;
      EnvelopeIsStamped(s.journal, paidAt, i.sourceTerminalId, Sale(OrderOf(i, paidAt, n, m)));
      var after := s.SellIntent(call.id, call.now);
      assert After(s, till, call) == after;
      assert after.journal[..|s.journal|] == s.journal && after.journal[|s.journal|] ==
        Repository.Envelope(s.journal, paidAt, i.sourceTerminalId, Sale(OrderOf(i, paidAt, n, m)));
    }
  }

  lemma {:induction false} OpenedSession(s: State, till: Till, call: Call)
    requires call.OpenSession?
    ensures var after := After(s, till, call); Appends(s, till, call, after) && (after.journal != s.journal <==> Allowed(s, till, call))
  {
    hide SequencesUsable, LastClosureEnd, ActiveSession, Blank, SessionStarts, SessionPeriodStart, Repository.Stamped, Repository.Envelope;
    var start := SessionPeriodStart(s.journal, call.createdAt);
    StartIsRight(s.journal, call.createdAt);
    StartFits(s.journal, call.createdAt);
    var body := SessionOpened(SessionOpening(call.newId, start, call.openingFloatCents, call.createdAt));
    var e := Repository.Envelope(s.journal, call.createdAt, till.terminalId, body);
    EnvelopeIsStamped(s.journal, call.createdAt, till.terminalId, body);
    StampedIs(e, s.journal, EntryId(body), call.createdAt, till.terminalId);
    OneEntry(s, e, true);
  }

  lemma {:induction false} StartFits(journal: seq<Entry>, createdAt: int)
    ensures var start := SessionPeriodStart(journal, createdAt);
            && ContinuesAt(LastClosureEnd(journal), start)
            && (start <= createdAt <==> NotBefore(LastClosureEnd(journal), createdAt))
  {
    hide LastClosureEnd, FirstFinancial;
  }

  lemma {:induction false} StampedIs(e: Entry, journal: seq<Entry>, id: string, at: int, terminalId: string)
    requires Repository.Stamped(e, journal, id, at, terminalId)
    ensures e.Id() == id && e.RecordedAt() == at && e.content.terminalId == terminalId
  {
  }

  lemma {:induction false} UpdatedFloat(s: State, till: Till, call: Call)
    requires call.UpdateOpeningFloat?
    ensures var after := After(s, till, call); Appends(s, till, call, after) && (after.journal != s.journal <==> Allowed(s, till, call))
  {
    hide SequencesUsable, LastClosureEnd, ActiveSession, Repository.Stamped, Repository.Envelope;
    if ActiveSession(s.journal).Some? {
      var active := ActiveSession(s.journal).value;
      var body := FloatUpdated(FloatUpdate(call.newId, active.id, active.openingFloatCents, call.newOpeningFloatCents, call.updatedAt));
      var e := Repository.Envelope(s.journal, call.updatedAt, till.terminalId, body);
      EnvelopeIsStamped(s.journal, call.updatedAt, till.terminalId, body);
      StampedIs(e, s.journal, EntryId(body), call.updatedAt, till.terminalId);
      OneEntry(s, e, true);
    }
  }

  lemma {:induction false} ClosedHere(s: State, till: Till, call: Call)
    requires call.CloseSession? && (ActiveSession(s.journal).Some? ==> ActiveSession(s.journal).value.id != "")
    ensures var after := After(s, till, call); Appends(s, till, call, after) && (after.journal != s.journal <==> Allowed(s, till, call))
  {
    hide SequencesUsable, LastClosureEnd, ActiveSession, ClosureTotals, Repository.Stamped, Repository.Envelope, Guard;
    if ActiveSession(s.journal).Some? {
      var active := ActiveSession(s.journal).value;
      var r := ClosureRequest(call.newId, call.periodStart, call.periodEnd, Some(active.id), Some(active.openingFloatCents), call.recordedAt,
                              till.terminalId);
      var body := Closure(ClosureOf(s.journal, r));
      var e := Repository.Envelope(s.journal, r.recordedAt, r.terminalId, body);
      EnvelopeIsStamped(s.journal, r.recordedAt, r.terminalId, body);
      StampedIs(e, s.journal, EntryId(body), r.recordedAt, r.terminalId);
      ClosureEntryGuard(s.legacy, s.journal, r);
      OneEntry(s, e, true);
    }
  }

  lemma {:induction false} CorrectedSale(s: State, till: Till, id: string, orderId: string, kind: CorrectionType, reason: string,
                                         amount: int, lines: Option<seq<RefundLine>>, at: int)
    requires LegacyValid(s.legacy)
    ensures var op, stored := CorrectionBy(till, id, orderId, kind, reason, amount, lines, at), StoredIn(s.legacy, s.journal, orderId);
            var after := Next(s, op);
            if stored.None? then after == s
            else
              var c := CorrectionOf(op.correction, stored.value);
              var e := Repository.Envelope(s.journal, at, till.terminalId, Correction(c));
              && CorrectionOfCall(c, stored.value, id, kind, reason, amount) && c.refundLines == lines
              && Repository.Stamped(e, s.journal, "correction:" + id, at, till.terminalId) && e.content.body == Correction(c)
              && (if Fits(s, "correction:" + id) && NotBefore(LastClosureEnd(s.journal), at)
                     && CorrectionRule(stored.value.order, PriorCorrections(s.journal, orderId), c)
                  then |after.journal| == |s.journal| + 1 && after.journal[..|s.journal|] == s.journal && after.journal[|s.journal|] == e
                  else after.journal == s.journal)
  {
    hide SequencesUsable, LastClosureEnd, StoredIn, CorrectionRule, PriorCorrections, Trim, Repository.Stamped, LegacyValid;
    var op, stored := CorrectionBy(till, id, orderId, kind, reason, amount, lines, at), StoredIn(s.legacy, s.journal, orderId);
    if stored.Some? {
      StoredHasId(s, orderId);
      var c := CorrectionOf(op.correction, stored.value);
      var e := Repository.Envelope(s.journal, at, till.terminalId, Correction(c));
      EnvelopeIsStamped(s.journal, at, till.terminalId, Correction(c));
      StampedIs(e, s.journal, "correction:" + id, at, till.terminalId);
      OneEntry(s, e, true);
    }
  }

  lemma {:induction false} CancelledSale(s: State, till: Till, call: Call)
    requires call.CancelSale? && LegacyValid(s.legacy)
    ensures var after := After(s, till, call); Appends(s, till, call, after) && (after.journal != s.journal <==> Allowed(s, till, call))
  {
    hide SequencesUsable, LastClosureEnd, StoredIn, PriorCorrections, Trim, Blank, Repository.Stamped, LegacyValid, CorrectionOfCall, Fits;
    TrimmedBlank(call.reason);
    var stored := StoredIn(s.legacy, s.journal, call.originalOrderId);
    if stored.Some? {
      CorrectedSale(s, till, call.newId, call.originalOrderId, Cancellation, call.reason, -stored.value.order.totalCents, None, call.recordedAt);
    }
  }

  lemma {:induction false} AdjustedSale(s: State, till: Till, call: Call)
    requires call.AdjustSale? && LegacyValid(s.legacy)
    ensures var after := After(s, till, call); Appends(s, till, call, after) && (after.journal != s.journal <==> Allowed(s, till, call))
  {
    hide SequencesUsable, LastClosureEnd, StoredIn, PriorCorrections, Trim, Blank, Repository.Stamped, LegacyValid, CorrectionOfCall, Fits;
    TrimmedBlank(call.reason);
    CorrectedSale(s, till, call.newId, call.originalOrderId, Adjustment, call.reason, call.amountDeltaCents, None, call.recordedAt);
  }

  lemma {:induction false} RefundedSale(s: State, till: Till, call: Call)
    requires call.RefundSale? && LegacyValid(s.legacy)
    ensures Appends(s, till, call, After(s, till, call))
  {
    hide SequencesUsable, LastClosureEnd, StoredIn, PriorCorrections, Trim, Blank, Repository.Stamped, LegacyValid, CorrectionOfCall, Fits,
         FreshId, CorrectionRule, BuildLine, Selectable, BuildRefundLines, Next, Sum, NotBefore, CorrectionOf, Repository.Envelope;
    var stored := StoredIn(s.legacy, s.journal, call.originalOrderId);
    if stored.Some? && Selectable(stored.value.order.items, call.selections) {
      var lines := BuildRefundLines(stored.value.order.items, call.selections, PriorCorrections(s.journal, call.originalOrderId));
      BuiltAreSelected(stored.value.order.items, call.selections, PriorCorrections(s.journal, call.originalOrderId));
      CorrectedSale(s, till, call.newId, call.originalOrderId, Refund, call.reason, -Sum(lines, Gross), Some(lines), call.recordedAt);
    }
  }

  lemma {:induction false} BuiltAreSelected(items: seq<Item>, selections: seq<Selection>, prior: seq<SaleCorrection>)
    requires Selectable(items, selections)
    ensures var lines := BuildRefundLines(items, selections, prior);
            forall i :: 0 <= i < |lines| ==>
              lines[i].originalLineId == selections[i].originalLineId && lines[i].quantity == selections[i].quantity
  {
    forall i | 0 <= i < |selections| ensures SelectionFits(items, selections[i]) {
    }
  }

  /** A call records nothing, or one entry, which is the one it asks for. */
  lemma {:induction false} CallsRecord(s: State, till: Till, call: Call)
    requires Served(s)
    ensures Appends(s, till, call, After(s, till, call))
  {
    hide Served, Appends, Allowed, Next, Request;
    ServedFacts(s);
    match call
    case PlaceOrder(_, _, _, _, _) => PlacedOrder(s, till, call);
    case FinalizeSale(_, _) => FinalizedSale(s, till, call);
    case OpenSession(_, _, _) => OpenedSession(s, till, call);
    case UpdateOpeningFloat(_, _, _) => UpdatedFloat(s, till, call);
    case CancelSale(_, _, _, _) => CancelledSale(s, till, call);
    case RefundSale(_, _, _, _, _) => RefundedSale(s, till, call);
    case AdjustSale(_, _, _, _, _) => AdjustedSale(s, till, call);
    case CloseSession(_, _, _, _) => ClosedHere(s, till, call);
    case _ => NotRecording(s, till, call);
  }

  lemma {:induction false} ServedFacts(s: State)
    requires Served(s)
    ensures LegacyValid(s.legacy) && (forall id :: id in s.intents ==> s.intents[id].id == id)
    ensures ActiveSession(s.journal).Some? ==> ActiveSession(s.journal).value.id != ""
  {
    hide LegacyValid, WellFormed, ValidIntent;
    ActiveIsNamed(s.journal);
  }

  lemma {:induction false} NotRecording(s: State, till: Till, call: Call)
    requires call.CreateIntent? || call.BeginPayment? || call.ConfirmPayment? || call.AbandonPayment?
    ensures After(s, till, call).journal == s.journal && Appends(s, till, call, After(s, till, call)) && !Allowed(s, till, call)
  {
    hide ValidIntent;
  }

  /** And it records one exactly when nothing that is said here stands against it. */
  lemma {:induction false} CallsRecordExactly(s: State, till: Till, call: Call)
    requires Served(s) && !call.RefundSale?
    ensures After(s, till, call).journal != s.journal <==> Allowed(s, till, call)
  {
    hide Served, Appends, Allowed, Next, Request;
    ServedFacts(s);
    match call
    case PlaceOrder(_, _, _, _, _) => PlacedOrder(s, till, call);
    case FinalizeSale(_, _) => FinalizedSale(s, till, call);
    case OpenSession(_, _, _) => OpenedSession(s, till, call);
    case UpdateOpeningFloat(_, _, _) => UpdatedFloat(s, till, call);
    case CancelSale(_, _, _, _) => CancelledSale(s, till, call);
    case AdjustSale(_, _, _, _, _) => AdjustedSale(s, till, call);
    case CloseSession(_, _, _, _) => ClosedHere(s, till, call);
    case _ => NotRecording(s, till, call);
  }

  lemma {:induction false} NewIntent(s: State, till: Till, call: Call)
    requires call.CreateIntent?
    ensures MovesIntents(s, till, call, After(s, till, call).intents)
  {
    hide Blank, Sum, ValidItem, DistinctLines;
    var i := IntentOf(till, call.newId, call.items, call.paymentMethod, call.createdAt, call.receiptDay);
    ReceiptPrefix(till.terminalCode, call.receiptDay);
  }

  lemma {:induction false} ReceiptPrefix(code: string, day: string)
    ensures "R-" + code + "-" <= "R-" + code + "-" + day && !Blank("R-" + code + "-" + day)
  {
    var text := "R-" + code + "-" + day;
    assert text[0] == 'R';
    assert text[0] in text;
  }

  lemma {:induction false} MovedOne(s: State, id: string, to: IntentStatus, now: int, next: Intent -> Option<Intent>)
    requires id in s.intents ==> Becomes(s.intents[id], next(s.intents[id]), to, now)
    ensures MovesOne(s.intents, s.Change(id, next).intents, id, to, now)
  {
    hide Becomes, Leads;
    if id in s.intents { BecomesSome(s.intents[id], next(s.intents[id]), to, now); }
  }

  lemma {:induction false} BecomesSome(i: Intent, k: Option<Intent>, to: IntentStatus, now: int)
    requires Becomes(i, k, to, now)
    ensures k.Some? <==> Leads(i.status, to)
  {
  }

  /** Every call of a service changes the intents exactly like this. */
  lemma {:induction false} CallsMoveIntents(s: State, till: Till, call: Call)
    requires Served(s)
    ensures MovesIntents(s, till, call, After(s, till, call).intents)
  {
    hide Served, SequencesUsable, Guard, StoredIn, LastClosureEnd, FindSale, ActiveSession, MarkToVerify, Confirm, Abandon, Becomes, Leads,
         BuildRefundLines, Selectable, ClosureTotals, PriorCorrections, SessionPeriodStart, ValidIntent, FreshId, Sum, Blank, SequenceNumber;
    ServedFacts(s);
    match call
    case CreateIntent(_, _, _, _, _) => NewIntent(s, till, call);
    case BeginPayment(id, now) =>
      if id in s.intents { TransitionsExactly(s.intents[id], now); }
      MovedOne(s, id, PaymentToVerify, now, (i: Intent) => MarkToVerify(i, now));
    case ConfirmPayment(id, now) =>
      if id in s.intents { TransitionsExactly(s.intents[id], now); }
      MovedOne(s, id, PaymentConfirmed, now, (i: Intent) => Confirm(i, now));
    case AbandonPayment(id, now) =>
      if id in s.intents { TransitionsExactly(s.intents[id], now); }
      MovedOne(s, id, Abandoned, now, (i: Intent) => Abandon(i, now));
    case _ =>
  }
}
