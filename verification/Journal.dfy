/**
 The journal the writers may produce (src/services/orderRepository.ts:693-1512). A run
 of the writers is a sequence of accepted entries, so a statement about every
 well-formed journal is a statement about every run.
 */
module Journal {
  import opened Ledger
  import opened Sums
  import opened Closures
  import opened CashSessions
  import opened Refunds
  import Vat

  /** Sales recorded before the journal existed: they stay in the store, unsealed. */
  type Legacy = map<string, Order>

  /** Legacy sales passed the order checks when they were made. */
  ghost predicate LegacyValid(legacy: Legacy) {
    forall id :: id in legacy ==> ValidOrder(legacy[id]) && legacy[id].id == id
  }

  // ----- What the stores hold after a journal -----

  function FindSale(journal: seq<Entry>, id: string): (found: Option<Entry>)
    ensures found.Some? ==> found.value in journal && found.value.Body().Sale? && found.value.Body().order.id == id
    ensures found.None? ==> forall e :: e in journal && e.Body().Sale? ==> e.Body().order.id != id
  {
    if journal == [] then None
    else
      var e := journal[|journal| - 1];
      assert journal == journal[..|journal| - 1] + [e];
      if e.Body().Sale? && e.Body().order.id == id then Some(e) else FindSale(journal[..|journal| - 1], id)
  }

  function SealedOrder(e: Entry): StoredOrder
    requires e.Body().Sale?
  {
    StoredOrder(e.Body().order, Some(Integrity(e.Id(), e.Sequence(), e.hash)))
  }

  /** `orders.get(id)` */
  function StoredIn(legacy: Legacy, journal: seq<Entry>, id: string): Option<StoredOrder> {
    if id in legacy then Some(StoredOrder(legacy[id], None))
    else match FindSale(journal, id)
      case None => None
      case Some(e) => Some(SealedOrder(e))
  }

  function PriorCorrections(journal: seq<Entry>, id: string): seq<SaleCorrection> {
    if journal == [] then []
    else
      var b := journal[|journal| - 1].Body();
      var before := PriorCorrections(journal[..|journal| - 1], id);
      if b.Correction? && b.correction.originalOrderId == id then before + [b.correction] else before
  }

  // ----- The guards of the writers -----

  predicate CashAmount(cents: int) { SafeInteger(cents) && 0 <= cents }

  predicate NotBefore(end: Option<int>, date: int) { end.Some? ==> end.value <= date }

  predicate ContinuesAt(end: Option<int>, start: int) { end.Some? ==> start == end.value }

  function HashOf(stored: StoredOrder): Option<Digest> {
    if stored.integrity.Some? then Some(stored.integrity.value.hash) else None
  }

  predicate SaleGuard(legacy: Legacy, journal: seq<Entry>, e: Entry, order: Order) {
    && ValidNewOrder(order)
    && order.id !in legacy
    && e.RecordedAt() == order.createdAt
    && NotBefore(LastClosureEnd(journal), order.paidAt)
  }

  predicate CorrectionGuard(legacy: Legacy, journal: seq<Entry>, e: Entry, c: SaleCorrection) {
    var original := StoredIn(legacy, journal, c.originalOrderId);
    && original.Some?
    && NotBefore(LastClosureEnd(journal), e.RecordedAt())
    && c.originalOrderNumber == original.value.order.orderNumber
    && c.originalReceiptNumber == original.value.order.receiptNumber
    && c.paymentMethod == original.value.order.paymentMethod
    && c.originalSaleHash == HashOf(original.value)
    && CorrectionRule(original.value.order, PriorCorrections(journal, c.originalOrderId), c)
  }

  predicate OpeningGuard(journal: seq<Entry>, e: Entry, s: SessionOpening) {
    && CashAmount(s.openingFloatCents)
    && s.periodStart <= s.createdAt == e.RecordedAt()
    && ContinuesAt(LastClosureEnd(journal), s.periodStart)
    && ActiveSession(journal).None?
    && !Blank(e.content.terminalId)
  }

  predicate FloatGuard(journal: seq<Entry>, e: Entry, u: FloatUpdate) {
    var active := ActiveSession(journal);
    && CashAmount(u.newOpeningFloatCents)
    && active.Some?
    && active.value.id == u.sessionId
    && active.value.terminalId == e.content.terminalId
    && active.value.openingFloatCents == u.previousOpeningFloatCents
  }

  predicate ClosedSessionGuard(journal: seq<Entry>, e: Entry, c: SalesClosure, s: ClosedSession) {
    var active := ActiveSession(journal);
    && s.cashSessionId != ""
    && active.Some?
    && active.value.id == s.cashSessionId
    && active.value.periodStart == c.periodStart
    && active.value.openingFloatCents == s.openingFloatCents
    && active.value.terminalId == e.content.terminalId
    && CashAmount(s.openingFloatCents)
    && SafeInteger(c.totals.cashCents)
    && SafeInteger(s.theoreticalCashCents)
    && s.theoreticalCashCents == s.openingFloatCents + c.totals.cashCents
  }

  predicate ClosureGuard(journal: seq<Entry>, e: Entry, c: SalesClosure) {
    && c.periodStart < c.periodEnd <= e.RecordedAt()
    && ContinuesAt(LastClosureEnd(journal), c.periodStart)
    && c.totals == ClosureTotals(journal, c.periodStart, c.periodEnd)
    && (c.session.Some? ==> ClosedSessionGuard(journal, e, c, c.session.value))
  }

  predicate Guard(legacy: Legacy, journal: seq<Entry>, e: Entry) {
    match e.Body()
    case Sale(order) => SaleGuard(legacy, journal, e, order)
    case Correction(c) => CorrectionGuard(legacy, journal, e, c)
    case SessionOpened(s) => OpeningGuard(journal, e, s)
    case FloatUpdated(u) => FloatGuard(journal, e, u)
    case Closure(c) => ClosureGuard(journal, e, c)
  }

  predicate FreshId(journal: seq<Entry>, id: string) {
    forall n :: 0 <= n < |journal| ==> journal[n].Id() != id
  }

  /** The envelope every writer puts around its body. */
  predicate Linked(journal: seq<Entry>, e: Entry) {
    && e.content.schemaVersion == LEDGER_SCHEMA_VERSION
    && e.Sequence() == |journal| + 1
    && e.content.previousHash == Head(journal)
    && e.Id() == EntryId(e.Body())
    && e.Sealed()
  }

  predicate Accepted(legacy: Legacy, journal: seq<Entry>, e: Entry) {
    Linked(journal, e) && FreshId(journal, e.Id()) && Guard(legacy, journal, e)
  }

  ghost predicate WellFormed(legacy: Legacy, journal: seq<Entry>) {
    forall n :: 0 <= n < |journal| ==> Accepted(legacy, journal[..n], journal[n])
  }

  lemma {:induction false} WellFormedPrefix(legacy: Legacy, journal: seq<Entry>, m: nat)
    requires WellFormed(legacy, journal) && m <= |journal|
    ensures WellFormed(legacy, journal[..m])
  {
    hide Accepted;
    forall n | 0 <= n < m ensures Accepted(legacy, journal[..m][..n], journal[..m][n]) {
      assert journal[..m][..n] == journal[..n];
    }
  }

  lemma {:induction false} WellFormedAppend(legacy: Legacy, journal: seq<Entry>, e: Entry)
    requires WellFormed(legacy, journal) && Accepted(legacy, journal, e)
    ensures WellFormed(legacy, journal + [e])
  {
    hide Accepted;
    var longer := journal + [e];
    forall n | 0 <= n < |longer| ensures Accepted(legacy, longer[..n], longer[n]) {
      assert longer[..n] == journal[..n];
      assert journal[..|journal|] == journal;
    }
  }

  // ----- The chain -----

  ghost predicate Chained(journal: seq<Entry>) {
    forall n :: 0 <= n < |journal| ==> journal[n].Sealed() && journal[n].content.previousHash == Head(journal[..n])
  }

  /** The head digest pins down every entry: two chains with one head are one journal. */
  lemma {:induction false} HeadDeterminesJournal(a: seq<Entry>, b: seq<Entry>)
    requires Chained(a) && Chained(b) && Head(a) == Head(b)
    ensures a == b
    decreases |a|
  {
    hide Chained;
    if a != [] {
      var m, n := |a| - 1, |b| - 1;
      LastLink(a);
      LastLink(b);
      assert a[m].content == b[n].content;
      HeadDeterminesJournal(a[..m], b[..n]);
      assert a == a[..m] + [a[m]] && b == b[..n] + [b[n]];
    }
  }

  lemma {:induction false} LastLink(a: seq<Entry>)
    requires Chained(a) && a != []
    ensures var m := |a| - 1; Chained(a[..m]) && a[m].hash == Digest(a[m].content) && a[m].content.previousHash == Head(a[..m])
  {
    var m := |a| - 1;
    forall k | 0 <= k < m ensures a[..m][..k] == a[..k] {}
  }

  lemma {:induction false} WellFormedIsChained(legacy: Legacy, journal: seq<Entry>)
    requires WellFormed(legacy, journal)
    ensures Chained(journal)
    ensures forall n :: 0 <= n < |journal| ==> journal[n].Sequence() == n + 1
  {
  }

  // ----- Closures: final, tiling, cumulative -----

  predicate IsClosure(e: Entry) { e.Body().Closure? }

  lemma {:induction false} LastEndGrows(legacy: Legacy, journal: seq<Entry>, n: nat, m: nat)
    requires WellFormed(legacy, journal) && n < m <= |journal| && IsClosure(journal[n])
    ensures LastClosureEnd(journal[..m]).Some?
    ensures journal[n].Body().closure.periodEnd <= LastClosureEnd(journal[..m]).value
    decreases m
  {
    hide Linked, FreshId, SaleGuard, CorrectionGuard, OpeningGuard, FloatGuard, ClosedSessionGuard, ClosureTotals;
    assert journal[..m][..m - 1] == journal[..m - 1];
    assert Accepted(legacy, journal[..m - 1], journal[m - 1]);
    if n < m - 1 {
      LastEndGrows(legacy, journal, n, m - 1);
    }
  }

  /** Nothing recorded after a closure is dated inside or before its period. */
  lemma {:induction false} LaterEntriesAreLater(legacy: Legacy, journal: seq<Entry>, n: nat, m: nat)
    requires WellFormed(legacy, journal) && n < m < |journal| && IsClosure(journal[n]) && Financial(journal[m])
    ensures journal[n].Body().closure.periodEnd <= FinancialDate(journal[m])
  {
    hide Linked, FreshId, ValidOrder, CorrectionRule;
    LastEndGrows(legacy, journal, n, m);
    assert Accepted(legacy, journal[..m], journal[m]);
  }

  /** Recomputing a recorded closure over any later journal gives its recorded totals. */
  lemma {:induction false} ClosureIsFinal(legacy: Legacy, journal: seq<Entry>, n: nat, m: nat)
    requires WellFormed(legacy, journal) && n < m <= |journal| && IsClosure(journal[n])
    ensures var c := journal[n].Body().closure;
            ClosureTotals(journal[..m], c.periodStart, c.periodEnd) == c.totals
  {
    hide ClosureTotals, Linked, FreshId;
    var c, later := journal[n].Body().closure, journal[n..m];
    assert Accepted(legacy, journal[..n], journal[n]);
    forall e | e in later && Financial(e) ensures c.periodEnd <= FinancialDate(e) {
      var k :| n <= k < m && journal[k] == e;
      LaterEntriesAreLater(legacy, journal, n, k);
    }
    LaterEntriesDoNotCount(journal[..n], later, c.periodStart, c.periodEnd);
    assert journal[..m] == journal[..n] + later;
  }

  lemma {:induction false} LastEndIsLastClosure(journal: seq<Entry>, n: nat, m: nat)
    requires n < m <= |journal| && IsClosure(journal[n])
    requires forall k :: n < k < m ==> !IsClosure(journal[k])
    ensures LastClosureEnd(journal[..m]) == Some(journal[n].Body().closure.periodEnd)
    decreases m
  {
    assert journal[..m][..m - 1] == journal[..m - 1];
    if n < m - 1 {
      LastEndIsLastClosure(journal, n, m - 1);
    }
  }

  /**
   Consecutive closures share their boundary, and each cumulative total is the previous
   one plus the closure's own net, which is its cash plus its card payments.
   */
  lemma {:induction false} ClosuresTile(legacy: Legacy, journal: seq<Entry>, n: nat, m: nat)
    requires WellFormed(legacy, journal) && n < m < |journal| && IsClosure(journal[n]) && IsClosure(journal[m])
    requires forall k :: n < k < m ==> !IsClosure(journal[k])
    ensures var first, second := journal[n].Body().closure, journal[m].Body().closure;
            && second.periodStart == first.periodEnd < second.periodEnd
            && second.totals.cumulativeNetTotalCents == first.totals.cumulativeNetTotalCents + second.totals.netTotalCents
            && second.totals.netTotalCents == second.totals.cashCents + second.totals.cardCents
  {
    hide Linked, FreshId, ClosedSessionGuard, Within, Before;
    var first, second := journal[n].Body().closure, journal[m].Body().closure;
    LastEndIsLastClosure(journal, n, m);
    assert Accepted(legacy, journal[..m], journal[m]);
    CumulativeSplits(journal[..m], second.periodStart, second.periodEnd);
    PaymentsAddUpToNet(journal[..m], second.periodStart, second.periodEnd);
    ClosureIsFinal(legacy, journal, n, m);
  }

  /** The first closure accumulates whatever is dated before its end. */
  lemma {:induction false} FirstClosureCumulates(legacy: Legacy, journal: seq<Entry>, m: nat)
    requires WellFormed(legacy, journal) && m < |journal| && IsClosure(journal[m])
    ensures var c := journal[m].Body().closure;
            && c.totals.cumulativeNetTotalCents == Sum(journal[..m], Before(c.periodStart)) + c.totals.netTotalCents
            && c.totals.netTotalCents == c.totals.cashCents + c.totals.cardCents
            && c.totals.netTotalCents == c.totals.grossSalesCents + c.totals.correctionTotalCents
  {
    hide Linked, FreshId, ClosedSessionGuard, Within, Before;
    var c := journal[m].Body().closure;
    assert Accepted(legacy, journal[..m], journal[m]);
    CumulativeSplits(journal[..m], c.periodStart, c.periodEnd);
    PaymentsAddUpToNet(journal[..m], c.periodStart, c.periodEnd);
  }

  /**
   Each financial entry is counted by at most one closure, and by exactly one when its
   date lies between the start of some closure and the end of a later one.
   */
  lemma {:induction false} CountedOnce(legacy: Legacy, journal: seq<Entry>, e: Entry, n: nat, m: nat)
    requires WellFormed(legacy, journal) && Financial(e)
    requires n < m < |journal| && IsClosure(journal[n]) && IsClosure(journal[m])
    ensures var a, b := journal[n].Body().closure, journal[m].Body().closure;
            !(Within(e, a.periodStart, a.periodEnd) && Within(e, b.periodStart, b.periodEnd))
  {
    hide Linked, FreshId, ClosedSessionGuard, ClosureTotals;
    LastEndGrows(legacy, journal, n, m);
    assert Accepted(legacy, journal[..m], journal[m]);
  }

  predicate CountsIn(e: Entry, closing: Entry) {
    IsClosure(closing) && Within(e, closing.Body().closure.periodStart, closing.Body().closure.periodEnd)
  }

  lemma {:induction false} SomeClosureCounts(legacy: Legacy, journal: seq<Entry>, e: Entry, n: nat, m: nat) returns (k: nat)
    requires WellFormed(legacy, journal) && Financial(e)
    requires n <= m < |journal| && IsClosure(journal[n]) && IsClosure(journal[m])
    requires journal[n].Body().closure.periodStart <= FinancialDate(e) < journal[m].Body().closure.periodEnd
    ensures n <= k <= m && CountsIn(e, journal[k])
    decreases m
  {
    hide Linked, FreshId, ClosedSessionGuard, ClosureTotals;
    if journal[m].Body().closure.periodStart <= FinancialDate(e) {
      return m;
    }
    var last := PreviousClosure(journal, n, m);
    LastEndIsLastClosure(journal, last, m);
    assert Accepted(legacy, journal[..m], journal[m]);
    k := SomeClosureCounts(legacy, journal, e, n, last);
  }

  lemma {:induction false} PreviousClosure(journal: seq<Entry>, n: nat, m: nat) returns (last: nat)
    requires n < m < |journal| && IsClosure(journal[n])
    ensures n <= last < m && IsClosure(journal[last])
    ensures forall k :: last < k < m ==> !IsClosure(journal[k])
  {
    last := m - 1;
    while !IsClosure(journal[last])
      invariant n <= last < m
      invariant forall k :: last < k < m ==> !IsClosure(journal[k])
      decreases last
    {
      last := last - 1;
    }
  }

  // ----- Cash sessions -----

  /** The writers keep the session discipline, so the four forms of the active session agree on every run. */
  lemma {:induction false} WritersKeepSessionDiscipline(legacy: Legacy, journal: seq<Entry>)
    requires WellFormed(legacy, journal)
    ensures SessionDiscipline(journal)
  {
  }

  lemma {:induction false} FreshSession(legacy: Legacy, journal: seq<Entry>, n: nat)
    requires WellFormed(legacy, journal) && n < |journal| && journal[n].Body().SessionOpened?
    ensures !OpenedIn(journal[..n], journal[n].Body().session.sessionId)
  {
  }

  lemma {:induction false} ActiveSessionForms(legacy: Legacy, journal: seq<Entry>)
    requires WellFormed(legacy, journal)
    ensures ListActive(journal) == AuditorActive(journal) == ServerActive(journal)
    ensures NativeActive(journal) == AuditorActive(journal) <==> !BlankSessionThenClosure(journal)
  {
    WritersKeepSessionDiscipline(legacy, journal);
    ListAgreesWithAuditor(journal);
    AuditorAgreesWithServer(journal);
    NativeAgreesExactly(journal);
  }

  // ----- Sales and their corrections -----

  lemma {:induction false} IdsAreDistinct(legacy: Legacy, journal: seq<Entry>, i: nat, k: nat)
    requires WellFormed(legacy, journal) && i < k < |journal|
    ensures journal[i].Id() != journal[k].Id()
  {
    hide Guard, Linked;
    assert Accepted(legacy, journal[..k], journal[k]);
    assert journal[..k][i] == journal[i];
  }

  lemma {:induction false} FindSaleFinds(journal: seq<Entry>, n: nat)
    requires n < |journal| && journal[n].Body().Sale?
    requires forall k :: n < k < |journal| && journal[k].Body().Sale? ==>
               journal[k].Body().order.id != journal[n].Body().order.id
    ensures FindSale(journal, journal[n].Body().order.id) == Some(journal[n])
  {
    if n < |journal| - 1 {
      FindSaleFinds(journal[..|journal| - 1], n);
    }
  }

  /** An order id is sold at most once, and never one that a legacy order holds. */
  lemma {:induction false} SaleIsUnique(legacy: Legacy, journal: seq<Entry>, n: nat)
    requires WellFormed(legacy, journal) && n < |journal| && journal[n].Body().Sale?
    ensures journal[n].Body().order.id !in legacy
    ensures forall k :: 0 <= k < |journal| && k != n && journal[k].Body().Sale? ==>
              journal[k].Body().order.id != journal[n].Body().order.id
    ensures FindSale(journal, journal[n].Body().order.id) == Some(journal[n])
  {
    hide FreshId, CorrectionGuard, ClosureGuard, OpeningGuard, FloatGuard, ValidOrder;
    assert Accepted(legacy, journal[..n], journal[n]);
    forall k | 0 <= k < |journal| && k != n && journal[k].Body().Sale?
      ensures journal[k].Body().order.id != journal[n].Body().order.id
    {
      assert Accepted(legacy, journal[..k], journal[k]);
      if k < n { IdsAreDistinct(legacy, journal, k, n); } else { IdsAreDistinct(legacy, journal, n, k); }
    }
    FindSaleFinds(journal, n);
  }

  /** A stored order never changes afterwards. */
  lemma {:induction false} StoredOrderIsStable(legacy: Legacy, journal: seq<Entry>, e: Entry, id: string)
    requires Accepted(legacy, journal, e) && WellFormed(legacy, journal)
    requires StoredIn(legacy, journal, id).Some?
    ensures StoredIn(legacy, journal + [e], id) == StoredIn(legacy, journal, id)
  {
  }

  /** The corrections of an order, in journal order, are a history the correction guard accepts. */
  lemma {:induction false} CorrectionsFormHistory(legacy: Legacy, journal: seq<Entry>, id: string)
    requires WellFormed(legacy, journal)
    ensures StoredIn(legacy, journal, id).None? ==> PriorCorrections(journal, id) == []
    ensures StoredIn(legacy, journal, id).Some? ==>
              CorrectionHistory(StoredIn(legacy, journal, id).value.order, PriorCorrections(journal, id))
  {
    hide CorrectionRule, SaleGuard, OpeningGuard, FloatGuard, ClosureGuard, StoredIn, Linked, FreshId;
    if journal == [] {
    } else {
      var n := |journal| - 1;
      var front, e := journal[..n], journal[n];
      WellFormedPrefix(legacy, journal, n);
      CorrectionsFormHistory(legacy, front, id);
      assert Accepted(legacy, front, e);
      assert journal == front + [e];
      var prior := PriorCorrections(front, id);
      StoredAfter(legacy, front, e, id);
      if e.Body().Correction? && e.Body().correction.originalOrderId == id {
        var order := StoredIn(legacy, front, id).value.order;
        HistoryAppend(order, prior, e.Body().correction);
      }
    }
  }

  lemma {:induction false} StoredAfter(legacy: Legacy, front: seq<Entry>, e: Entry, id: string)
    requires WellFormed(legacy, front) && Accepted(legacy, front, e)
    ensures StoredIn(legacy, front, id).Some? ==> StoredIn(legacy, front + [e], id) == StoredIn(legacy, front, id)
    ensures e.Body().Correction? && e.Body().correction.originalOrderId == id ==> StoredIn(legacy, front, id).Some?
    ensures StoredIn(legacy, front + [e], id).None? ==> StoredIn(legacy, front, id).None?
  {
  }

  lemma {:induction false} HistoryAppend(order: Order, prior: seq<SaleCorrection>, c: SaleCorrection)
    requires CorrectionHistory(order, prior) && CorrectionRule(order, prior, c)
    ensures CorrectionHistory(order, prior + [c])
  {
    hide CorrectionRule;
    var longer := prior + [c];
    forall n | 0 <= n < |longer| ensures CorrectionRule(order, longer[..n], longer[n]) {
      assert longer[..n] == prior[..n];
      assert prior[..|prior|] == prior;
    }
  }

  /** A sale of the journal satisfies the order checks. */
  lemma {:induction false} SoldOrderIsValid(legacy: Legacy, journal: seq<Entry>, n: nat)
    requires WellFormed(legacy, journal) && n < |journal| && journal[n].Body().Sale?
    ensures ValidOrder(journal[n].Body().order)
  {
  }

  /**
   On every run, the refunds of a sale never exceed what was sold: by line in quantity,
   in tax by the tax of that quantity, and in total by the total of the sale.
   */
  lemma {:induction false} RefundsOfASaleConserved(legacy: Legacy, journal: seq<Entry>, n: nat, item: Item)
    requires WellFormed(legacy, journal) && n < |journal| && journal[n].Body().Sale?
    requires item in journal[n].Body().order.items
    ensures var order := journal[n].Body().order; var prior := PriorCorrections(journal, order.id);
            && 0 <= RefundedQuantity(prior, item.lineId) <= item.quantity
            && 0 <= RefundedVat(prior, item.lineId) <= Vat.IncludedVat(LineTotal(item), item.vatRate)
            && 0 <= RefundedAmount(prior) <= order.totalCents
  {
    hide ValidOrder, Cost, WellFormed, CorrectionHistory, RefundedQuantity, RefundedVat, RefundedAmount, RefundedValue;
    var order := journal[n].Body().order;
    var prior := PriorCorrections(journal, order.id);
    SaleIsUnique(legacy, journal, n);
    SoldOrderIsValid(legacy, journal, n);
    CorrectionsFormHistory(legacy, journal, order.id);
    RefundsConserved(order, prior, item);
    RefundedTaxBounded(order, prior, item);
    RefundedAmountBounded(order, prior);
  }
}
