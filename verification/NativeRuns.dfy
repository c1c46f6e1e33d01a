/**
 Whole runs of the native writers (native/android/RoomOrderStore.kt:374-591, 653-707): one
 guard per kind of entry, and the runs they make against the runs of the web writers.
 */
module NativeRuns {
  import opened Ledger
  import opened Closures
  import opened CashSessions
  import opened Refunds
  import opened Journal
  import opened NativeStore
  import Repository
  import Auditor

  /** createOrderInTransaction: the validated order, the closure date, and an insert that a stored id aborts. */
  predicate NativeSale(legacy: Legacy, journal: seq<Entry>, e: Entry, order: Order) {
    && ValidNewOrder(order)
    && StoredIn(legacy, journal, order.id).None?
    && e.RecordedAt() == order.createdAt
    && NotBefore(LastClosureEnd(journal), order.paidAt)
  }

  /** recordCorrection: the order it corrects gives the numbers, the payment method and the hash. */
  predicate NativeCorrection(legacy: Legacy, journal: seq<Entry>, e: Entry, c: SaleCorrection) {
    var original := StoredIn(legacy, journal, c.originalOrderId);
    && original.Some?
    && CorrectionRule(original.value.order, PriorCorrections(journal, c.originalOrderId), c)
    && NotBefore(LastClosureEnd(journal), e.RecordedAt())
    && c.originalOrderNumber == original.value.order.orderNumber
    && c.originalReceiptNumber == original.value.order.receiptNumber
    && c.paymentMethod == original.value.order.paymentMethod
    && c.originalSaleHash == HashOf(original.value)
  }

  /** closePeriod, for some request. */
  ghost predicate NativeClosing(journal: seq<Entry>, e: Entry, c: SalesClosure) {
    exists r: Repository.ClosureRequest :: ClosesFor(journal, e, c, r)
  }

  predicate ClosesFor(journal: seq<Entry>, e: Entry, c: SalesClosure, r: Repository.ClosureRequest) {
    r.recordedAt == e.RecordedAt() && r.terminalId == e.content.terminalId && NativeClosure(journal, r) && c == NativeClosureOf(journal, r)
  }

  ghost predicate NativeGuard(legacy: Legacy, journal: seq<Entry>, e: Entry) {
    match e.Body()
    case Sale(order) => NativeSale(legacy, journal, e, order)
    case Correction(c) => NativeCorrection(legacy, journal, e, c)
    case SessionOpened(s) => NativeOpening(journal, e, s)
    case FloatUpdated(u) => NativeFloat(journal, e, u)
    case Closure(c) => NativeClosing(journal, e, c)
  }

  ghost predicate NativeAccepted(legacy: Legacy, journal: seq<Entry>, e: Entry) {
    Linked(journal, e) && FreshId(journal, e.Id()) && NativeGuard(legacy, journal, e)
  }

  ghost predicate NativeRun(legacy: Legacy, journal: seq<Entry>) {
    forall n :: 0 <= n < |journal| ==> NativeAccepted(legacy, journal[..n], journal[n])
  }

  // ----- What one side reads and the other does not -----

  /** The native writers require these texts. */
  predicate NativeReads(e: Entry) {
    match e.Body()
    case SessionOpened(s) => !Blank(s.sessionId)
    case FloatUpdated(u) => !Blank(u.operationId)
    case Closure(c) => !Blank(c.operationId)
    case _ => true
  }

  /** The web writers require a terminal of an opening, and a cash total in the safe range of a session they close. */
  predicate WebReads(journal: seq<Entry>, e: Entry) {
    match e.Body()
    case SessionOpened(_) => !Blank(e.content.terminalId)
    case Closure(c) => c.session.Some? ==> SafeInteger(ClosureTotals(journal, c.periodStart, c.periodEnd).cashCents)
    case _ => true
  }

  /** The totals of a closure fit the machine integers that add them up. */
  predicate TotalsFit(journal: seq<Entry>, e: Entry) {
    e.Body().Closure? ==> OnMachine(ClosureTotals(journal, e.Body().closure.periodStart, e.Body().closure.periodEnd))
  }

  ghost predicate AllNativeRead(journal: seq<Entry>) { forall n :: 0 <= n < |journal| ==> NativeReads(journal[n]) }

  ghost predicate AllWebRead(journal: seq<Entry>) { forall n :: 0 <= n < |journal| ==> WebReads(journal[..n], journal[n]) }

  ghost predicate AllFit(journal: seq<Entry>) { forall n :: 0 <= n < |journal| ==> TotalsFit(journal[..n], journal[n]) }

  // ----- One entry -----

  lemma {:induction false} NoBlankSession(journal: seq<Entry>)
    requires AllNativeRead(journal)
    ensures !BlankSessionThenClosure(journal)
  {
    forall i | 0 <= i < |journal| && journal[i].Body().SessionOpened? ensures journal[i].Body().session.sessionId != "" {
      assert NativeReads(journal[i]);
    }
  }

  lemma {:induction false} NativeActiveIsNamed(journal: seq<Entry>)
    requires AllNativeRead(journal)
    ensures NativeActive(journal).Some? ==> !Blank(NativeActive(journal).value.id)
  {
    hide Blank;
    if journal != [] {
      NativeActiveIsNamed(journal[..|journal| - 1]);
      assert NativeReads(journal[|journal| - 1]);
    }
  }

  /** The request whose closure a web entry records. */
  function RequestFor(e: Entry, c: SalesClosure): Repository.ClosureRequest {
    Repository.ClosureRequest(c.operationId, c.periodStart, c.periodEnd,
      if c.session.Some? then Some(c.session.value.cashSessionId) else None,
      if c.session.Some? then Some(c.session.value.openingFloatCents) else None, e.RecordedAt(), e.content.terminalId)
  }

  lemma {:induction false} EnvelopeIs(journal: seq<Entry>, e: Entry)
    requires Linked(journal, e)
    ensures e == Repository.Envelope(journal, e.RecordedAt(), e.content.terminalId, e.Body())
  {
  }

  lemma {:induction false} RecordedClosure(legacy: Legacy, journal: seq<Entry>, e: Entry, c: SalesClosure)
    requires Linked(journal, e) && e.Body() == Closure(c) && Guard(legacy, journal, e)
    ensures Repository.ClosureOf(journal, RequestFor(e, c)) == c && WebClosure(legacy, journal, RequestFor(e, c))
    ensures (c.session.Some? ==> c.session.value.cashSessionId != "") && RequestFor(e, c).cashSessionId != Some("")
    ensures RequestFor(e, c).openingFloatCents.Some? ==> SafeInteger(RequestFor(e, c).openingFloatCents.value)
    ensures c.session.Some? ==> SafeInteger(ClosureTotals(journal, c.periodStart, c.periodEnd).cashCents)
  {
    hide ClosureTotals, ActiveSession, LastClosureEnd;
    EnvelopeIs(journal, e);
  }

  lemma {:induction false} WebClosesNatively(legacy: Legacy, journal: seq<Entry>, e: Entry, c: SalesClosure)
    requires WellFormed(legacy, journal) && AllNativeRead(journal) && Linked(journal, e) && e.Body() == Closure(c)
    requires Guard(legacy, journal, e) && NativeReads(e) && TotalsFit(journal, e)
    ensures NativeClosing(journal, e, c) && WebReads(journal, e)
  {
    hide WellFormed, ClosureTotals, Guard, WebClosure, NativeClosure, NativeClosureOf, Repository.ClosureOf, OnMachine, Blank,
         BlankSessionThenClosure, AllNativeRead;
    var r := RequestFor(e, c);
    NoBlankSession(journal);
    RecordedClosure(legacy, journal, e, c);
    ClosuresAgree(legacy, journal, r);
    assert ClosesFor(journal, e, c, r);
  }

  lemma {:induction false} NativeClosesForWeb(legacy: Legacy, journal: seq<Entry>, e: Entry, c: SalesClosure)
    requires WellFormed(legacy, journal) && AllNativeRead(journal) && Linked(journal, e) && e.Body() == Closure(c)
    requires NativeClosing(journal, e, c) && WebReads(journal, e) && TotalsFit(journal, e)
    ensures Guard(legacy, journal, e) && NativeReads(e)
  {
    hide WellFormed, ClosureTotals, Guard, Repository.ClosureOf, OnMachine, Blank, BlankSessionThenClosure, AllNativeRead, Wrapped,
         NativeActive, LastClosureEnd, Repository.AsksSession;
    var r: Repository.ClosureRequest :| ClosesFor(journal, e, c, r);
    NoBlankSession(journal);
    NativeActiveIsNamed(journal);
    NotEmpty();
    ClosuresAgree(legacy, journal, r);
    EnvelopeIs(journal, e);
  }

  lemma {:induction false} NotEmpty()
    ensures Blank("")
  {
  }

  /** On one run, both writers accept the same next entry up to what each side reads, if the totals fit. */
  lemma {:induction false} EntriesAgree(legacy: Legacy, journal: seq<Entry>, e: Entry)
    requires WellFormed(legacy, journal) && AllNativeRead(journal) && TotalsFit(journal, e) && Linked(journal, e) && FreshId(journal, e.Id())
    ensures Guard(legacy, journal, e) && NativeReads(e) <==> NativeGuard(legacy, journal, e) && WebReads(journal, e)
  {
    hide WellFormed, AllNativeRead, ValidNewOrder, CorrectionRule, LastClosureEnd, TotalsFit, NativeClosing, Linked, BlankSessionThenClosure,
         OpeningGuard, FloatGuard, NativeOpening, NativeFloat, ClosureGuard, Blank;
    match e.Body()
    case Sale(order) => SaleIsNew(legacy, journal, e, order);
    case Correction(c) =>
    case SessionOpened(s) =>
      NoBlankSession(journal);
      SessionEntriesAgree(legacy, journal, e);
      NativeReadsSession(journal, e);
    case FloatUpdated(u) =>
      NoBlankSession(journal);
      SessionEntriesAgree(legacy, journal, e);
    case Closure(c) =>
      if Guard(legacy, journal, e) && NativeReads(e) { WebClosesNatively(legacy, journal, e, c); }
      if NativeGuard(legacy, journal, e) && WebReads(journal, e) { NativeClosesForWeb(legacy, journal, e, c); }
  }

  lemma {:induction false} NativeReadsSession(journal: seq<Entry>, e: Entry)
    requires e.Body().SessionOpened?
    ensures NativeOpening(journal, e, e.Body().session) ==> !Blank(e.Body().session.sessionId)
    ensures OpeningGuard(journal, e, e.Body().session) ==> !Blank(e.content.terminalId)
  {
  }

  /** A fresh id is the id of no stored sale of the journal. */
  lemma {:induction false} SaleIsNew(legacy: Legacy, journal: seq<Entry>, e: Entry, order: Order)
    requires WellFormed(legacy, journal) && Linked(journal, e) && FreshId(journal, e.Id()) && e.Body() == Sale(order)
    ensures StoredIn(legacy, journal, order.id).None? <==> order.id !in legacy
  {
    hide Guard;
    forall n | 0 <= n < |journal| && journal[n].Body().Sale? ensures journal[n].Body().order.id != order.id {
      assert Accepted(legacy, journal[..n], journal[n]);
      assert journal[n].Id() == EntryId(journal[n].Body()) && journal[n].Id() != e.Id();
    }
  }

  // ----- Whole runs -----

  lemma {:induction false} ReadPrefix(journal: seq<Entry>, m: nat)
    requires m <= |journal|
    ensures AllNativeRead(journal) ==> AllNativeRead(journal[..m])
  {
    forall n | 0 <= n < m ensures journal[..m][n] == journal[n] {
    }
  }

  /**
   The runs of the native writers are the runs of the web writers, exactly, for entries whose
   texts both sides read and whose totals fit the native integers.
   */
  lemma {:induction false} NativeRunsAreRuns(legacy: Legacy, journal: seq<Entry>)
    requires AllFit(journal)
    ensures NativeRun(legacy, journal) && AllWebRead(journal) <==> WellFormed(legacy, journal) && AllNativeRead(journal)
  {
    hide NativeAccepted, Accepted, TotalsFit, WebReads, NativeReads;
    if NativeRun(legacy, journal) && AllWebRead(journal) { FromNative(legacy, journal, |journal|); assert journal[..|journal|] == journal; }
    if WellFormed(legacy, journal) && AllNativeRead(journal) {
      forall n | 0 <= n < |journal| ensures NativeAccepted(legacy, journal[..n], journal[n]) && WebReads(journal[..n], journal[n]) {
        WellFormedPrefix(legacy, journal, n);
        ReadPrefix(journal, n);
        AcceptedParts(legacy, journal[..n], journal[n]);
        EntriesAgree(legacy, journal[..n], journal[n]);
      }
    }
  }

  lemma {:induction false} AcceptedParts(legacy: Legacy, journal: seq<Entry>, e: Entry)
    ensures Accepted(legacy, journal, e) <==> Linked(journal, e) && FreshId(journal, e.Id()) && Guard(legacy, journal, e)
    ensures NativeAccepted(legacy, journal, e) <==> Linked(journal, e) && FreshId(journal, e.Id()) && NativeGuard(legacy, journal, e)
  {
  }

  lemma {:induction false} FromNative(legacy: Legacy, journal: seq<Entry>, m: nat)
    requires AllFit(journal) && NativeRun(legacy, journal) && AllWebRead(journal) && m <= |journal|
    ensures WellFormed(legacy, journal[..m]) && AllNativeRead(journal[..m])
  {
    hide NativeAccepted, Accepted, TotalsFit, WebReads, NativeReads, WellFormed;
    if m > 0 {
      var front, e := journal[..m - 1], journal[m - 1];
      FromNative(legacy, journal, m - 1);
      AcceptedParts(legacy, front, e);
      EntriesAgree(legacy, front, e);
      WellFormedAppend(legacy, front, e);
      assert journal[..m] == front + [e];
    } else {
      assert journal[..0] == [];
      EmptyRun(legacy);
    }
  }

  lemma {:induction false} EmptyRun(legacy: Legacy)
    ensures WellFormed(legacy, [])
  {
  }

  /** So whatever a native store read back holds passes the audit of the web code. */
  lemma {:induction false} NativeRunsAudit(legacy: Legacy, journal: seq<Entry>, s: Auditor.Snapshot)
    requires NativeRun(legacy, journal) && AllWebRead(journal) && AllFit(journal) && Auditor.SnapshotOf(s, legacy, journal)
    ensures Auditor.AuditValid(s)
  {
    hide NativeRun, AllWebRead, AllFit, Auditor.AuditValid, Auditor.SnapshotOf;
    NativeRunsAreRuns(legacy, journal);
    Auditor.WritersSatisfyAuditor(legacy, journal, s);
  }
}
