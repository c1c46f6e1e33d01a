/**
 The entities of the sales journal (src/types/salesLedger.ts, src/types/order.ts).

 Timestamps are integers, the code compares fixed-format strings. Cents are
 unbounded integers; every safe-integer guard of the code is written out.
 A digest carries the content it was computed from, which is what an injective
 hash of the canonical text amounts to.
 */
module Ledger {

  const MAX_SAFE_INTEGER := 9007199254740991
  const LEDGER_SCHEMA_VERSION := 1

  predicate SafeInteger(n: int) {
    -MAX_SAFE_INTEGER <= n <= MAX_SAFE_INTEGER
  }

  datatype Option<+T> = None | Some(value: T)

  datatype PaymentMethod = Cash | Card

  datatype Item = Item(
    lineId: string,
    productId: string,
    name: string,
    unitPriceCents: int,
    quantity: int,
    vatRate: int)

  datatype Order = Order(
    id: string,
    orderNumber: string,
    receiptNumber: string,
    terminalId: string,
    paymentMethod: PaymentMethod,
    paidAt: int,
    items: seq<Item>,
    itemCount: int,
    totalCents: int,
    createdAt: int)

  datatype CorrectionType = Cancellation | Refund | Adjustment

  datatype RefundLine = RefundLine(
    originalLineId: string,
    productId: string,
    productName: string,
    quantity: int,
    unitPriceCents: int,
    vatRate: int,
    grossCents: int,
    vatCents: int)

  /** `refundLines` is absent on amount-only refunds recorded by older versions. */
  datatype SaleCorrection = SaleCorrection(
    operationId: string,
    originalOrderId: string,
    originalOrderNumber: string,
    originalReceiptNumber: string,
    kind: CorrectionType,
    reason: string,
    amountDeltaCents: int,
    paymentMethod: PaymentMethod,
    originalSaleHash: Option<Digest>,
    refundLines: Option<seq<RefundLine>>)

  datatype SessionOpening = SessionOpening(
    sessionId: string,
    periodStart: int,
    openingFloatCents: int,
    createdAt: int)

  datatype FloatUpdate = FloatUpdate(
    operationId: string,
    sessionId: string,
    previousOpeningFloatCents: int,
    newOpeningFloatCents: int,
    updatedAt: int)

  datatype Totals = Totals(
    saleCount: int,
    grossSalesCents: int,
    correctionCount: int,
    correctionTotalCents: int,
    netTotalCents: int,
    cumulativeNetTotalCents: int,
    cashCents: int,
    cardCents: int)

  /** The three optional closure fields are written together or not at all. */
  datatype ClosedSession = ClosedSession(
    cashSessionId: string,
    openingFloatCents: int,
    theoreticalCashCents: int)

  datatype SalesClosure = SalesClosure(
    operationId: string,
    periodStart: int,
    periodEnd: int,
    totals: Totals,
    session: Option<ClosedSession>)

  datatype Body =
    | Sale(order: Order)
    | Correction(correction: SaleCorrection)
    | SessionOpened(session: SessionOpening)
    | FloatUpdated(update: FloatUpdate)
    | Closure(closure: SalesClosure)

  datatype Content = Content(
    schemaVersion: int,
    id: string,
    sequence: int,
    recordedAt: int,
    previousHash: Option<Digest>,
    terminalId: string,
    body: Body)

  datatype Digest = Digest(content: Content)

  datatype Entry = Entry(content: Content, hash: Digest) {
    function Id(): string { content.id }
    function Sequence(): int { content.sequence }
    function RecordedAt(): int { content.recordedAt }
    function Body(): Body { content.body }
    predicate Sealed() { hash == Digest(content) }
  }

  datatype Integrity = Integrity(journalEntryId: string, journalSequence: int, hash: Digest)

  /** An order as the orders store keeps it; sales older than the journal carry no integrity. */
  datatype StoredOrder = StoredOrder(order: Order, integrity: Option<Integrity>)

  datatype Metadata = Metadata(
    nextOrderSequence: nat,
    nextReceiptSequence: nat,
    nextJournalSequence: nat,
    lastJournalHash: Option<Digest>,
    lastClosureEnd: Option<int>)

  function EntryId(body: Body): string {
    match body
    case Sale(order) => "sale:" + order.id
    case Correction(c) => "correction:" + c.operationId
    case SessionOpened(s) => "cash-session:" + s.sessionId
    case FloatUpdated(u) => "cash-float-update:" + u.operationId
    case Closure(c) => "closure:" + c.operationId
  }

  /** The operation key inside an entry id. */
  function OperationKey(body: Body): string {
    match body
    case Sale(order) => order.id
    case Correction(c) => c.operationId
    case SessionOpened(s) => s.sessionId
    case FloatUpdated(u) => u.operationId
    case Closure(c) => c.operationId
  }

  predicate SameKind(a: Body, b: Body) {
    || (a.Sale? && b.Sale?)
    || (a.Correction? && b.Correction?)
    || (a.SessionOpened? && b.SessionOpened?)
    || (a.FloatUpdated? && b.FloatUpdated?)
    || (a.Closure? && b.Closure?)
  }

  /** The id prefixes keep the five kinds apart: equal ids mean one kind and one operation key. */
  lemma {:induction false} EntryIdInjective(a: Body, b: Body)
    requires EntryId(a) == EntryId(b)
    ensures SameKind(a, b) && OperationKey(a) == OperationKey(b)
  {
    var x, y := EntryId(a), EntryId(b);
    assert x[0] == y[0] && x[1] == y[1] && x[2] == y[2] && (6 < |x| ==> x[6] == y[6]);
    assert SameKind(a, b);
    var n := match a { case Sale(_) => 5 case Correction(_) => 11 case SessionOpened(_) => 13
                       case FloatUpdated(_) => 18 case Closure(_) => 8 };
    assert x[n..] == OperationKey(a) && y[n..] == OperationKey(b);
  }

  const WHITESPACE: set<char> := {' ', '\t', '\n', '\r'}

  /** `!text.trim()` */
  predicate Blank(text: string) {
    forall c :: c in text ==> c in WHITESPACE
  }

  function TrimStart(text: string): string { if text != "" && text[0] in WHITESPACE then TrimStart(text[1..]) else text }

  function TrimEnd(text: string): string {
    if text != "" && text[|text| - 1] in WHITESPACE then TrimEnd(text[..|text| - 1]) else text
  }

  /** `text.trim()` */
  function Trim(text: string): string { TrimEnd(TrimStart(text)) }

  predicate IsBlankChar(c: char) { c == ' ' || c == '\t' || c == '\n' || c == '\r' }

  predicate AllBlank(text: string) { forall i :: 0 <= i < |text| ==> IsBlankChar(text[i]) }

  lemma {:induction false} SpaceIs(c: char)
    ensures c in WHITESPACE <==> IsBlankChar(c)
  {
  }

  lemma {:induction false} TrimmedStart(text: string) returns (before: string)
    ensures AllBlank(before) && text == before + TrimStart(text)
    ensures TrimStart(text) != "" ==> !IsBlankChar(TrimStart(text)[0])
  {
    hide IsBlankChar;
    before := "";
    if text != "" {
      SpaceIs(text[0]);
      if text[0] in WHITESPACE {
        var rest := TrimmedStart(text[1..]);
        before := [text[0]] + rest;
        assert text == [text[0]] + text[1..];
      }
    }
  }

  lemma {:induction false} TrimmedEnd(text: string) returns (after: string)
    ensures AllBlank(after) && text == TrimEnd(text) + after
    ensures TrimEnd(text) != "" ==> !IsBlankChar(TrimEnd(text)[|TrimEnd(text)| - 1])
  {
    hide IsBlankChar;
    after := "";
    if text != "" {
      var n := |text| - 1;
      SpaceIs(text[n]);
      if text[n] in WHITESPACE {
        var rest := TrimmedEnd(text[..n]);
        after := rest + [text[n]];
        assert text == text[..n] + [text[n]];
      }
    }
  }

  /** A trimmed text is what stands between the blanks around it. */
  lemma {:induction false} TrimExactly(text: string) returns (before: string, after: string)
    ensures AllBlank(before) && AllBlank(after) && text == before + Trim(text) + after
    ensures var name := Trim(text); name != "" ==> !IsBlankChar(name[0]) && !IsBlankChar(name[|name| - 1])
  {
    hide TrimStart, TrimEnd, IsBlankChar;
    before := TrimmedStart(text);
    after := TrimmedEnd(TrimStart(text));
  }

  lemma {:induction false} BlankStart(text: string)
    ensures Blank(TrimStart(text)) <==> Blank(text)
  {
    if text != "" && text[0] in WHITESPACE {
      BlankStart(text[1..]);
      assert text == [text[0]] + text[1..];
    }
  }

  lemma {:induction false} BlankEnd(text: string)
    ensures TrimEnd(text) == "" <==> Blank(text)
  {
    if text != "" {
      var n := |text| - 1;
      assert text == text[..n] + [text[n]];
      if text[n] in WHITESPACE {
        BlankEnd(text[..n]);
      } else {
        assert text[n] in text;
      }
    }
  }

  lemma {:induction false} TrimsToNothing(text: string)
    ensures Trim(text) == "" <==> Blank(text)
  {
    BlankStart(text);
    BlankEnd(TrimStart(text));
  }

  function Head(journal: seq<Entry>): Option<Digest> {
    if journal == [] then None else Some(journal[|journal| - 1].hash)
  }

  function LastClosureEnd(journal: seq<Entry>): Option<int> {
    if journal == [] then None
    else
      var last := journal[|journal| - 1].Body();
      if last.Closure? then Some(last.closure.periodEnd) else LastClosureEnd(journal[..|journal| - 1])
  }
}
