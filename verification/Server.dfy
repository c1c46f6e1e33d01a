/**
 The server's own judgement of an event (server/src/ledger/business.ts): structural
 checks on the payload, then business checks against the stored prefix, with checked
 integer arithmetic. The stored prefix is the journal before the event.
 */
module Server {
  import opened Ledger
  import opened Sums
  import opened Vat
  import opened Closures
  import opened CashSessions
  import opened Refunds
  import opened Journal

  // ----- validatePayload -----

  predicate WholeNumber(n: int, minimum: int) { SafeInteger(n) && minimum <= n }

  /** The running total of the server's loop over items. */
  predicate SafePrefixes<T>(xs: seq<T>, f: T -> int) {
    forall n :: 0 <= n <= |xs| ==> SafeInteger(Sum(xs[..n], f))
  }

  predicate PayloadItem(item: Item) {
    && !Blank(item.lineId)
    && !Blank(item.productId)
    && !Blank(item.name)
    && item.vatRate in {10, 20}
    && WholeNumber(item.quantity, 1)
    && WholeNumber(item.unitPriceCents, 0)
    && SafeInteger(LineTotal(item))
  }

  predicate PayloadItems(items: seq<Item>) {
    && (forall i :: 0 <= i < |items| ==> PayloadItem(items[i]))
    && DistinctLines(items)
    && SafePrefixes(items, Price)
    && SafePrefixes(items, Quantity)
  }

  predicate PayloadOrder(order: Order, sourceTerminal: string) {
    && !Blank(order.id)
    && !Blank(order.orderNumber)
    && !Blank(order.receiptNumber)
    && !Blank(sourceTerminal)
    && order.terminalId == sourceTerminal
    && order.items != []
    && PayloadItems(order.items)
    && WholeNumber(order.totalCents, 0)
    && WholeNumber(order.itemCount, 1)
    && order.totalCents == Sum(order.items, Price)
    && order.itemCount == Sum(order.items, Quantity)
  }

  lemma {:induction false} SafePrefixesStep<T>(front: seq<T>, last: T, f: T -> int)
    ensures SafePrefixes(front + [last], f) <==> SafePrefixes(front, f) && SafeInteger(Sum(front + [last], f))
  {
    hide Sum, SafeInteger;
    var all := front + [last];
    assert forall n :: 0 <= n <= |front| ==> all[..n] == front[..n];
    assert all[..|all|] == all;
    if SafePrefixes(all, f) {
      forall n | 0 <= n <= |front| ensures SafeInteger(Sum(front[..n], f)) {
        assert SafeInteger(Sum(all[..n], f));
      }
    }
  }

  /** What one more item adds to the checks; a refused prefix refuses the whole. */
  lemma {:induction false} PayloadItemsStep(front: seq<Item>, item: Item)
    ensures PayloadItems(front + [item]) <==>
              && PayloadItems(front)
              && PayloadItem(item)
              && (forall k :: 0 <= k < |front| ==> front[k].lineId != item.lineId)
              && SafeInteger(Sum(front + [item], Price))
              && SafeInteger(Sum(front + [item], Quantity))
  {
    hide PayloadItem, SafePrefixes, SafeInteger, Sum;
    var all := front + [item];
    SafePrefixesStep(front, item, Price);
    SafePrefixesStep(front, item, Quantity);
    assert all[|front|] == item;
    assert forall k :: 0 <= k < |front| ==> all[k] == front[k];
  }

  lemma {:induction false} PayloadItemsPrefix(items: seq<Item>, m: nat)
    requires m <= |items| && PayloadItems(items)
    ensures PayloadItems(items[..m])
    decreases |items|
  {
    hide PayloadItems;
    if m == |items| {
      assert items[..m] == items;
    } else {
      var n := |items| - 1;
      assert items == items[..n] + [items[n]];
      PayloadItemsStep(items[..n], items[n]);
      PayloadItemsPrefix(items[..n], m);
      assert items[..n][..m] == items[..m];
    }
  }

  lemma {:induction false} NoItems()
    ensures PayloadItems([]) && Sum<Item>([], Price) == 0 && Sum<Item>([], Quantity) == 0
  {
  }

  /** The item loop of validateOrder: a `seen` set and two checked running totals; None is a refusal. */
  method CheckItems(items: seq<Item>) returns (sums: Option<(int, int)>)
    ensures sums.Some? <==> PayloadItems(items)
    ensures sums.Some? ==> sums.value == (Sum(items, Price), Sum(items, Quantity))
  {
    hide Cost, Blank, PayloadItem, PayloadItems, SafeInteger, Sum;
    var total, count := 0, 0;
    var seen: set<string> := {};
    assert items[..0] == [];
    NoItems();
    for i := 0 to |items|
      invariant seen == set k | 0 <= k < i :: items[k].lineId
      invariant PayloadItems(items[..i])
      invariant total == Sum(items[..i], Price) && count == Sum(items[..i], Quantity)
    {
      var item := items[i];
      assert items[..i + 1] == items[..i] + [item];
      assert forall k :: 0 <= k < i ==> items[..i][k] == items[k];
      PayloadItemsStep(items[..i], item);
      if PayloadItems(items) {
        PayloadItemsPrefix(items, i + 1);
      }
      SumAppend(items[..i], item, Price);
      SumAppend(items[..i], item, Quantity);
      if item.lineId in seen { return None; }
      seen := seen + {item.lineId};
      if !PayloadItem(item) { return None; }
      total := total + LineTotal(item);
      count := count + item.quantity;
      if !SafeInteger(total) || !SafeInteger(count) { return None; }
    }
    assert items[..|items|] == items;
    return Some((total, count));
  }

  method ValidateOrder(order: Order, sourceTerminal: string) returns (accepted: bool)
    ensures accepted <==> PayloadOrder(order, sourceTerminal)
  {
    hide Blank, PayloadItems, Sum;
    if Blank(order.id) || Blank(order.orderNumber) || Blank(order.receiptNumber) { return false; }
    if Blank(sourceTerminal) || order.terminalId != sourceTerminal || order.items == [] { return false; }
    var sums := CheckItems(order.items);
    if sums.None? { return false; }
    return WholeNumber(order.totalCents, 0) && WholeNumber(order.itemCount, 1)
      && order.totalCents == sums.value.0 && order.itemCount == sums.value.1;
  }

  predicate PayloadLine(line: RefundLine) {
    && !Blank(line.originalLineId)
    && !Blank(line.productId)
    && !Blank(line.productName)
    && WholeNumber(line.quantity, 1)
    && WholeNumber(line.unitPriceCents, 0)
    && line.vatRate in {10, 20}
    && WholeNumber(line.grossCents, 0)
    && WholeNumber(line.vatCents, 0)
  }

  predicate PayloadCorrection(c: SaleCorrection) {
    && !Blank(c.operationId)
    && !Blank(c.originalOrderId)
    && !Blank(c.originalOrderNumber)
    && !Blank(c.originalReceiptNumber)
    && !Blank(c.reason)
    && SafeInteger(c.amountDeltaCents)
    && c.amountDeltaCents != 0
    && (c.kind.Adjustment? || c.amountDeltaCents < 0)
    && (c.refundLines.Some? ==>
          && c.kind.Refund?
          && c.refundLines.value != []
          && DistinctSelections(c.refundLines.value)
          && forall k :: 0 <= k < |c.refundLines.value| ==> PayloadLine(c.refundLines.value[k]))
  }

  predicate PayloadTotals(t: Totals) {
    && WholeNumber(t.saleCount, 0)
    && WholeNumber(t.grossSalesCents, 0)
    && WholeNumber(t.correctionCount, 0)
    && SafeInteger(t.correctionTotalCents)
    && SafeInteger(t.netTotalCents)
    && SafeInteger(t.cumulativeNetTotalCents)
    && SafeInteger(t.cashCents)
    && SafeInteger(t.cardCents)
  }

  predicate Payload(e: Entry) {
    match e.Body()
    case Sale(order) => PayloadOrder(order, e.content.terminalId)
    case Correction(c) => PayloadCorrection(c)
    case SessionOpened(s) =>
      && !Blank(e.content.terminalId)
      && !Blank(s.sessionId)
      && WholeNumber(s.openingFloatCents, 0)
      && s.createdAt == e.RecordedAt()
      && s.periodStart <= s.createdAt
    case FloatUpdated(u) =>
      && !Blank(u.operationId)
      && !Blank(u.sessionId)
      && WholeNumber(u.previousOpeningFloatCents, 0)
      && WholeNumber(u.newOpeningFloatCents, 0)
      && u.updatedAt == e.RecordedAt()
    case Closure(c) =>
      && !Blank(c.operationId)
      && c.periodStart < c.periodEnd <= e.RecordedAt()
      && PayloadTotals(c.totals)
      && (c.session.Some? ==>
            && !Blank(c.session.value.cashSessionId)
            && WholeNumber(c.session.value.openingFloatCents, 0)
            && SafeInteger(c.session.value.theoreticalCashCents))
  }

  // ----- The streamed closure totals -----

  predicate SafeColumns(prefix: seq<Entry>, start: int, end: int) {
    && SafeInteger(Sum(prefix, Before(end)))
    && SafeInteger(Sum(prefix, SaleCountIn(start, end)))
    && SafeInteger(Sum(prefix, GrossIn(start, end)))
    && SafeInteger(Sum(prefix, CorrectionCountIn(start, end)))
    && SafeInteger(Sum(prefix, CorrectionsIn(start, end)))
    && SafeInteger(Sum(prefix, PaymentsIn(Cash, start, end)))
    && SafeInteger(Sum(prefix, PaymentsIn(Card, start, end)))
  }

  /** No checked addition of the stream overflows. */
  ghost predicate SumsSafe(journal: seq<Entry>, start: int, end: int) {
    && (forall n :: 0 <= n <= |journal| ==> SafeColumns(journal[..n], start, end))
    && SafeInteger(ClosureTotals(journal, start, end).netTotalCents)
  }

  /** One entry of the stream: every addition it makes is checked. */
  method StreamEntry(totals: Totals, e: Entry, start: int, end: int, ghost prefix: seq<Entry>)
      returns (next: Option<Totals>)
    requires Financial(e) ==> SafeInteger(Amount(e))
    requires SafeColumns(prefix, start, end)
    requires totals == ClosureTotals(prefix, start, end).(netTotalCents := 0)
    ensures next == if SafeColumns(prefix + [e], start, end)
                    then Some(ClosureTotals(prefix + [e], start, end).(netTotalCents := 0)) else None
  {
    TotalsAppend(prefix, e, start, end);
    hide Sum;
    if !Financial(e) || FinancialDate(e) >= end { return Some(totals); }
    var amount := Amount(e);
    var t := totals.(cumulativeNetTotalCents := totals.cumulativeNetTotalCents + amount);
    if !SafeInteger(t.cumulativeNetTotalCents) { return None; }
    if FinancialDate(e) < start { return Some(t); }
    if e.Body().Sale? {
      t := t.(saleCount := t.saleCount + 1, grossSalesCents := t.grossSalesCents + amount);
      if !SafeInteger(t.saleCount) || !SafeInteger(t.grossSalesCents) { return None; }
    } else {
      t := t.(correctionCount := t.correctionCount + 1, correctionTotalCents := t.correctionTotalCents + amount);
      if !SafeInteger(t.correctionCount) || !SafeInteger(t.correctionTotalCents) { return None; }
    }
    if MethodOf(e) == Cash {
      t := t.(cashCents := t.cashCents + amount);
      if !SafeInteger(t.cashCents) { return None; }
    } else {
      t := t.(cardCents := t.cardCents + amount);
      if !SafeInteger(t.cardCents) { return None; }
    }
    return Some(t);
  }

  method StreamTotals(journal: seq<Entry>, start: int, end: int) returns (totals: Option<Totals>)
    requires forall e :: e in journal && Financial(e) ==> SafeInteger(Amount(e))
    ensures totals == if SumsSafe(journal, start, end) then Some(ClosureTotals(journal, start, end)) else None
  {
    hide SafeColumns;
    var sums := Totals(0, 0, 0, 0, 0, 0, 0, 0);
    assert SafeColumns(journal[..0], start, end) by { EmptyColumns(start, end); assert journal[..0] == []; }
    for i := 0 to |journal|
      invariant forall n :: 0 <= n <= i ==> SafeColumns(journal[..n], start, end)
      invariant sums == ClosureTotals(journal[..i], start, end).(netTotalCents := 0)
    {
      assert journal[..i + 1] == journal[..i] + [journal[i]];
      var next := StreamEntry(sums, journal[i], start, end, journal[..i]);
      if next.None? { return None; }
      sums := next.value;
    }
    assert journal[..|journal|] == journal;
    var net := sums.grossSalesCents + sums.correctionTotalCents;
    if !SafeInteger(net) { return None; }
    return Some(sums.(netTotalCents := net));
  }

  lemma {:induction false} EmptyColumns(start: int, end: int)
    ensures SafeColumns([], start, end)
  {
  }

  // ----- validateCorrection -----

  /** `array.find`: the first item of a line id. */
  function FindFirst(items: seq<Item>, lineId: string): Option<Item> {
    if items == [] then None
    else if items[0].lineId == lineId then Some(items[0])
    else FindFirst(items[1..], lineId)
  }

  /** The line the server expects, with every product and sum checked. */
  predicate ServerLine(items: seq<Item>, prior: seq<SaleCorrection>, line: RefundLine) {
    var sold := FindFirst(items, line.originalLineId);
    && sold.Some?
    && WholeNumber(line.quantity, 1)
    && 0 <= sold.value.vatRate
    && var before := RefundedQuantity(prior, line.originalLineId);
       var gross, previousGross := Cost(sold.value.unitPriceCents, line.quantity), Cost(sold.value.unitPriceCents, before);
       var rate := sold.value.vatRate;
    && SafeInteger(line.quantity + before)
    && line.quantity + before <= sold.value.quantity
    && SafeInteger(gross)
    && SafeInteger(previousGross)
    && SafeInteger(previousGross + gross)
    && WholeNumber(IncludedVat(previousGross + gross, rate), 0)
    && WholeNumber(IncludedVat(previousGross, rate), 0)
    && line == RefundLine(line.originalLineId, sold.value.productId, sold.value.name, line.quantity,
                          sold.value.unitPriceCents, rate, gross,
                          IncludedVat(previousGross + gross, rate) - IncludedVat(previousGross, rate))
  }

  ghost predicate QuantitiesSafe(prior: seq<SaleCorrection>) {
    forall n, k, id :: 0 <= n < |prior| && 0 <= k <= |LinesOf(prior[n])| ==>
      SafeInteger(RefundedQuantity(prior[..n], id) + Sum(LinesOf(prior[n])[..k], QuantityOn(id)))
  }

  ghost predicate ServerCorrection(order: Order, prior: seq<SaleCorrection>, c: SaleCorrection) {
    && !Cancelled(prior)
    && SafePrefixes(prior, RefundAmount)
    && QuantitiesSafe(prior)
    && (c.kind.Cancellation? ==> c.amountDeltaCents == -order.totalCents && prior == [])
    && (c.kind.Refund? ==>
          && SafeInteger(RefundedAmount(prior) - c.amountDeltaCents)
          && RefundedAmount(prior) - c.amountDeltaCents <= order.totalCents
          && (c.refundLines.Some? ==>
                && !HasAmountOnlyRefund(prior)
                && (forall k :: 0 <= k < |c.refundLines.value| ==> ServerLine(order.items, prior, c.refundLines.value[k]))
                && SafePrefixes(c.refundLines.value, Gross)
                && c.amountDeltaCents == -Sum(c.refundLines.value, Gross)))
  }

  lemma {:induction false} FirstIsLast(items: seq<Item>, lineId: string)
    requires DistinctLines(items)
    ensures FindFirst(items, lineId) == FindItem(items, lineId)
  {
    if items != [] {
      FirstIsLast(items[1..], lineId);
      var found := FindFirst(items, lineId);
      if items[0].lineId == lineId {
        ItemIsUnique(items, items[0]);
      } else if found.Some? {
        assert items == [items[0]] + items[1..];
        ItemIsUnique(items, found.value);
      } else {
        FindNone(items[1..], lineId);
        FindNone(items, lineId);
      }
    }
  }

  lemma {:induction false} FindNone(items: seq<Item>, lineId: string)
    ensures FindItem(items, lineId).None? <==> forall i :: 0 <= i < |items| ==> items[i].lineId != lineId
  {
  }

  /** Quantities refunded so far are zero off the order and never beyond what was sold. */
  lemma {:induction false} QuantityBounds(order: Order, prior: seq<SaleCorrection>, lineId: string)
    requires ValidOrder(order) && CorrectionHistory(order, prior)
    ensures 0 <= RefundedQuantity(prior, lineId) <= MAX_SAFE_INTEGER
    ensures FindItem(order.items, lineId).Some? ==> RefundedQuantity(prior, lineId) <= FindItem(order.items, lineId).value.quantity
  {
    hide Cost, IncludedVat, CorrectionHistory;
    if FindItem(order.items, lineId).Some? {
      var item := FindItem(order.items, lineId).value;
      RefundsConserved(order, prior, item);
      var i :| 0 <= i < |order.items| && order.items[i] == item;
      assert ValidItem(order.items[i]);
    } else {
      NothingOffTheOrder(order, prior, lineId);
    }
  }

  lemma {:induction false} NothingOffTheOrder(order: Order, prior: seq<SaleCorrection>, lineId: string)
    requires CorrectionHistory(order, prior) && FindItem(order.items, lineId).None?
    ensures RefundedQuantity(prior, lineId) == 0
  {
    hide Cost, IncludedVat;
    if prior != [] {
      var n := |prior| - 1;
      HistoryPrefix(order, prior, n);
      NothingOffTheOrder(order, prior[..n], lineId);
      RefundLinesAreValid(order, prior[..n], prior[n]);
      var lines := LinesOf(prior[n]);
      forall line | line in lines ensures QuantityOn(lineId)(line) == 0 {
        var k :| 0 <= k < |lines| && lines[k] == line;
        assert ValidLine(order.items, prior[..n], lines[k]);
      }
      SumZero(lines, QuantityOn(lineId));
    }
  }

  /** One refund line: the client's canonical line is exactly the one the server expects. */
  lemma {:induction false} LineAgrees(order: Order, prior: seq<SaleCorrection>, line: RefundLine)
    requires ValidOrder(order) && CorrectionHistory(order, prior)
    ensures ValidLine(order.items, prior, line) <==> !Blank(line.originalLineId) && ServerLine(order.items, prior, line)
  {
    hide Cost, IncludedVat, RefundedQuantity, CorrectionHistory, Blank;
    FirstIsLast(order.items, line.originalLineId);
    QuantityBounds(order, prior, line.originalLineId);
    var sold := FindItem(order.items, line.originalLineId);
    if sold.Some? && 0 < line.quantity && line.quantity + RefundedQuantity(prior, line.originalLineId) <= sold.value.quantity {
      PricesAreSafe(order, sold.value, RefundedQuantity(prior, line.originalLineId), line.quantity);
    }
  }

  lemma {:induction false} PricesAreSafe(order: Order, item: Item, before: int, quantity: int)
    requires ValidOrder(order) && item in order.items && 0 <= before && 0 < quantity && before + quantity <= item.quantity
    ensures 0 <= item.vatRate && WholeNumber(item.quantity, 1)
    ensures var gross, previous := Cost(item.unitPriceCents, quantity), Cost(item.unitPriceCents, before);
            && WholeNumber(gross, 0) && WholeNumber(previous, 0) && WholeNumber(previous + gross, 0)
            && WholeNumber(IncludedVat(previous + gross, item.vatRate), 0)
            && WholeNumber(IncludedVat(previous, item.vatRate), 0)
            && 0 <= IncludedVat(previous + gross, item.vatRate) - IncludedVat(previous, item.vatRate) <= gross
  {
    hide Cost, IncludedVat, Blank;
    var i :| 0 <= i < |order.items| && order.items[i] == item;
    assert ValidItem(order.items[i]);
    LineTotalWithinOrder(order, item);
    var unit := item.unitPriceCents;
    CostUnits(unit);
    CostMonotone(unit, 0, before);
    CostMonotone(unit, 0, quantity);
    CostAdds(unit, before, quantity);
    CostMonotone(unit, before + quantity, item.quantity);
    IncludedVatBounds(Cost(unit, before), item.vatRate);
    IncludedVatBounds(Cost(unit, before) + Cost(unit, quantity), item.vatRate);
    IncludedVatStep(Cost(unit, before), Cost(unit, quantity), item.vatRate);
  }

  /** On a valid history no checked addition of the server's correction loop overflows. */
  lemma {:induction false} HistorySumsSafe(order: Order, prior: seq<SaleCorrection>)
    requires ValidOrder(order) && CorrectionHistory(order, prior)
    ensures SafePrefixes(prior, RefundAmount) && QuantitiesSafe(prior)
  {
    hide Cost, IncludedVat, CorrectionHistory, RefundedQuantity, ValidOrder;
    assert SafeInteger(order.totalCents) by { TotalIsSafe(order); }
    forall n | 0 <= n <= |prior| ensures SafeInteger(Sum(prior[..n], RefundAmount)) {
      HistoryPrefix(order, prior, n);
      RefundedAmountBounded(order, prior[..n]);
    }
    forall n, k, id | 0 <= n < |prior| && 0 <= k <= |LinesOf(prior[n])|
      ensures SafeInteger(RefundedQuantity(prior[..n], id) + Sum(LinesOf(prior[n])[..k], QuantityOn(id)))
    {
      HistoryPrefix(order, prior, n);
      HistoryPrefix(order, prior, n + 1);
      QuantityBounds(order, prior[..n], id);
      QuantityBounds(order, prior[..n + 1], id);
      NextQuantity(prior, n, id);
      LineQuantitiesPositive(order, prior, n, id);
      SumPrefixBelow(LinesOf(prior[n]), k, QuantityOn(id));
    }
  }

  lemma {:induction false} TotalIsSafe(order: Order)
    requires ValidOrder(order)
    ensures WholeNumber(order.totalCents, 0)
  {
    hide Cost, Blank;
    var item := order.items[0];
    LineTotalWithinOrder(order, item);
  }

  lemma {:induction false} NextQuantity(prior: seq<SaleCorrection>, n: nat, id: string)
    requires n < |prior|
    ensures RefundedQuantity(prior[..n + 1], id) == RefundedQuantity(prior[..n], id) + Sum(LinesOf(prior[n]), QuantityOn(id))
  {
    assert prior[..n + 1] == prior[..n] + [prior[n]];
    SumAppend(prior[..n], prior[n], RefundQuantityOn(id));
  }

  lemma {:induction false} LineQuantitiesPositive(order: Order, prior: seq<SaleCorrection>, n: nat, id: string)
    requires CorrectionHistory(order, prior) && n < |prior|
    ensures forall line :: line in LinesOf(prior[n]) ==> 0 <= QuantityOn(id)(line)
  {
  }

  lemma {:induction false} LinesAgree(order: Order, prior: seq<SaleCorrection>, lines: seq<RefundLine>)
    requires ValidOrder(order) && CorrectionHistory(order, prior)
    requires lines != [] && DistinctSelections(lines) && forall k :: 0 <= k < |lines| ==> !Blank(lines[k].originalLineId)
    ensures ValidRefundLines(order.items, prior, lines) <==>
            (!HasAmountOnlyRefund(prior) && forall k :: 0 <= k < |lines| ==> ServerLine(order.items, prior, lines[k]))
  {
    hide ValidLine, ServerLine, ValidOrder, CorrectionHistory, HasAmountOnlyRefund;
    forall k | 0 <= k < |lines|
      ensures ValidLine(order.items, prior, lines[k]) <==> ServerLine(order.items, prior, lines[k])
    {
      LineAgrees(order, prior, lines[k]);
    }
  }

  lemma {:induction false} ValidLineIsPayload(order: Order, prior: seq<SaleCorrection>, line: RefundLine)
    requires ValidOrder(order) && CorrectionHistory(order, prior) && ValidLine(order.items, prior, line)
    ensures PayloadLine(line)
  {
    hide Cost, IncludedVat, CorrectionHistory, RefundedQuantity, Blank, ValidOrder;
    var item := FindItem(order.items, line.originalLineId).value;
    QuantityBounds(order, prior, line.originalLineId);
    PricesAreSafe(order, item, RefundedQuantity(prior, line.originalLineId), line.quantity);
    ItemTexts(order, item);
  }

  /** Accepted lines are whole payload lines, and their running total is safe. */
  lemma {:induction false} ValidLinesAreSafe(order: Order, prior: seq<SaleCorrection>, lines: seq<RefundLine>)
    requires ValidOrder(order) && CorrectionHistory(order, prior) && ValidRefundLines(order.items, prior, lines)
    ensures forall k :: 0 <= k < |lines| ==> PayloadLine(lines[k])
    ensures SafePrefixes(lines, Gross) && SafeInteger(RefundedAmount(prior) + Sum(lines, Gross))
  {
    hide CorrectionHistory, ValidOrder, RefundedAmount, PayloadLine, ValidLine;
    forall k | 0 <= k < |lines| ensures PayloadLine(lines[k]) {
      ValidLineIsPayload(order, prior, lines[k]);
    }
    RefundedAmountBounded(order, prior);
    LineBoundImpliesTotalBound(order, prior, lines);
    forall line | line in lines ensures 0 <= Gross(line) {
      var k :| 0 <= k < |lines| && lines[k] == line;
      PayloadGross(lines[k]);
    }
    SumNonNegative(lines, Gross);
    TotalIsSafe(order);
    forall n | 0 <= n <= |lines| ensures SafeInteger(Sum(lines[..n], Gross)) {
      SumPrefixBelow(lines, n, Gross);
    }
  }

  lemma {:induction false} PayloadGross(line: RefundLine)
    requires PayloadLine(line)
    ensures 0 <= line.grossCents
  {
  }

  lemma {:induction false} ItemTexts(order: Order, item: Item)
    requires ValidOrder(order) && item in order.items
    ensures ValidItem(item)
  {
  }

  /** The writer's guard and the server's check accept the same corrections. */
  lemma {:induction false} CorrectionsAgree(order: Order, prior: seq<SaleCorrection>, c: SaleCorrection)
    requires ValidOrder(order) && CorrectionHistory(order, prior) && PayloadCorrection(c)
    requires c.kind.Refund? ==> c.refundLines.Some?
    ensures CorrectionRule(order, prior, c) <==> ServerCorrection(order, prior, c)
  {
    hide ValidOrder, CorrectionHistory, QuantitiesSafe, SafePrefixes, RefundedAmount, ValidRefundLines, ServerLine, Blank,
         HasAmountOnlyRefund;
    HistorySumsSafe(order, prior);
    if c.kind.Refund? {
      var lines := c.refundLines.value;
      LinesAgree(order, prior, lines);
      if ValidRefundLines(order.items, prior, lines) {
        ValidLinesAreSafe(order, prior, lines);
      }
    }
  }

  /** What the server gathers from the earlier corrections of a sale. */
  datatype Gathered = Gathered(refundedAmount: int, amountOnly: bool, quantities: map<string, int>)

  ghost predicate QuantitySafeAt(prior: seq<SaleCorrection>, n: nat, k: nat)
    requires n < |prior| && k <= |LinesOf(prior[n])|
  {
    forall id :: SafeInteger(RefundedQuantity(prior[..n], id) + Sum(LinesOf(prior[n])[..k], QuantityOn(id)))
  }

  /** No addition for the lines of the n-th correction overflows. */
  ghost predicate QuantitiesSafeAt(prior: seq<SaleCorrection>, n: nat)
    requires n < |prior|
  {
    forall k :: 0 <= k <= |LinesOf(prior[n])| ==> QuantitySafeAt(prior, n, k)
  }

  /** The inner loop: the lines of one refund. None when a checked addition overflows. */
  method AddLines(prior: seq<SaleCorrection>, n: nat, quantities: map<string, int>) returns (sums: Option<map<string, int>>)
    requires n < |prior|
    requires forall id :: At(quantities, id) == RefundedQuantity(prior[..n], id) && SafeInteger(At(quantities, id))
    ensures sums.Some? <==> QuantitiesSafeAt(prior, n)
    ensures sums.Some? ==> forall id :: At(sums.value, id) == RefundedQuantity(prior[..n + 1], id) && SafeInteger(At(sums.value, id))
  {
    hide RefundedQuantity;
    var lines, current := LinesOf(prior[n]), quantities;
    assert QuantitySafeAt(prior, n, 0);
    for k := 0 to |lines|
      invariant forall id :: At(current, id) == RefundedQuantity(prior[..n], id) + Sum(lines[..k], QuantityOn(id))
      invariant forall id :: SafeInteger(At(current, id))
      invariant forall m :: 0 <= m <= k ==> QuantitySafeAt(prior, n, m)
    {
      var line := lines[k];
      var sum := At(current, line.originalLineId) + line.quantity;
      forall id ensures Sum(lines[..k + 1], QuantityOn(id)) == Sum(lines[..k], QuantityOn(id)) + QuantityOn(id)(line) {
        assert lines[..k + 1] == lines[..k] + [line];
        SumAppend(lines[..k], line, QuantityOn(id));
      }
      if !SafeInteger(sum) {
        assert !QuantitySafeAt(prior, n, k + 1);
        return None;
      }
      current := current[line.originalLineId := sum];
    }
    assert lines[..|lines|] == lines;
    forall id ensures RefundedQuantity(prior[..n + 1], id) == RefundedQuantity(prior[..n], id) + Sum(lines, QuantityOn(id)) {
      NextQuantity(prior, n, id);
    }
    return Some(current);
  }

  /** The outer loop: None when a prior cancellation is met or a checked addition overflows. */
  method GatherPrior(prior: seq<SaleCorrection>) returns (gathered: Option<Gathered>)
    ensures gathered.Some? <==> !Cancelled(prior) && SafePrefixes(prior, RefundAmount) && QuantitiesSafe(prior)
    ensures gathered.Some? ==>
      && gathered.value.refundedAmount == RefundedAmount(prior)
      && gathered.value.amountOnly == HasAmountOnlyRefund(prior)
      && forall id :: At(gathered.value.quantities, id) == RefundedQuantity(prior, id)
  {
    hide QuantitySafeAt, QuantitiesSafeAt, RefundedQuantity, LinesOf, QuantitiesSafe, Sum, HasAmountOnlyRefund;
    NoCorrections(prior);
    var refundedAmount, amountOnly := 0, false;
    var quantities: map<string, int> := map[];
    assert forall id :: RefundedQuantity(prior[..0], id) == 0 by { NothingRefunded(prior); }
    for i := 0 to |prior|
      invariant !Cancelled(prior[..i])
      invariant amountOnly == HasAmountOnlyRefund(prior[..i])
      invariant refundedAmount == Sum(prior[..i], RefundAmount)
      invariant forall n :: 0 <= n <= i ==> SafeInteger(Sum(prior[..n], RefundAmount))
      invariant forall id :: At(quantities, id) == RefundedQuantity(prior[..i], id) && SafeInteger(At(quantities, id))
      invariant forall n :: 0 <= n < i ==> QuantitiesSafeAt(prior, n)
    {
      var c := prior[i];
      assert prior[..i + 1] == prior[..i] + [c];
      if c.kind.Cancellation? { assert c in prior; return None; }
      CorrectionJoins(prior[..i], c);
      if c.kind.Refund? {
        refundedAmount := refundedAmount - c.amountDeltaCents;
        if !SafeInteger(refundedAmount) { return None; }
        if c.refundLines.None? { amountOnly := true; }
      }
      var sums := AddLines(prior, i, quantities);
      if sums.None? {
        AllSafeAt(prior);
        return None;
      }
      quantities := sums.value;
    }
    assert prior[..|prior|] == prior;
    AllSafeAt(prior);
    return Some(Gathered(refundedAmount, amountOnly, quantities));
  }

  lemma {:induction false} NoCorrections(prior: seq<SaleCorrection>)
    ensures Sum(prior[..0], RefundAmount) == 0 && !HasAmountOnlyRefund(prior[..0])
  {
  }

  lemma {:induction false} CorrectionJoins(front: seq<SaleCorrection>, c: SaleCorrection)
    ensures Sum(front + [c], RefundAmount) == Sum(front, RefundAmount) + RefundAmount(c)
    ensures HasAmountOnlyRefund(front + [c]) <==> HasAmountOnlyRefund(front) || (c.kind.Refund? && c.refundLines.None?)
    ensures Cancelled(front + [c]) <==> Cancelled(front) || c.kind.Cancellation?
  {
  }

  lemma {:induction false} NothingRefunded(prior: seq<SaleCorrection>)
    ensures forall id :: RefundedQuantity(prior[..0], id) == 0
  {
  }

  lemma {:induction false} AllSafeAt(prior: seq<SaleCorrection>)
    ensures QuantitiesSafe(prior) <==> forall n :: 0 <= n < |prior| ==> QuantitiesSafeAt(prior, n)
  {
    hide RefundedQuantity;
    if forall n :: 0 <= n < |prior| ==> QuantitiesSafeAt(prior, n) {
      forall n, k, id | 0 <= n < |prior| && 0 <= k <= |LinesOf(prior[n])|
        ensures SafeInteger(RefundedQuantity(prior[..n], id) + Sum(LinesOf(prior[n])[..k], QuantityOn(id)))
      {
        assert QuantitiesSafeAt(prior, n) && QuantitySafeAt(prior, n, k);
      }
    }
  }

  /** One requested line against the sold item, each product and sum checked. */
  method CheckLine(items: seq<Item>, ghost prior: seq<SaleCorrection>, line: RefundLine, before: int) returns (ok: bool)
    requires forall item :: item in items ==> 0 <= item.vatRate
    requires before == RefundedQuantity(prior, line.originalLineId)
    ensures ok == ServerLine(items, prior, line)
  {
    hide Cost, IncludedVat, RefundedQuantity;
    FirstIsIn(items, line.originalLineId);
    var found := FindFirst(items, line.originalLineId);
    if found.None? { return false; }
    var sold := found.value;
    if !WholeNumber(line.quantity, 1) { return false; }
    if !SafeInteger(line.quantity + before) || line.quantity + before > sold.quantity { return false; }
    var gross, previousGross := Cost(sold.unitPriceCents, line.quantity), Cost(sold.unitPriceCents, before);
    if !SafeInteger(gross) || !SafeInteger(previousGross) || !SafeInteger(previousGross + gross) { return false; }
    var vat, previousVat := IncludedVat(previousGross + gross, sold.vatRate), IncludedVat(previousGross, sold.vatRate);
    if !WholeNumber(vat, 0) || !WholeNumber(previousVat, 0) { return false; }
    return line == RefundLine(line.originalLineId, sold.productId, sold.name, line.quantity, sold.unitPriceCents,
                              sold.vatRate, gross, vat - previousVat);
  }

  lemma {:induction false} FirstIsIn(items: seq<Item>, lineId: string)
    ensures FindFirst(items, lineId).Some? ==> FindFirst(items, lineId).value in items
  {
    if items != [] {
      FirstIsIn(items[1..], lineId);
    }
  }

  method CheckLines(items: seq<Item>, ghost prior: seq<SaleCorrection>, lines: seq<RefundLine>, quantities: map<string, int>)
      returns (total: Option<int>)
    requires forall item :: item in items ==> 0 <= item.vatRate
    requires forall id :: At(quantities, id) == RefundedQuantity(prior, id)
    ensures total == if (forall k :: 0 <= k < |lines| ==> ServerLine(items, prior, lines[k])) && SafePrefixes(lines, Gross)
                     then Some(Sum(lines, Gross)) else None
  {
    hide ServerLine, RefundedQuantity;
    var sum := 0;
    for k := 0 to |lines|
      invariant forall m :: 0 <= m < k ==> ServerLine(items, prior, lines[m])
      invariant forall m :: 0 <= m <= k ==> SafeInteger(Sum(lines[..m], Gross))
      invariant sum == Sum(lines[..k], Gross)
    {
      assert lines[..k + 1] == lines[..k] + [lines[k]];
      SumAppend(lines[..k], lines[k], Gross);
      var ok := CheckLine(items, prior, lines[k], At(quantities, lines[k].originalLineId));
      if !ok { return None; }
      GrossOfLine(items, prior, lines[k]);
      var gross := Cost(FindFirst(items, lines[k].originalLineId).value.unitPriceCents, lines[k].quantity);
      sum := sum + gross;
      if !SafeInteger(sum) { return None; }
    }
    assert lines[..|lines|] == lines;
    return Some(sum);
  }

  lemma {:induction false} GrossOfLine(items: seq<Item>, prior: seq<SaleCorrection>, line: RefundLine)
    requires ServerLine(items, prior, line)
    ensures FindFirst(items, line.originalLineId).Some?
    ensures line.grossCents == Cost(FindFirst(items, line.originalLineId).value.unitPriceCents, line.quantity)
  {
  }

  method ValidateCorrection(order: Order, prior: seq<SaleCorrection>, c: SaleCorrection) returns (accepted: bool)
    requires forall item :: item in order.items ==> 0 <= item.vatRate
    ensures accepted <==> ServerCorrection(order, prior, c)
  {
    hide ServerLine, RefundedQuantity, RefundedAmount, HasAmountOnlyRefund, QuantitiesSafe, Cancelled, SafePrefixes;
    var gathered := GatherPrior(prior);
    if gathered.None? { return false; }
    var g, delta := gathered.value, c.amountDeltaCents;
    if c.kind.Cancellation? && !(delta == -order.totalCents && |prior| == 0) { return false; }
    if !c.kind.Refund? { return true; }
    if !SafeInteger(g.refundedAmount - delta) || g.refundedAmount - delta > order.totalCents { return false; }
    if c.refundLines.None? { return true; }
    if g.amountOnly { return false; }
    var total := CheckLines(order.items, prior, c.refundLines.value, g.quantities);
    return total.Some? && delta == -total.value;
  }

  // ----- validateBusiness -----

  predicate ServerActiveIs(journal: seq<Entry>, e: Entry, sessionId: string) {
    && ServerActive(journal).Some?
    && ServerActive(journal).value.id == sessionId
    && ServerActive(journal).value.terminalId == e.content.terminalId
  }

  ghost predicate Business(legacy: Legacy, journal: seq<Entry>, e: Entry) {
    var previousEnd, active := LastClosureEnd(journal), ServerActive(journal);
    match e.Body()
    case Sale(order) => NotBefore(previousEnd, order.paidAt)
    case Correction(c) =>
      var original := StoredIn(legacy, journal, c.originalOrderId);
      && NotBefore(previousEnd, e.RecordedAt())
      && original.Some?
      && c.originalOrderNumber == original.value.order.orderNumber
      && c.originalReceiptNumber == original.value.order.receiptNumber
      && c.paymentMethod == original.value.order.paymentMethod
      && c.originalSaleHash == HashOf(original.value)
      && ServerCorrection(original.value.order, PriorCorrections(journal, c.originalOrderId), c)
    case SessionOpened(s) => active.None? && ContinuesAt(previousEnd, s.periodStart)
    case FloatUpdated(u) =>
      && ServerActiveIs(journal, e, u.sessionId)
      && u.previousOpeningFloatCents == active.value.openingFloatCents
    case Closure(c) =>
      && ContinuesAt(previousEnd, c.periodStart)
      && SumsSafe(journal, c.periodStart, c.periodEnd)
      && c.totals == ClosureTotals(journal, c.periodStart, c.periodEnd)
      && (c.session.Some? ==>
            && ServerActiveIs(journal, e, c.session.value.cashSessionId)
            && c.periodStart == active.value.periodStart
            && c.session.value.openingFloatCents == active.value.openingFloatCents
            && SafeInteger(active.value.openingFloatCents + c.totals.cashCents)
            && c.session.value.theoreticalCashCents == active.value.openingFloatCents + c.totals.cashCents)
  }

  /** The whole of validateBusiness over a stored prefix whose payloads passed the structural checks. */
  method ValidateBusiness(legacy: Legacy, journal: seq<Entry>, e: Entry) returns (accepted: bool)
    requires Payload(e)
    requires forall prior :: prior in journal && Financial(prior) ==> SafeInteger(Amount(prior))
    requires forall id :: StoredIn(legacy, journal, id).Some? ==>
               forall item :: item in StoredIn(legacy, journal, id).value.order.items ==> 0 <= item.vatRate
    ensures accepted <==> Business(legacy, journal, e)
  {
    hide ServerCorrection, StoredIn, SumsSafe, ClosureTotals, ServerActive, LastClosureEnd, PriorCorrections;
    var previousEnd, active := LastClosureEnd(journal), ServerActive(journal);
    match e.Body()
    case Sale(order) => return NotBefore(previousEnd, order.paidAt);
    case Correction(c) =>
      if !NotBefore(previousEnd, e.RecordedAt()) { return false; }
      var original := StoredIn(legacy, journal, c.originalOrderId);
      if original.None? { return false; }
      var order := original.value.order;
      if c.originalOrderNumber != order.orderNumber || c.originalReceiptNumber != order.receiptNumber
         || c.paymentMethod != order.paymentMethod || c.originalSaleHash != HashOf(original.value) { return false; }
      accepted := ValidateCorrection(order, PriorCorrections(journal, c.originalOrderId), c);
    case SessionOpened(s) => return active.None? && ContinuesAt(previousEnd, s.periodStart);
    case FloatUpdated(u) =>
      return ServerActiveIs(journal, e, u.sessionId) && u.previousOpeningFloatCents == active.value.openingFloatCents;
    case Closure(c) =>
      if !ContinuesAt(previousEnd, c.periodStart) { return false; }
      var totals := StreamTotals(journal, c.periodStart, c.periodEnd);
      if totals != Some(c.totals) { return false; }
      if c.session.None? { return true; }
      var s := c.session.value;
      return ServerActiveIs(journal, e, s.cashSessionId)
        && c.periodStart == active.value.periodStart
        && s.openingFloatCents == active.value.openingFloatCents
        && SafeInteger(active.value.openingFloatCents + c.totals.cashCents)
        && s.theoreticalCashCents == active.value.openingFloatCents + c.totals.cashCents;
  }

  ghost predicate ServerAccepts(legacy: Legacy, journal: seq<Entry>, e: Entry) {
    Payload(e) && Business(legacy, journal, e)
  }

  // ----- The two judgements agree -----

  /** What the server demands and the repository leaves to the services that call it. */
  ghost predicate ServerOnly(journal: seq<Entry>, e: Entry) {
    match e.Body()
    case Sale(order) =>
      order.terminalId == e.content.terminalId && !Blank(order.orderNumber) && !Blank(order.receiptNumber)
    case Correction(c) =>
      && !Blank(c.originalOrderId) && !Blank(c.originalOrderNumber) && !Blank(c.originalReceiptNumber)
      && (c.refundLines.Some? ==> c.kind.Refund?)
    case SessionOpened(s) => !Blank(s.sessionId)
    case FloatUpdated(u) => !Blank(u.operationId) && !Blank(u.sessionId) && u.updatedAt == e.RecordedAt()
    case Closure(c) =>
      && !Blank(c.operationId)
      && (c.session.Some? ==> !Blank(c.session.value.cashSessionId))
      && SumsSafe(journal, c.periodStart, c.periodEnd)
  }

  /** What the repository demands and the server does not look at. */
  predicate ClientOnly(legacy: Legacy, e: Entry) {
    match e.Body()
    case Sale(order) =>
      && order.id !in legacy
      && e.RecordedAt() == order.createdAt
      && order.itemCount <= MAX_PERSISTED_ITEM_COUNT
    case Correction(c) => c.kind.Refund? ==> c.refundLines.Some?
    case _ => true
  }

  lemma {:induction false} OrdersAgree(order: Order)
    requires order.itemCount <= MAX_PERSISTED_ITEM_COUNT && !Blank(order.orderNumber) && !Blank(order.receiptNumber)
    ensures ValidNewOrder(order) <==> PayloadOrder(order, order.terminalId)
  {
    hide Cost, Blank;
    if ValidNewOrder(order) {
      OrderSumsSafe(order);
    }
    if PayloadOrder(order, order.terminalId) {
      assert order.items[..|order.items|] == order.items;
      forall i | 0 <= i < |order.items| ensures ValidItem(order.items[i]) {
        assert PayloadItem(order.items[i]);
      }
    }
  }

  lemma {:induction false} OrderSumsSafe(order: Order)
    requires ValidOrder(order)
    ensures forall i :: 0 <= i < |order.items| ==> PayloadItem(order.items[i])
    ensures SafePrefixes(order.items, Price) && SafePrefixes(order.items, Quantity)
    ensures WholeNumber(order.totalCents, 0) && WholeNumber(order.itemCount, 1)
  {
    hide Cost, Blank;
    TotalIsSafe(order);
    forall i | 0 <= i < |order.items| ensures PayloadItem(order.items[i]) {
      assert ValidItem(order.items[i]);
      LineTotalWithinOrder(order, order.items[i]);
    }
    forall item | item in order.items ensures 0 <= Price(item) && 1 <= Quantity(item) {
      ItemTexts(order, item);
      LineTotalNonNegative(item);
    }
    forall n | 0 <= n <= |order.items|
      ensures SafeInteger(Sum(order.items[..n], Price)) && SafeInteger(Sum(order.items[..n], Quantity))
    {
      SumPrefixBelow(order.items, n, Price);
      SumPrefixBelow(order.items, n, Quantity);
    }
    SumNonNegative(order.items, Quantity);
    assert order.items[0] in order.items;
  }

  lemma {:induction false} SalesAgree(legacy: Legacy, journal: seq<Entry>, e: Entry)
    requires e.Body().Sale?
    ensures Guard(legacy, journal, e) && ServerOnly(journal, e) <==> ServerAccepts(legacy, journal, e) && ClientOnly(legacy, e)
  {
    hide PayloadOrder, ValidOrder, Blank, LastClosureEnd;
    var order := e.Body().order;
    if order.itemCount <= MAX_PERSISTED_ITEM_COUNT && !Blank(order.orderNumber) && !Blank(order.receiptNumber) {
      OrdersAgree(order);
    }
    PayloadParts(order, e.content.terminalId);
    assert ValidOrder(order) ==> order.itemCount <= MAX_PERSISTED_ITEM_COUNT by { CountBound(order); }
  }

  lemma {:induction false} PayloadParts(order: Order, source: string)
    ensures PayloadOrder(order, source) ==>
              !Blank(order.orderNumber) && !Blank(order.receiptNumber) && order.terminalId == source
  {
  }

  lemma {:induction false} CountBound(order: Order)
    ensures ValidOrder(order) ==> order.itemCount <= MAX_PERSISTED_ITEM_COUNT
  {
  }

  lemma {:induction false} CorrectionEntriesAgree(legacy: Legacy, journal: seq<Entry>, e: Entry)
    requires WellFormed(legacy, journal) && LegacyValid(legacy) && e.Body().Correction?
    ensures Guard(legacy, journal, e) && ServerOnly(journal, e) <==> ServerAccepts(legacy, journal, e) && ClientOnly(legacy, e)
  {
    hide CorrectionRule, ServerCorrection, PayloadCorrection, StoredIn, LastClosureEnd, Blank, WellFormed, CorrectionHistory;
    var c := e.Body().correction;
    var original := StoredIn(legacy, journal, c.originalOrderId);
    if original.Some? {
      var order, prior := original.value.order, PriorCorrections(journal, c.originalOrderId);
      CorrectionsFormHistory(legacy, journal, c.originalOrderId);
      OriginalIsValid(legacy, journal, c.originalOrderId);
      PayloadOfAccepted(journal, e, order, prior);
      PayloadShape(c);
      if PayloadCorrection(c) && (c.kind.Refund? ==> c.refundLines.Some?) {
        CorrectionsAgree(order, prior, c);
      }
      RefundHasLines(order, prior, c);
    }
  }

  lemma {:induction false} PayloadShape(c: SaleCorrection)
    ensures PayloadCorrection(c) ==>
              && !Blank(c.originalOrderId) && !Blank(c.originalOrderNumber) && !Blank(c.originalReceiptNumber)
              && (c.refundLines.Some? ==> c.kind.Refund?)
  {
  }

  lemma {:induction false} RefundHasLines(order: Order, prior: seq<SaleCorrection>, c: SaleCorrection)
    ensures CorrectionRule(order, prior, c) ==> (c.kind.Refund? ==> c.refundLines.Some?)
  {
  }

  lemma {:induction false} PayloadOfAccepted(journal: seq<Entry>, e: Entry, order: Order, prior: seq<SaleCorrection>)
    requires e.Body().Correction? && ValidOrder(order) && CorrectionHistory(order, prior)
    ensures CorrectionRule(order, prior, e.Body().correction) && ServerOnly(journal, e) ==>
              PayloadCorrection(e.Body().correction)
  {
    hide ValidOrder, CorrectionHistory, PayloadLine, ValidLine, Blank, SumsSafe, ClosureTotals, RefundedAmount;
    var c := e.Body().correction;
    if CorrectionRule(order, prior, c) && c.kind.Refund? {
      ValidLinesAreSafe(order, prior, c.refundLines.value);
    }
  }

  lemma {:induction false} OriginalIsValid(legacy: Legacy, journal: seq<Entry>, id: string)
    requires WellFormed(legacy, journal) && LegacyValid(legacy) && StoredIn(legacy, journal, id).Some?
    ensures ValidOrder(StoredIn(legacy, journal, id).value.order)
  {
  }

  /** The current float of the active session is always a valid cash amount. */
  lemma {:induction false} ActiveFloatIsAmount(legacy: Legacy, journal: seq<Entry>)
    requires WellFormed(legacy, journal)
    ensures AuditorActive(journal).Some? ==> CashAmount(AuditorActive(journal).value.openingFloatCents)
  {
    hide SaleGuard, CorrectionGuard, Linked, FreshId, LastClosureEnd, ActiveSession, ClosureTotals;
    if journal != [] {
      var n := |journal| - 1;
      WellFormedPrefix(legacy, journal, n);
      ActiveFloatIsAmount(legacy, journal[..n]);
      assert Accepted(legacy, journal[..n], journal[n]);
    }
  }

  lemma {:induction false} SessionEntriesAgree(legacy: Legacy, journal: seq<Entry>, e: Entry)
    requires WellFormed(legacy, journal) && (e.Body().SessionOpened? || e.Body().FloatUpdated?)
    ensures Guard(legacy, journal, e) && ServerOnly(journal, e) <==> ServerAccepts(legacy, journal, e) && ClientOnly(legacy, e)
  {
    hide AuditorActive, ServerActive, ActiveSession, LastClosureEnd, Blank, WellFormed, EntryId;
    ActiveSessionForms(legacy, journal);
    ActiveFloatIsAmount(legacy, journal);
    BlankOperationKey(journal, e);
  }

  lemma {:induction false} BlankOperationKey(journal: seq<Entry>, e: Entry)
    ensures Payload(e) && e.Body().FloatUpdated? ==> !Blank(e.Body().update.operationId)
  {
  }

  lemma {:induction false} SafeTotals(journal: seq<Entry>, start: int, end: int)
    requires SumsSafe(journal, start, end)
    requires forall e :: e in journal && e.Body().Sale? ==> 0 <= e.Body().order.totalCents
    ensures PayloadTotals(ClosureTotals(journal, start, end))
  {
    assert journal[..|journal|] == journal;
    assert SafeColumns(journal[..|journal|], start, end);
    SumNonNegative(journal, SaleCountIn(start, end));
    SumNonNegative(journal, CorrectionCountIn(start, end));
    SumNonNegative(journal, GrossIn(start, end));
  }

  lemma {:induction false} SalesAreNonNegative(legacy: Legacy, journal: seq<Entry>)
    requires WellFormed(legacy, journal)
    ensures forall e :: e in journal && e.Body().Sale? ==> 0 <= e.Body().order.totalCents
  {
    hide ValidOrder, WellFormed;
    forall e | e in journal && e.Body().Sale? ensures 0 <= e.Body().order.totalCents {
      var n :| 0 <= n < |journal| && journal[n] == e;
      SoldOrderIsValid(legacy, journal, n);
      TotalIsSafe(e.Body().order);
    }
  }

  lemma {:induction false} ClosuresAgree(legacy: Legacy, journal: seq<Entry>, e: Entry)
    requires WellFormed(legacy, journal) && e.Body().Closure?
    ensures Guard(legacy, journal, e) && ServerOnly(journal, e) <==> ServerAccepts(legacy, journal, e) && ClientOnly(legacy, e)
  {
    hide AuditorActive, ServerActive, ActiveSession, LastClosureEnd, Blank, WellFormed, ClosureTotals, SumsSafe;
    ActiveSessionForms(legacy, journal);
    ActiveFloatIsAmount(legacy, journal);
    var c := e.Body().closure;
    if SumsSafe(journal, c.periodStart, c.periodEnd) {
      SalesAreNonNegative(legacy, journal);
      SafeTotals(journal, c.periodStart, c.periodEnd);
    }
    NonBlankIsNonEmpty(c);
  }

  lemma {:induction false} NonBlankIsNonEmpty(c: SalesClosure)
    ensures c.session.Some? && !Blank(c.session.value.cashSessionId) ==> c.session.value.cashSessionId != ""
  {
  }

  /**
   On every prefix a run can reach, the writers and the server accept the same next
   entry, up to the two lists of one-sided conditions above.
   */
  lemma {:induction false} ClientAndServerAgree(legacy: Legacy, journal: seq<Entry>, e: Entry)
    requires WellFormed(legacy, journal) && LegacyValid(legacy)
    ensures Guard(legacy, journal, e) && ServerOnly(journal, e) <==> ServerAccepts(legacy, journal, e) && ClientOnly(legacy, e)
  {
    match e.Body()
    case Sale(_) => SalesAgree(legacy, journal, e);
    case Correction(_) => CorrectionEntriesAgree(legacy, journal, e);
    case Closure(_) => ClosuresAgree(legacy, journal, e);
    case _ => SessionEntriesAgree(legacy, journal, e);
  }

  /** Replayed in order on the server, a service-shaped run passes every step. */
  lemma {:induction false} ServerReplaysEveryRun(legacy: Legacy, journal: seq<Entry>)
    requires WellFormed(legacy, journal) && LegacyValid(legacy)
    requires forall n :: 0 <= n < |journal| ==> ServerOnly(journal[..n], journal[n])
    ensures forall n :: 0 <= n < |journal| ==> ServerAccepts(legacy, journal[..n], journal[n])
  {
    hide Guard, ServerOnly, ServerAccepts, Linked, FreshId;
    forall n | 0 <= n < |journal| ensures ServerAccepts(legacy, journal[..n], journal[n]) {
      assert Accepted(legacy, journal[..n], journal[n]);
      WellFormedPrefix(legacy, journal, n);
      ClientAndServerAgree(legacy, journal[..n], journal[n]);
    }
  }
}
