/**
 Structured refunds (src/services/saleRefund.ts), the correction guard of the writer
 (src/services/orderRepository.ts:1681-1724) and the correction summary
 (src/services/saleCorrectionSummary.ts).
 */
module Refunds {
  import opened Ledger
  import opened Sums
  import opened Vat

  const MAX_PERSISTED_ITEM_COUNT := 2147483647

  // ----- Valid orders (src/services/orderValidation.ts, src/utils/cartTotals.ts) -----

  predicate DistinctLines(items: seq<Item>) {
    forall i, k :: 0 <= i < k < |items| ==> items[i].lineId != items[k].lineId
  }

  predicate ValidItem(item: Item) {
    && !Blank(item.lineId)
    && !Blank(item.productId)
    && !Blank(item.name)
    && 1 <= item.quantity <= MAX_SAFE_INTEGER
    && 0 <= item.unitPriceCents <= MAX_SAFE_INTEGER
    && item.vatRate in {10, 20}
  }

  /** The price of a quantity. Proofs use its laws, below, and hide its product. */
  function Cost(unitPriceCents: int, quantity: int): int { unitPriceCents * quantity }

  lemma {:induction false} CostAdds(unit: int, p: int, q: int)
    ensures Cost(unit, p + q) == Cost(unit, p) + Cost(unit, q)
  {
  }

  lemma {:induction false} CostMonotone(unit: int, p: int, q: int)
    requires 0 <= unit && p <= q
    ensures Cost(unit, p) <= Cost(unit, q)
  {
  }

  lemma {:induction false} CostUnits(unit: int)
    ensures Cost(unit, 0) == 0 && Cost(unit, 1) == unit
  {
  }

  lemma {:induction false} CostPositive(unit: int, quantity: int)
    requires 0 < Cost(unit, quantity) && 0 < quantity
    ensures 0 < unit
  {
  }

  function LineTotal(item: Item): int { Cost(item.unitPriceCents, item.quantity) }

  const Quantity: Item -> int := (item: Item) => item.quantity
  const Price: Item -> int := (item: Item) => LineTotal(item)

  predicate ValidOrder(order: Order) {
    && !Blank(order.id)
    && order.items != []
    && (forall i :: 0 <= i < |order.items| ==> ValidItem(order.items[i]))
    && DistinctLines(order.items)
    && order.itemCount == Sum(order.items, Quantity) <= MAX_PERSISTED_ITEM_COUNT
    && order.totalCents == Sum(order.items, Price) <= MAX_SAFE_INTEGER
  }

  /** A new sale also names its terminal; sales older than the journal may not. */
  predicate ValidNewOrder(order: Order) { ValidOrder(order) && !Blank(order.terminalId) }

  /** The accumulation loop with its bounds; None is any of its exceptions. */
  method CalculateCartTotals(items: seq<Item>) returns (totals: Option<(int, int)>)
    requires forall i :: 0 <= i < |items| ==> ValidItem(items[i])
    ensures totals == if Sum(items, Quantity) <= MAX_PERSISTED_ITEM_COUNT && Sum(items, Price) <= MAX_SAFE_INTEGER
                      then Some((Sum(items, Quantity), Sum(items, Price))) else None
  {
    hide Cost, IncludedVat, Blank;
    var itemCount, totalCents := 0, 0;
    NonNegativeItems(items);
    for i := 0 to |items|
      invariant itemCount == Sum(items[..i], Quantity) <= MAX_PERSISTED_ITEM_COUNT
      invariant totalCents == Sum(items[..i], Price) <= MAX_SAFE_INTEGER
    {
      assert items[..i + 1] == items[..i] + [items[i]];
      SumAppend(items[..i], items[i], Quantity);
      SumAppend(items[..i], items[i], Price);
      SumPrefixBelow(items, i, Price);
      SumPrefixBelow(items, i + 1, Price);
      SumPrefixBelow(items, i + 1, Quantity);
      assert 0 <= Price(items[i]) && 0 <= Quantity(items[i]);
      var lineTotal := Cost(items[i].unitPriceCents, items[i].quantity);
      if !SafeInteger(lineTotal) { return None; }
      itemCount := itemCount + items[i].quantity;
      totalCents := totalCents + lineTotal;
      if !SafeInteger(itemCount) || itemCount > MAX_PERSISTED_ITEM_COUNT { return None; }
      if !SafeInteger(totalCents) { return None; }
    }
    assert items[..|items|] == items;
    return Some((itemCount, totalCents));
  }

  lemma {:induction false} NonNegativeItems(items: seq<Item>)
    requires forall i :: 0 <= i < |items| ==> ValidItem(items[i])
    ensures forall item :: item in items ==> 0 <= Price(item) && 0 <= Quantity(item)
  {
  }

  lemma {:induction false} LineTotalNonNegative(item: Item)
    requires ValidItem(item)
    ensures 0 <= LineTotal(item)
  {
  }

  // ----- Refunded quantities and amounts -----

  function QuantityOn(lineId: string): RefundLine -> int {
    (line: RefundLine) => if line.originalLineId == lineId then line.quantity else 0
  }

  function VatOn(lineId: string): RefundLine -> int {
    (line: RefundLine) => if line.originalLineId == lineId then line.vatCents else 0
  }

  const Gross: RefundLine -> int := (line: RefundLine) => line.grossCents

  predicate IsRefund(c: SaleCorrection) { c.kind.Refund? }

  function LinesOf(c: SaleCorrection): seq<RefundLine> {
    if IsRefund(c) && c.refundLines.Some? then c.refundLines.value else []
  }

  function RefundQuantityOn(lineId: string): SaleCorrection -> int {
    (c: SaleCorrection) => Sum(LinesOf(c), QuantityOn(lineId))
  }

  function RefundVatOn(lineId: string): SaleCorrection -> int {
    (c: SaleCorrection) => Sum(LinesOf(c), VatOn(lineId))
  }

  const RefundAmount: SaleCorrection -> int := (c: SaleCorrection) => if IsRefund(c) then -c.amountDeltaCents else 0

  function RefundedQuantity(prior: seq<SaleCorrection>, lineId: string): int {
    Sum(prior, RefundQuantityOn(lineId))
  }

  function RefundedVat(prior: seq<SaleCorrection>, lineId: string): int {
    Sum(prior, RefundVatOn(lineId))
  }

  function RefundedAmount(prior: seq<SaleCorrection>): int {
    Sum(prior, RefundAmount)
  }

  predicate HasAmountOnlyRefund(prior: seq<SaleCorrection>) {
    exists c :: c in prior && IsRefund(c) && c.refundLines.None?
  }

  predicate Cancelled(prior: seq<SaleCorrection>) {
    exists c :: c in prior && c.kind.Cancellation?
  }

  // ----- buildRefundLines and validateStructuredRefund -----

  /** The map built from the items keeps the last item of a line id. */
  function FindItem(items: seq<Item>, lineId: string): (found: Option<Item>)
    ensures found.Some? ==> found.value in items && found.value.lineId == lineId
    ensures found.None? ==> forall item :: item in items ==> item.lineId != lineId
  {
    if items == [] then None
    else if items[|items| - 1].lineId == lineId then Some(items[|items| - 1])
    else
      var rest := FindItem(items[..|items| - 1], lineId);
      assert items == items[..|items| - 1] + [items[|items| - 1]];
      rest
  }

  function BuildLine(item: Item, quantity: int, previouslyRefunded: int): RefundLine
    requires 0 <= item.vatRate
  {
    var gross := Cost(item.unitPriceCents, quantity);
    var previous := Cost(item.unitPriceCents, previouslyRefunded);
    RefundLine(item.lineId, item.productId, item.name, quantity, item.unitPriceCents, item.vatRate, gross,
      IncludedVat(previous + gross, item.vatRate) - IncludedVat(previous, item.vatRate))
  }

  predicate DistinctSelections(lines: seq<RefundLine>) {
    forall i, k :: 0 <= i < k < |lines| ==> lines[i].originalLineId != lines[k].originalLineId
  }

  /** One requested line is the canonical one and fits what remains. */
  predicate ValidLine(items: seq<Item>, prior: seq<SaleCorrection>, line: RefundLine) {
    var found := FindItem(items, line.originalLineId);
    && !Blank(line.originalLineId)
    && 0 < line.quantity <= MAX_SAFE_INTEGER
    && found.Some?
    && 0 <= found.value.vatRate
    && line == BuildLine(found.value, line.quantity, RefundedQuantity(prior, line.originalLineId))
    && line.quantity <= found.value.quantity - RefundedQuantity(prior, line.originalLineId)
  }

  predicate ValidRefundLines(items: seq<Item>, prior: seq<SaleCorrection>, lines: seq<RefundLine>) {
    && lines != []
    && !HasAmountOnlyRefund(prior)
    && DistinctSelections(lines)
    && forall k :: 0 <= k < |lines| ==> ValidLine(items, prior, lines[k])
  }

  /** `map.get(id) ?? 0` */
  function At(quantities: map<string, int>, lineId: string): int {
    if lineId in quantities then quantities[lineId] else 0
  }

  /** The loops of deriveRefundAvailability: the refunded quantity of every line. */
  method DeriveRefunded(corrections: seq<SaleCorrection>) returns (refunded: map<string, int>, amountOnly: bool)
    ensures forall lineId :: At(refunded, lineId) == RefundedQuantity(corrections, lineId)
    ensures amountOnly == HasAmountOnlyRefund(corrections)
  {
    refunded := map[];
    amountOnly := false;
    for i := 0 to |corrections|
      invariant forall lineId :: At(refunded, lineId) == RefundedQuantity(corrections[..i], lineId)
      invariant amountOnly == HasAmountOnlyRefund(corrections[..i])
    {
      var c := corrections[i];
      assert corrections[..i + 1] == corrections[..i] + [c];
      ghost var before := refunded;
      if IsRefund(c) && c.refundLines.None? { amountOnly := true; }
      var lines := LinesOf(c);
      for k := 0 to |lines|
        invariant forall lineId ::
          At(refunded, lineId) == At(before, lineId) + Sum(lines[..k], QuantityOn(lineId))
      {
        var line := lines[k];
        var current := At(refunded, line.originalLineId);
        forall lineId ensures Sum(lines[..k + 1], QuantityOn(lineId)) == Sum(lines[..k], QuantityOn(lineId)) + QuantityOn(lineId)(line) {
          assert lines[..k + 1] == lines[..k] + [line];
          SumAppend(lines[..k], line, QuantityOn(lineId));
        }
        refunded := refunded[line.originalLineId := current + line.quantity];
      }
      assert lines[..|lines|] == lines;
      forall lineId ensures RefundedQuantity(corrections[..i + 1], lineId)
                         == RefundedQuantity(corrections[..i], lineId) + Sum(lines, QuantityOn(lineId)) {
        SumAppend(corrections[..i], c, RefundQuantityOn(lineId));
      }
    }
    assert corrections[..|corrections|] == corrections;
  }

  /** The checks of the loop body that concern one requested line. */
  method CheckLine(items: seq<Item>, ghost prior: seq<SaleCorrection>, line: RefundLine, previous: int) returns (ok: bool)
    requires forall item :: item in items ==> 0 <= item.vatRate
    requires previous == RefundedQuantity(prior, line.originalLineId)
    ensures ok == ValidLine(items, prior, line)
  {
    hide Cost, IncludedVat, Blank, RefundedQuantity;
    if Blank(line.originalLineId) { return false; }
    if !(0 < line.quantity <= MAX_SAFE_INTEGER) { return false; }
    var found := FindItem(items, line.originalLineId);
    if found.None? { return false; }
    if line != BuildLine(found.value, line.quantity, previous) { return false; }
    return line.quantity <= found.value.quantity - previous;
  }

  method ValidateStructuredRefund(order: Order, corrections: seq<SaleCorrection>, requested: Option<seq<RefundLine>>)
      returns (total: Option<int>)
    requires forall item :: item in order.items ==> 0 <= item.vatRate
    ensures total == if requested.Some? && ValidRefundLines(order.items, corrections, requested.value)
                     then Some(Sum(requested.value, Gross)) else None
  {
    hide Cost, IncludedVat, ValidLine, RefundedQuantity, HasAmountOnlyRefund;
    if requested.None? || requested.value == [] { return None; }
    var lines := requested.value;
    var refunded, amountOnly := DeriveRefunded(corrections);
    if amountOnly { return None; }
    var seen: set<string> := {};
    var sum := 0;
    for i := 0 to |lines|
      invariant seen == set k | 0 <= k < i :: lines[k].originalLineId
      invariant DistinctSelections(lines[..i])
      invariant forall k :: 0 <= k < i ==> ValidLine(order.items, corrections, lines[k])
      invariant sum == Sum(lines[..i], Gross)
    {
      var line := lines[i];
      if line.originalLineId in seen { return None; }
      seen := seen + {line.originalLineId};
      var ok := CheckLine(order.items, corrections, line, At(refunded, line.originalLineId));
      if !ok { return None; }
      assert lines[..i + 1] == lines[..i] + [line];
      SumAppend(lines[..i], line, Gross);
      sum := sum + line.grossCents;
    }
    assert lines[..|lines|] == lines;
    return Some(sum);
  }

  // ----- The correction guard -----

  predicate CorrectionRule(order: Order, prior: seq<SaleCorrection>, c: SaleCorrection) {
    && !Blank(c.operationId)
    && !Blank(c.reason)
    && SafeInteger(c.amountDeltaCents)
    && (!c.kind.Cancellation? ==> c.amountDeltaCents != 0)
    && (!c.kind.Adjustment? ==> c.amountDeltaCents < 0)
    && (c.kind.Cancellation? ==> c.amountDeltaCents == -order.totalCents)
    && !Cancelled(prior)
    && (c.kind.Cancellation? ==> prior == [])
    && (c.kind.Refund? ==>
          && c.refundLines.Some?
          && ValidRefundLines(order.items, prior, c.refundLines.value)
          && c.amountDeltaCents == -Sum(c.refundLines.value, Gross)
          && RefundedAmount(prior) - c.amountDeltaCents <= order.totalCents)
  }

  ghost predicate CorrectionHistory(order: Order, prior: seq<SaleCorrection>) {
    forall n :: 0 <= n < |prior| ==> CorrectionRule(order, prior[..n], prior[n])
  }

  lemma {:induction false} HistoryPrefix(order: Order, prior: seq<SaleCorrection>, m: nat)
    requires CorrectionHistory(order, prior) && m <= |prior|
    ensures CorrectionHistory(order, prior[..m])
  {
    forall n | 0 <= n < m ensures CorrectionRule(order, prior[..m][..n], prior[..m][n]) {
      assert prior[..m][..n] == prior[..n];
    }
  }

  // ----- Conservation over every history -----

  function FindLine(lines: seq<RefundLine>, lineId: string): (found: Option<RefundLine>)
    ensures found.Some? ==> found.value in lines && found.value.originalLineId == lineId
    ensures found.None? ==> forall k :: 0 <= k < |lines| ==> lines[k].originalLineId != lineId
  {
    if lines == [] then None
    else if lines[|lines| - 1].originalLineId == lineId then Some(lines[|lines| - 1])
    else FindLine(lines[..|lines| - 1], lineId)
  }

  /** The part of a refund on one line of distinct selections is that line or nothing. */
  lemma {:induction false} SelectionOnLine(lines: seq<RefundLine>, lineId: string)
    requires DistinctSelections(lines)
    ensures var found := FindLine(lines, lineId);
            && Sum(lines, QuantityOn(lineId)) == (if found.Some? then found.value.quantity else 0)
            && Sum(lines, VatOn(lineId)) == (if found.Some? then found.value.vatCents else 0)
  {
    if lines != [] {
      var n := |lines| - 1;
      SelectionOnLine(lines[..n], lineId);
      assert FindLine(lines[..n], lineId).Some? ==> exists k :: 0 <= k < n && lines[k].originalLineId == lineId;
    }
  }

  lemma {:induction false} LineTax(items: seq<Item>, prior: seq<SaleCorrection>, line: RefundLine, item: Item)
    requires ValidLine(items, prior, line) && FindItem(items, line.originalLineId) == Some(item)
    requires 0 <= item.vatRate
    ensures var before := RefundedQuantity(prior, item.lineId);
            && 0 < line.quantity <= item.quantity - before
            && line.vatCents == IncludedVat(Cost(item.unitPriceCents, before + line.quantity), item.vatRate)
                              - IncludedVat(Cost(item.unitPriceCents, before), item.vatRate)
  {
    hide Cost, IncludedVat;
    CostAdds(item.unitPriceCents, RefundedQuantity(prior, item.lineId), line.quantity);
  }

  /** What one accepted refund takes from one item. */
  lemma {:induction false} LineShare(items: seq<Item>, prior: seq<SaleCorrection>, lines: seq<RefundLine>, item: Item)
    requires DistinctLines(items) && item in items && 0 <= item.vatRate
    requires ValidRefundLines(items, prior, lines)
    ensures var before, q := RefundedQuantity(prior, item.lineId), Sum(lines, QuantityOn(item.lineId));
            && (q == 0 || 0 < q <= item.quantity - before)
            && Sum(lines, VatOn(item.lineId)) == IncludedVat(Cost(item.unitPriceCents, before + q), item.vatRate)
                                               - IncludedVat(Cost(item.unitPriceCents, before), item.vatRate)
  {
    hide Cost, IncludedVat, ValidLine;
    SelectionOnLine(lines, item.lineId);
    ItemIsUnique(items, item);
    var found := FindLine(lines, item.lineId);
    if found.Some? {
      var k :| 0 <= k < |lines| && lines[k] == found.value;
      LineTax(items, prior, lines[k], item);
    }
  }

  lemma {:induction false} RefundLinesAreValid(order: Order, prior: seq<SaleCorrection>, c: SaleCorrection)
    requires CorrectionRule(order, prior, c)
    ensures LinesOf(c) == [] || ValidRefundLines(order.items, prior, LinesOf(c))
    ensures RefundAmount(c) == Sum(LinesOf(c), Gross)
  {
  }

  /** The refunds of a history, each judged on the corrections before it. */
  ghost predicate RefundHistory(items: seq<Item>, prior: seq<SaleCorrection>) {
    forall n :: 0 <= n < |prior| ==> LinesOf(prior[n]) == [] || ValidRefundLines(items, prior[..n], LinesOf(prior[n]))
  }

  lemma {:induction false} RefundHistoryOf(order: Order, prior: seq<SaleCorrection>)
    requires CorrectionHistory(order, prior)
    ensures RefundHistory(order.items, prior)
  {
  }

  lemma {:induction false} ItemConserved(items: seq<Item>, prior: seq<SaleCorrection>, item: Item)
    requires DistinctLines(items) && item in items && 0 <= item.vatRate && 0 <= item.quantity
    requires RefundHistory(items, prior)
    ensures 0 <= RefundedQuantity(prior, item.lineId) <= item.quantity
    ensures RefundedVat(prior, item.lineId)
         == IncludedVat(Cost(item.unitPriceCents, RefundedQuantity(prior, item.lineId)), item.vatRate)
  {
    hide Cost, IncludedVat, ValidRefundLines, DistinctLines;
    if prior == [] {
      IncludedVatBounds(0, item.vatRate);
      CostUnits(item.unitPriceCents);
    } else {
      var n := |prior| - 1;
      assert RefundHistory(items, prior[..n]) by {
        forall m | 0 <= m < n ensures LinesOf(prior[..n][m]) == [] || ValidRefundLines(items, prior[..n][..m], LinesOf(prior[..n][m])) {
          assert prior[..n][..m] == prior[..m];
        }
      }
      ItemConserved(items, prior[..n], item);
      if LinesOf(prior[n]) != [] {
        LineShare(items, prior[..n], LinesOf(prior[n]), item);
      }
    }
  }

  /**
   Over every accepted history the refunded quantity of a line stays between zero and
   what was sold, and the tax refunded on it is the tax of the quantity refunded:
   the rounding differences of successive refunds telescope.
   */
  lemma {:induction false} RefundsConserved(order: Order, prior: seq<SaleCorrection>, item: Item)
    requires ValidOrder(order) && CorrectionHistory(order, prior) && item in order.items
    ensures 0 <= RefundedQuantity(prior, item.lineId) <= item.quantity
    ensures RefundedVat(prior, item.lineId)
         == IncludedVat(Cost(item.unitPriceCents, RefundedQuantity(prior, item.lineId)), item.vatRate)
  {
    hide Cost, IncludedVat, RefundedQuantity, RefundedVat, RefundHistory;
    var i :| 0 <= i < |order.items| && order.items[i] == item;
    assert ValidItem(order.items[i]);
    RefundHistoryOf(order, prior);
    ItemConserved(order.items, prior, item);
  }

  lemma {:induction false} ItemIsUnique(items: seq<Item>, item: Item)
    requires DistinctLines(items) && item in items
    ensures FindItem(items, item.lineId) == Some(item)
  {
  }

  /** Each refund line carries a tax between zero and its gross. */
  lemma {:induction false} RefundLineTaxBounded(order: Order, prior: seq<SaleCorrection>, line: RefundLine)
    requires ValidOrder(order) && CorrectionHistory(order, prior) && ValidLine(order.items, prior, line)
    ensures 0 <= line.vatCents <= line.grossCents
  {
    hide Cost, IncludedVat;
    var item := FindItem(order.items, line.originalLineId).value;
    RefundsConserved(order, prior, item);
    CostMonotone(item.unitPriceCents, 0, line.quantity);
    CostUnits(item.unitPriceCents);
    CostAdds(item.unitPriceCents, RefundedQuantity(prior, item.lineId), line.quantity);
    IncludedVatStep(Cost(item.unitPriceCents, RefundedQuantity(prior, item.lineId)), line.grossCents, item.vatRate);
  }

  function ValueOf(lines: seq<RefundLine>): Item -> int {
    (item: Item) => Cost(item.unitPriceCents, Sum(lines, QuantityOn(item.lineId)))
  }

  function RefundedValue(prior: seq<SaleCorrection>): Item -> int {
    (item: Item) => Cost(item.unitPriceCents, RefundedQuantity(prior, item.lineId))
  }

  function ValueOfLine(line: RefundLine): Item -> int {
    (item: Item) => if item.lineId == line.originalLineId then line.grossCents else 0
  }

  lemma {:induction false} SumOfOneLine(items: seq<Item>, line: RefundLine)
    requires DistinctLines(items)
    ensures Sum(items, ValueOfLine(line)) == if FindItem(items, line.originalLineId).Some? then line.grossCents else 0
  {
    if items != [] {
      var n := |items| - 1;
      SumOfOneLine(items[..n], line);
      if items[n].lineId == line.originalLineId {
        forall item | item in items[..n] ensures item.lineId != line.originalLineId {
          var k :| 0 <= k < n && items[k] == item;
        }
      }
    }
  }

  /** The gross of a refund, added up by refund line or by sold item. */
  lemma {:induction false} GrossByItem(items: seq<Item>, lines: seq<RefundLine>)
    requires DistinctLines(items)
    requires forall k :: 0 <= k < |lines| ==>
               var found := FindItem(items, lines[k].originalLineId);
               found.Some? && lines[k].grossCents == Cost(found.value.unitPriceCents, lines[k].quantity)
    ensures Sum(lines, Gross) == Sum(items, ValueOf(lines))
  {
    hide Cost, IncludedVat;
    if lines == [] {
      forall item | item in items ensures ValueOf(lines)(item) == 0 { CostUnits(item.unitPriceCents); }
      SumZero(items, ValueOf(lines));
    } else {
      var n := |lines| - 1;
      GrossByItem(items, lines[..n]);
      SumOfOneLine(items, lines[n]);
      forall item | item in items
        ensures ValueOf(lines)(item) == ValueOf(lines[..n])(item) + ValueOfLine(lines[n])(item)
      {
        ItemIsUnique(items, item);
        var rest := Sum(lines[..n], QuantityOn(item.lineId));
        if item.lineId == lines[n].originalLineId {
          CostAdds(item.unitPriceCents, rest, lines[n].quantity);
        }
      }
      SumSplit(items, ValueOf(lines), ValueOf(lines[..n]), ValueOfLine(lines[n]));
    }
  }

  lemma {:induction false} ValidLinesGross(items: seq<Item>, prior: seq<SaleCorrection>, lines: seq<RefundLine>)
    requires DistinctLines(items) && ValidRefundLines(items, prior, lines)
    ensures Sum(lines, Gross) == Sum(items, ValueOf(lines))
  {
    hide Cost, IncludedVat;
    forall k | 0 <= k < |lines|
      ensures var found := FindItem(items, lines[k].originalLineId);
              found.Some? && lines[k].grossCents == Cost(found.value.unitPriceCents, lines[k].quantity)
    {
      assert ValidLine(items, prior, lines[k]);
    }
    GrossByItem(items, lines);
  }

  lemma {:induction false} GrossOfCorrection(order: Order, prior: seq<SaleCorrection>, c: SaleCorrection)
    requires ValidOrder(order) && CorrectionRule(order, prior, c)
    ensures RefundAmount(c) == Sum(order.items, ValueOf(LinesOf(c)))
  {
    hide Cost, IncludedVat;
    RefundLinesAreValid(order, prior, c);
    if LinesOf(c) != [] {
      ValidLinesGross(order.items, prior, LinesOf(c));
    } else {
      forall item | item in order.items ensures ValueOf(LinesOf(c))(item) == 0 { CostUnits(item.unitPriceCents); }
      SumZero(order.items, ValueOf(LinesOf(c)));
    }
  }

  lemma {:induction false} ValueSplits(items: seq<Item>, front: seq<SaleCorrection>, c: SaleCorrection)
    ensures Sum(items, RefundedValue(front + [c])) == Sum(items, RefundedValue(front)) + Sum(items, ValueOf(LinesOf(c)))
  {
    hide Cost, IncludedVat;
    forall item | item in items
      ensures RefundedValue(front + [c])(item) == RefundedValue(front)(item) + ValueOf(LinesOf(c))(item)
    {
      SumAppend(front, c, RefundQuantityOn(item.lineId));
      CostAdds(item.unitPriceCents, RefundedQuantity(front, item.lineId), Sum(LinesOf(c), QuantityOn(item.lineId)));
    }
    SumSplit(items, RefundedValue(front + [c]), RefundedValue(front), ValueOf(LinesOf(c)));
  }

  /** The amount refunded so far is the value of the quantities refunded so far. */
  lemma {:induction false} RefundedAmountByItem(order: Order, prior: seq<SaleCorrection>)
    requires ValidOrder(order) && CorrectionHistory(order, prior)
    ensures RefundedAmount(prior) == Sum(order.items, RefundedValue(prior))
  {
    hide Cost, IncludedVat, CorrectionRule, ValidOrder, LinesOf;
    if prior == [] {
      forall item | item in order.items ensures RefundedValue(prior)(item) == 0 { CostUnits(item.unitPriceCents); }
      SumZero(order.items, RefundedValue(prior));
    } else {
      var n := |prior| - 1;
      HistoryPrefix(order, prior, n);
      RefundedAmountByItem(order, prior[..n]);
      GrossOfCorrection(order, prior[..n], prior[n]);
      assert prior == prior[..n] + [prior[n]];
      ValueSplits(order.items, prior[..n], prior[n]);
    }
  }

  /** What was refunded on an item and what is requested on it stay within its price. */
  lemma {:induction false} ItemBound(order: Order, prior: seq<SaleCorrection>, lines: seq<RefundLine>, item: Item)
    requires ValidOrder(order) && CorrectionHistory(order, prior)
    requires ValidRefundLines(order.items, prior, lines) && item in order.items
    ensures RefundedValue(prior)(item) + ValueOf(lines)(item) <= Price(item)
  {
    hide Cost, IncludedVat, RefundedQuantity, CorrectionHistory, ValidRefundLines, Blank;
    RefundsConserved(order, prior, item);
    var i :| 0 <= i < |order.items| && order.items[i] == item;
    assert ValidItem(order.items[i]);
    LineShare(order.items, prior, lines, item);
    var p, q := RefundedQuantity(prior, item.lineId), Sum(lines, QuantityOn(item.lineId));
    CostAdds(item.unitPriceCents, p, q);
    CostMonotone(item.unitPriceCents, p + q, item.quantity);
  }

  /** The per-line bound already implies the bound on the order total. */
  lemma {:induction false} LineBoundImpliesTotalBound(order: Order, prior: seq<SaleCorrection>, lines: seq<RefundLine>)
    requires ValidOrder(order) && CorrectionHistory(order, prior)
    requires ValidRefundLines(order.items, prior, lines)
    ensures RefundedAmount(prior) + Sum(lines, Gross) <= order.totalCents
  {
    hide Cost, IncludedVat, RefundedAmount, CorrectionHistory, ValidRefundLines, RefundedValue, ValueOf;
    RefundedAmountByItem(order, prior);
    ValidLinesGross(order.items, prior, lines);
    var together := (item: Item) => RefundedValue(prior)(item) + ValueOf(lines)(item);
    SumSplit(order.items, together, RefundedValue(prior), ValueOf(lines));
    forall item | item in order.items ensures together(item) <= Price(item) {
      ItemBound(order, prior, lines, item);
    }
    SumBounded(order.items, together, Price);
  }

  /** The tax refunded on a line never exceeds the tax of the whole line. */
  lemma {:induction false} RefundedTaxBounded(order: Order, prior: seq<SaleCorrection>, item: Item)
    requires ValidOrder(order) && CorrectionHistory(order, prior) && item in order.items
    ensures 0 <= RefundedVat(prior, item.lineId) <= IncludedVat(LineTotal(item), item.vatRate)
  {
    hide Cost, IncludedVat, RefundedQuantity, RefundedVat, CorrectionHistory;
    RefundsConserved(order, prior, item);
    var i :| 0 <= i < |order.items| && order.items[i] == item;
    assert ValidItem(order.items[i]);
    var q := RefundedQuantity(prior, item.lineId);
    var part := Cost(item.unitPriceCents, q);
    CostMonotone(item.unitPriceCents, 0, q);
    CostUnits(item.unitPriceCents);
    CostMonotone(item.unitPriceCents, q, item.quantity);
    IncludedVatBounds(part, item.vatRate);
    IncludedVatStep(part, LineTotal(item) - part, item.vatRate);
  }

  /** Refunds never exceed the total of the sale. */
  lemma {:induction false} RefundedAmountBounded(order: Order, prior: seq<SaleCorrection>)
    requires ValidOrder(order) && CorrectionHistory(order, prior)
    ensures 0 <= RefundedAmount(prior) <= order.totalCents
  {
    hide Cost, IncludedVat;
    forall item | item in order.items ensures 0 <= RefundedValue(prior)(item) <= Price(item) {
      RefundsConserved(order, prior, item);
      var i :| 0 <= i < |order.items| && order.items[i] == item;
      assert ValidItem(order.items[i]);
      CostMonotone(item.unitPriceCents, 0, RefundedQuantity(prior, item.lineId));
      CostUnits(item.unitPriceCents);
      CostMonotone(item.unitPriceCents, RefundedQuantity(prior, item.lineId), item.quantity);
    }
    RefundedAmountByItem(order, prior);
    SumNonNegative(order.items, RefundedValue(prior));
    SumBounded(order.items, RefundedValue(prior), Price);
  }

  /** A cancellation stands alone: with one in the history there is no other correction. */
  lemma {:induction false} CancellationStandsAlone(order: Order, prior: seq<SaleCorrection>)
    requires CorrectionHistory(order, prior) && Cancelled(prior)
    ensures |prior| == 1
  {
    var c :| c in prior && c.kind.Cancellation?;
    var n :| 0 <= n < |prior| && prior[n] == c;
    var m := |prior| - 1;
    assert prior == prior[..m] + [prior[m]];
    assert CorrectionRule(order, prior[..m], prior[m]);
    assert c !in prior[..m];
    assert CorrectionRule(order, prior[..n], prior[n]);
  }

  // ----- The correction summary -----

  datatype CorrectionStatus = Active | PartiallyRefunded | Refunded | IsCancelled

  datatype Summary = Summary(
    status: CorrectionStatus,
    refundedAmountCents: int,
    remainingRefundableCents: int,
    canCancel: bool,
    canRefund: bool)

  function Remaining(prior: seq<SaleCorrection>): Item -> int {
    (item: Item) =>
      if item.quantity - RefundedQuantity(prior, item.lineId) < 0 then 0
      else item.quantity - RefundedQuantity(prior, item.lineId)
  }

  function RemainingValue(prior: seq<SaleCorrection>): Item -> int {
    (item: Item) => Cost(item.unitPriceCents, Remaining(prior)(item))
  }

  function Summarize(order: Order, prior: seq<SaleCorrection>): Summary {
    var refunded := RefundedAmount(prior);
    var left := order.totalCents - refunded;
    var remaining := if Cancelled(prior) || left < 0 then 0 else left;
    Summary(
      if Cancelled(prior) then IsCancelled
      else if remaining == 0 && refunded > 0 then Refunded
      else if refunded > 0 then PartiallyRefunded
      else Active,
      refunded,
      remaining,
      !Cancelled(prior) && prior == [],
      !Cancelled(prior) && !HasAmountOnlyRefund(prior) && exists item :: item in order.items && Remaining(prior)(item) > 0)
  }

  /**
   What a summary says: cancelled when a cancellation is among the corrections, and then
   nothing remains; refunded when the refunds reach the total, in part when they do not.
   */
  lemma {:induction false} SummaryMeans(order: Order, prior: seq<SaleCorrection>)
    ensures var s := Summarize(order, prior);
            var cancelled := exists i :: 0 <= i < |prior| && prior[i].kind == Cancellation;
            && (s.status == IsCancelled <==> cancelled)
            && (s.status == Refunded <==> !cancelled && 0 < s.refundedAmountCents && order.totalCents <= s.refundedAmountCents)
            && (s.status == PartiallyRefunded <==> !cancelled && 0 < s.refundedAmountCents < order.totalCents)
            && (s.status == Active <==> !cancelled && s.refundedAmountCents <= 0)
            && (cancelled ==> s.remainingRefundableCents == 0)
            && (!cancelled ==> s.remainingRefundableCents >= 0 && s.remainingRefundableCents >= order.totalCents - s.refundedAmountCents
                               && (s.remainingRefundableCents > 0 ==> s.remainingRefundableCents + s.refundedAmountCents == order.totalCents))
  {
    hide RefundedAmount, Remaining, HasAmountOnlyRefund;
    if Cancelled(prior) {
      var c :| c in prior && c.kind.Cancellation?;
      var i :| 0 <= i < |prior| && prior[i] == c;
    }
  }

  /** Without a cancellation, what remains refundable is the value of the remaining quantities. */
  lemma {:induction false} RemainingIsValueOfQuantities(order: Order, prior: seq<SaleCorrection>)
    requires ValidOrder(order) && CorrectionHistory(order, prior) && !Cancelled(prior)
    ensures Summarize(order, prior).remainingRefundableCents == Sum(order.items, RemainingValue(prior))
  {
    hide Cost, IncludedVat;
    forall item | item in order.items
      ensures Price(item) == RefundedValue(prior)(item) + RemainingValue(prior)(item) && 0 <= RemainingValue(prior)(item)
    {
      ItemSplits(order, prior, item);
    }
    SumSplit(order.items, Price, RefundedValue(prior), RemainingValue(prior));
    RefundedAmountByItem(order, prior);
    SumNonNegative(order.items, RemainingValue(prior));
  }

  lemma {:induction false} ItemSplits(order: Order, prior: seq<SaleCorrection>, item: Item)
    requires ValidOrder(order) && CorrectionHistory(order, prior) && item in order.items
    ensures Price(item) == RefundedValue(prior)(item) + RemainingValue(prior)(item)
    ensures 0 <= RemainingValue(prior)(item)
  {
    hide Cost, IncludedVat, RefundedQuantity, CorrectionHistory;
    RefundsConserved(order, prior, item);
    var i :| 0 <= i < |order.items| && order.items[i] == item;
    assert ValidItem(order.items[i]);
    var done, sold := RefundedQuantity(prior, item.lineId), item.quantity;
    CostAdds(item.unitPriceCents, done, sold - done);
    CostMonotone(item.unitPriceCents, 0, sold - done);
    CostUnits(item.unitPriceCents);
    assert Remaining(prior)(item) == sold - done;
    assert done + (sold - done) == sold;
    assert Price(item) == LineTotal(item);
  }

  /** `canCancel` announces an acceptable cancellation except on a sale whose total is zero. */
  lemma {:induction false} CanCancelExactly(order: Order, prior: seq<SaleCorrection>)
    requires ValidOrder(order) && CorrectionHistory(order, prior)
    ensures (exists c: SaleCorrection :: c.kind.Cancellation? && CorrectionRule(order, prior, c))
       <==> (Summarize(order, prior).canCancel && 0 < order.totalCents)
  {
    if Summarize(order, prior).canCancel && 0 < order.totalCents {
      var c := SaleCorrection("op", order.id, order.orderNumber, order.receiptNumber, Cancellation, "reason",
                              -order.totalCents, order.paymentMethod, None, None);
      assert c.operationId[0] in c.operationId && c.reason[0] in c.reason;
      assert CorrectionRule(order, prior, c);
    }
  }

  predicate SomethingPriced(order: Order, prior: seq<SaleCorrection>) {
    exists item :: item in order.items && Remaining(prior)(item) > 0 && item.unitPriceCents > 0
  }

  /** `canRefund` announces an acceptable refund except when only free items remain. */
  lemma {:induction false} CanRefundExactly(order: Order, prior: seq<SaleCorrection>)
    requires ValidOrder(order) && CorrectionHistory(order, prior)
    ensures (exists c: SaleCorrection :: c.kind.Refund? && CorrectionRule(order, prior, c))
       <==> (Summarize(order, prior).canRefund && SomethingPriced(order, prior))
  {
    hide Cost, IncludedVat;
    if c: SaleCorrection :| c.kind.Refund? && CorrectionRule(order, prior, c) {
      RefundNeedsPricedItem(order, prior, c);
    }
    if Summarize(order, prior).canRefund && SomethingPriced(order, prior) {
      var item :| item in order.items && Remaining(prior)(item) > 0 && item.unitPriceCents > 0;
      RefundOfOneAccepted(order, prior, item);
    }
  }

  lemma {:induction false} RefundNeedsPricedItem(order: Order, prior: seq<SaleCorrection>, c: SaleCorrection)
    requires c.kind.Refund? && CorrectionRule(order, prior, c)
    ensures !Cancelled(prior) && !HasAmountOnlyRefund(prior) && SomethingPriced(order, prior)
  {
    hide Cost, IncludedVat;
    var lines := c.refundLines.value;
    var k := SomeNonZero(lines);
    assert ValidLine(order.items, prior, lines[k]);
    var item := FindItem(order.items, lines[k].originalLineId).value;
    assert lines[k].grossCents == Cost(item.unitPriceCents, lines[k].quantity);
    assert Remaining(prior)(item) > 0;
    CostPositive(item.unitPriceCents, lines[k].quantity);
  }

  lemma {:induction false} SomeNonZero(lines: seq<RefundLine>) returns (k: nat)
    requires 0 < Sum(lines, Gross)
    ensures k < |lines| && 0 < lines[k].grossCents
  {
    k := |lines| - 1;
    if lines[k].grossCents <= 0 {
      k := SomeNonZero(lines[..k]);
    }
  }

  lemma {:induction false} RefundOfOneAccepted(order: Order, prior: seq<SaleCorrection>, item: Item)
    requires ValidOrder(order) && CorrectionHistory(order, prior)
    requires !Cancelled(prior) && !HasAmountOnlyRefund(prior)
    requires item in order.items && Remaining(prior)(item) > 0 && item.unitPriceCents > 0
    ensures exists c: SaleCorrection :: c.kind.Refund? && CorrectionRule(order, prior, c)
  {
    hide Cost, IncludedVat, ValidOrder, CorrectionHistory, ValidRefundLines, RefundedAmount, Blank;
    var line := BuildLineOf(order, prior, item);
    LineBoundImpliesTotalBound(order, prior, [line]);
    OneLineGross(line);
    var c := SaleCorrection("op", order.id, order.orderNumber, order.receiptNumber, Refund, "reason",
                            -item.unitPriceCents, order.paymentMethod, None, Some([line]));
    NotBlank("op", 0);
    NotBlank("reason", 0);
    LineTotalWithinOrder(order, item);
    assert CorrectionRule(order, prior, c);
  }

  lemma {:induction false} OneLineGross(line: RefundLine)
    ensures Sum([line], Gross) == line.grossCents
  {
  }

  lemma {:induction false} NotBlank(text: string, i: nat)
    requires i < |text| && text[i] !in WHITESPACE
    ensures !Blank(text)
  {
  }

  lemma {:induction false} BuildLineOf(order: Order, prior: seq<SaleCorrection>, item: Item) returns (line: RefundLine)
    requires ValidOrder(order) && item in order.items
    requires !HasAmountOnlyRefund(prior) && Remaining(prior)(item) > 0
    ensures line.grossCents == item.unitPriceCents
    ensures ValidRefundLines(order.items, prior, [line])
  {
    hide Cost, IncludedVat;
    var k :| 0 <= k < |order.items| && order.items[k] == item;
    assert ValidItem(order.items[k]);
    line := BuildLine(item, 1, RefundedQuantity(prior, item.lineId));
    CostUnits(item.unitPriceCents);
    ItemIsUnique(order.items, item);
    assert ValidLine(order.items, prior, line);
  }

  lemma {:induction false} LineTotalWithinOrder(order: Order, item: Item)
    requires ValidOrder(order) && item in order.items
    ensures 0 <= item.unitPriceCents <= LineTotal(item) <= order.totalCents <= MAX_SAFE_INTEGER
  {
    hide Cost, IncludedVat;
    forall other | other in order.items ensures 0 <= other.unitPriceCents <= Price(other) {
      var k :| 0 <= k < |order.items| && order.items[k] == other;
      assert ValidItem(order.items[k]);
      CostMonotone(other.unitPriceCents, 1, other.quantity);
      CostUnits(other.unitPriceCents);
    }
    SumNonNegative(order.items, Price);
  }
}
