/**
 The native twin of the journal writer (native/android/RoomOrderStore.kt). Its checks are
 written again in another language, on 64-bit integers; each is proved against the rule the
 web repository follows, so both writers produce the same journals.
 */
module NativeStore {
  import opened Ledger
  import opened Sums
  import opened Vat
  import opened Closures
  import opened CashSessions
  import opened Refunds
  import opened Journal
  import Repository
  import Server

  const TWO_63 := 0x8000_0000_0000_0000
  const TWO_31 := 0x8000_0000

  predicate FitsLong(n: int) { -TWO_63 <= n < TWO_63 }

  /** Kotlin's arithmetic on Long and on Int: the representative of n within one turn of 2 * half. */
  function Wrap(n: int, half: int): (w: int)
    requires 0 < half
    ensures -half <= w < half
  {
    (n + half) % (2 * half) - half
  }

  // ----- validateNewOrderRequest -----

  /** What the loop has established about the items read so far. */
  predicate CountedItems(items: seq<Item>) {
    && (forall i :: 0 <= i < |items| ==> ValidItem(items[i]))
    && DistinctLines(items)
    && Sum(items, Quantity) <= MAX_SAFE_INTEGER
    && Sum(items, Price) <= MAX_SAFE_INTEGER
  }

  lemma {:induction false} NothingCounted()
    ensures CountedItems([]) && Sum<Item>([], Quantity) == 0 && Sum<Item>([], Price) == 0
  {
  }

  lemma {:induction false} CountedStep(front: seq<Item>, item: Item)
    ensures CountedItems(front + [item]) <==>
              && CountedItems(front)
              && ValidItem(item)
              && (forall k :: 0 <= k < |front| ==> front[k].lineId != item.lineId)
              && Sum(front, Quantity) + item.quantity <= MAX_SAFE_INTEGER
              && Sum(front, Price) + LineTotal(item) <= MAX_SAFE_INTEGER
    ensures CountedItems(front) ==> 0 <= Sum(front, Price)
    ensures ValidItem(item) ==> 0 <= LineTotal(item)
  {
    hide Cost, Blank, ValidItem, Sum;
    var all := front + [item];
    SumAppend(front, item, Quantity);
    SumAppend(front, item, Price);
    assert all[|front|] == item;
    assert forall k :: 0 <= k < |front| ==> all[k] == front[k];
    if ValidItem(item) {
      LineTotalNonNegative(item);
      PositiveQuantity(item);
    }
    if forall i :: 0 <= i < |front| ==> ValidItem(front[i]) {
      NonNegativeItems(front);
      SumNonNegative(front, Price);
    }
  }

  lemma {:induction false} PositiveQuantity(item: Item)
    requires ValidItem(item)
    ensures 0 < item.quantity
  {
  }

  lemma {:induction false} CountedPrefix(items: seq<Item>, m: nat)
    requires m <= |items| && CountedItems(items)
    ensures CountedItems(items[..m])
    decreases |items|
  {
    hide CountedItems;
    if m == |items| {
      assert items[..m] == items;
    } else {
      var n := |items| - 1;
      assert items == items[..n] + [items[n]];
      CountedStep(items[..n], items[n]);
      CountedPrefix(items[..n], m);
      assert items[..n][..m] == items[..m];
    }
  }

  lemma {:induction false} ValidOrderIsCounted(order: Order)
    ensures ValidNewOrder(order) <==>
              && !Blank(order.id) && !Blank(order.terminalId) && order.items != [] && CountedItems(order.items)
              && order.itemCount == Sum(order.items, Quantity) <= MAX_PERSISTED_ITEM_COUNT
              && order.totalCents == Sum(order.items, Price)
  {
    hide Cost, Blank, ValidItem, Sum;
  }

  /** The loop over the items, with safeMultiply and safeAdd; None is any of its exceptions. */
  method CountItems(items: seq<Item>) returns (totals: Option<(int, int)>)
    ensures totals.Some? <==> CountedItems(items)
    ensures totals.Some? ==> totals.value == (Sum(items, Quantity), Sum(items, Price))
  {
    hide Cost, Blank, ValidItem, CountedItems, Sum;
    var lineIds: set<string> := {};
    var itemCount, totalCents := 0, 0;
    assert items[..0] == [];
    NothingCounted();
    for i := 0 to |items|
      invariant lineIds == set k | 0 <= k < i :: items[k].lineId
      invariant CountedItems(items[..i])
      invariant itemCount == Sum(items[..i], Quantity) && totalCents == Sum(items[..i], Price)
    {
      var item := items[i];
      assert items[..i + 1] == items[..i] + [item];
      assert forall k :: 0 <= k < i ==> items[..i][k] == items[k];
      CountedStep(items[..i], item);
      if CountedItems(items) { CountedPrefix(items, i + 1); }
      SumAppend(items[..i], item, Quantity);
      SumAppend(items[..i], item, Price);
      if item.lineId in lineIds { return None; }
      lineIds := lineIds + {item.lineId};
      if !ValidItem(item) { return None; }
      var lineTotal := LineTotal(item);
      if !SafeInteger(lineTotal) { return None; }
      if itemCount + item.quantity > MAX_SAFE_INTEGER || totalCents + lineTotal > MAX_SAFE_INTEGER { return None; }
      itemCount, totalCents := itemCount + item.quantity, totalCents + lineTotal;
    }
    assert items[..|items|] == items;
    return Some((itemCount, totalCents));
  }

  /** The native checks of a new sale accept exactly what the web repository calls a valid order. */
  method ValidateNewOrder(order: Order) returns (ok: bool)
    ensures ok <==> ValidNewOrder(order)
  {
    hide Cost, Blank, ValidItem, CountedItems, Sum, ValidNewOrder;
    ValidOrderIsCounted(order);
    if Blank(order.id) || Blank(order.terminalId) || order.items == [] { return false; }
    var totals := CountItems(order.items);
    if totals.None? { return false; }
    SomethingCounted(order.items);
    return 1 <= order.itemCount <= MAX_PERSISTED_ITEM_COUNT && 0 <= order.totalCents
      && order.itemCount == totals.value.0 && order.totalCents == totals.value.1;
  }

  lemma {:induction false} SomethingCounted(items: seq<Item>)
    requires CountedItems(items) && items != []
    ensures 1 <= Sum(items, Quantity) && 0 <= Sum(items, Price)
  {
    hide Cost, Blank, CountedItems;
    var n := |items| - 1;
    assert items == items[..n] + [items[n]];
    CountedStep(items[..n], items[n]);
    PositiveQuantity(items[n]);
    SumAppend(items[..n], items[n], Quantity);
    CountedIsNonNegative(items[..n]);
    CountedIsNonNegative(items);
  }

  lemma {:induction false} CountedIsNonNegative(items: seq<Item>)
    requires CountedItems(items)
    ensures 0 <= Sum(items, Quantity) && 0 <= Sum(items, Price)
  {
    hide Cost, Blank, ValidItem;
    NonNegativeItems(items);
    SumNonNegative(items, Quantity);
    SumNonNegative(items, Price);
  }

  // ----- closureTotals -----

  /** Every column on its machine integer: counts on Int, cents on Long. */
  function Wrapped(t: Totals): Totals {
    Totals(Wrap(t.saleCount, TWO_31), Wrap(t.grossSalesCents, TWO_63), Wrap(t.correctionCount, TWO_31),
           Wrap(t.correctionTotalCents, TWO_63), Wrap(t.netTotalCents, TWO_63), Wrap(t.cumulativeNetTotalCents, TWO_63),
           Wrap(t.cashCents, TWO_63), Wrap(t.cardCents, TWO_63))
  }

  lemma {:induction false} WrapFits(n: int, half: int)
    requires 0 < half
    ensures Wrap(n, half) == n <==> -half <= n < half
    ensures exists q: int :: Wrap(n, half) == n - q * (2 * half)
  {
    var m := 2 * half;
    assert n + half == (n + half) / m * m + (n + half) % m;
    assert Wrap(n, half) == n - ((n + half) / m) * m;
    if -half <= n < half {
      OneTurn(Wrap(n, half), n, -((n + half) / m), half);
    }
  }

  /** Two numbers of one turn that differ by whole turns are equal. */
  lemma {:induction false} OneTurn(x: int, y: int, q: int, half: int)
    requires 0 < half && -half <= x < half && -half <= y < half && x - y == q * (2 * half)
    ensures x == y
  {
    WholeTurns(q, 2 * half);
  }

  lemma {:induction false} WholeTurns(q: int, m: int)
    requires 0 < m
    ensures q >= 1 ==> q * m >= m
    ensures q <= -1 ==> q * m <= -m
  {
  }

  /** Wrapping at every addition is wrapping once at the end. */
  lemma {:induction false} WrapOnce(a: int, b: int, half: int)
    requires 0 < half
    ensures Wrap(Wrap(a, half) + b, half) == Wrap(a + b, half)
  {
    hide Wrap;
    WrapFits(a, half);
    WrapFits(Wrap(a, half) + b, half);
    WrapFits(a + b, half);
    var p: int :| Wrap(a, half) == a - p * (2 * half);
    var q: int :| Wrap(Wrap(a, half) + b, half) == Wrap(a, half) + b - q * (2 * half);
    var r: int :| Wrap(a + b, half) == a + b - r * (2 * half);
    assert (r - p - q) * (2 * half) == r * (2 * half) - p * (2 * half) - q * (2 * half);
    OneTurn(Wrap(Wrap(a, half) + b, half), Wrap(a + b, half), r - p - q, half);
  }

  /** The loop on machine integers: its totals are the exact ones, wrapped. */
  method NativeClosureTotals(entries: seq<Entry>, start: int, end: int) returns (totals: Totals)
    ensures totals == Wrapped(ClosureTotals(entries, start, end))
  {
    hide Wrap, Sum;
    var saleCount, gross, correctionCount, corrections := 0, 0, 0, 0;
    var cumulative, cash, card := 0, 0, 0;
    WrapZero();
    NoColumns(start, end);
    assert entries[..0] == [];
    for i := 0 to |entries|
      invariant saleCount == Wrap(Sum(entries[..i], SaleCountIn(start, end)), TWO_31)
      invariant gross == Wrap(Sum(entries[..i], GrossIn(start, end)), TWO_63)
      invariant correctionCount == Wrap(Sum(entries[..i], CorrectionCountIn(start, end)), TWO_31)
      invariant corrections == Wrap(Sum(entries[..i], CorrectionsIn(start, end)), TWO_63)
      invariant cumulative == Wrap(Sum(entries[..i], Before(end)), TWO_63)
      invariant cash == Wrap(Sum(entries[..i], PaymentsIn(Cash, start, end)), TWO_63)
      invariant card == Wrap(Sum(entries[..i], PaymentsIn(Card, start, end)), TWO_63)
    {
      var e := entries[i];
      assert entries[..i + 1] == entries[..i] + [e];
      TotalsAppend(entries[..i], e, start, end);
      WrapColumns(entries[..i], e, start, end);
      match e.Body()
      case Sale(order) =>
        var total := order.totalCents;
        if order.paidAt < end { cumulative := Wrap(cumulative + total, TWO_63); }
        if start <= order.paidAt < end {
          saleCount, gross := Wrap(saleCount + 1, TWO_31), Wrap(gross + total, TWO_63);
          if order.paymentMethod == Cash { cash := Wrap(cash + total, TWO_63); } else { card := Wrap(card + total, TWO_63); }
        }
      case Correction(c) =>
        var delta := c.amountDeltaCents;
        if e.RecordedAt() < end { cumulative := Wrap(cumulative + delta, TWO_63); }
        if start <= e.RecordedAt() < end {
          correctionCount, corrections := Wrap(correctionCount + 1, TWO_31), Wrap(corrections + delta, TWO_63);
          if c.paymentMethod == Cash { cash := Wrap(cash + delta, TWO_63); } else { card := Wrap(card + delta, TWO_63); }
        }
      case _ =>
    }
    assert entries[..|entries|] == entries;
    WrapOnce(Sum(entries, GrossIn(start, end)), Wrap(Sum(entries, CorrectionsIn(start, end)), TWO_63), TWO_63);
    WrapOnce(Sum(entries, CorrectionsIn(start, end)), Sum(entries, GrossIn(start, end)), TWO_63);
    totals := Totals(saleCount, gross, correctionCount, corrections, Wrap(gross + corrections, TWO_63), cumulative, cash, card);
  }

  lemma {:induction false} WrapZero()
    ensures Wrap(0, TWO_31) == 0 && Wrap(0, TWO_63) == 0
  {
  }

  lemma {:induction false} NoColumns(start: int, end: int)
    ensures ClosureTotals([], start, end) == Totals(0, 0, 0, 0, 0, 0, 0, 0)
  {
  }

  /** One more entry, column by column. */
  lemma {:induction false} WrapColumns(entries: seq<Entry>, e: Entry, start: int, end: int)
    ensures Wrap(Wrap(Sum(entries, SaleCountIn(start, end)), TWO_31) + SaleCountIn(start, end)(e), TWO_31)
            == Wrap(Sum(entries, SaleCountIn(start, end)) + SaleCountIn(start, end)(e), TWO_31)
    ensures Wrap(Wrap(Sum(entries, GrossIn(start, end)), TWO_63) + GrossIn(start, end)(e), TWO_63)
            == Wrap(Sum(entries, GrossIn(start, end)) + GrossIn(start, end)(e), TWO_63)
    ensures Wrap(Wrap(Sum(entries, CorrectionCountIn(start, end)), TWO_31) + CorrectionCountIn(start, end)(e), TWO_31)
            == Wrap(Sum(entries, CorrectionCountIn(start, end)) + CorrectionCountIn(start, end)(e), TWO_31)
    ensures Wrap(Wrap(Sum(entries, CorrectionsIn(start, end)), TWO_63) + CorrectionsIn(start, end)(e), TWO_63)
            == Wrap(Sum(entries, CorrectionsIn(start, end)) + CorrectionsIn(start, end)(e), TWO_63)
    ensures Wrap(Wrap(Sum(entries, Before(end)), TWO_63) + Before(end)(e), TWO_63)
            == Wrap(Sum(entries, Before(end)) + Before(end)(e), TWO_63)
    ensures Wrap(Wrap(Sum(entries, PaymentsIn(Cash, start, end)), TWO_63) + PaymentsIn(Cash, start, end)(e), TWO_63)
            == Wrap(Sum(entries, PaymentsIn(Cash, start, end)) + PaymentsIn(Cash, start, end)(e), TWO_63)
    ensures Wrap(Wrap(Sum(entries, PaymentsIn(Card, start, end)), TWO_63) + PaymentsIn(Card, start, end)(e), TWO_63)
            == Wrap(Sum(entries, PaymentsIn(Card, start, end)) + PaymentsIn(Card, start, end)(e), TWO_63)
  {
    hide Wrap, Sum, Within;
    WrapOnce(Sum(entries, SaleCountIn(start, end)), SaleCountIn(start, end)(e), TWO_31);
    WrapOnce(Sum(entries, GrossIn(start, end)), GrossIn(start, end)(e), TWO_63);
    WrapOnce(Sum(entries, CorrectionCountIn(start, end)), CorrectionCountIn(start, end)(e), TWO_31);
    WrapOnce(Sum(entries, CorrectionsIn(start, end)), CorrectionsIn(start, end)(e), TWO_63);
    WrapOnce(Sum(entries, Before(end)), Before(end)(e), TWO_63);
    WrapOnce(Sum(entries, PaymentsIn(Cash, start, end)), PaymentsIn(Cash, start, end)(e), TWO_63);
    WrapOnce(Sum(entries, PaymentsIn(Card, start, end)), PaymentsIn(Card, start, end)(e), TWO_63);
  }

  predicate OnMachine(t: Totals) {
    && -TWO_31 <= t.saleCount < TWO_31 && -TWO_31 <= t.correctionCount < TWO_31
    && FitsLong(t.grossSalesCents) && FitsLong(t.correctionTotalCents) && FitsLong(t.netTotalCents)
    && FitsLong(t.cumulativeNetTotalCents) && FitsLong(t.cashCents) && FitsLong(t.cardCents)
  }

  /** The native totals are the web's exactly when the exact totals fit, whatever overflowed on the way. */
  lemma {:induction false} NativeTotalsAgreeExactly(t: Totals)
    ensures Wrapped(t) == t <==> OnMachine(t)
  {
    hide Wrap;
    WrapFits(t.saleCount, TWO_31);
    WrapFits(t.grossSalesCents, TWO_63);
    WrapFits(t.correctionCount, TWO_31);
    WrapFits(t.correctionTotalCents, TWO_63);
    WrapFits(t.netTotalCents, TWO_63);
    WrapFits(t.cumulativeNetTotalCents, TWO_63);
    WrapFits(t.cashCents, TWO_63);
    WrapFits(t.cardCents, TWO_63);
  }

  // ----- validateCorrection and validateRefundLines -----

  /** What one refund line multiplies and adds stays far from the end of a Long. */
  lemma {:induction false} LineFitsLong(order: Order, item: Item, before: int, quantity: int)
    requires ValidOrder(order) && item in order.items && 0 <= before && 0 < quantity <= item.quantity - before
    ensures FitsLong(Cost(item.unitPriceCents, quantity)) && FitsLong(Cost(item.unitPriceCents, before))
    ensures FitsLong(Cost(item.unitPriceCents, before) + Cost(item.unitPriceCents, quantity))
  {
    hide Cost, ValidOrder;
    LineTotalWithinOrder(order, item);
    CostUnits(item.unitPriceCents);
    CostAdds(item.unitPriceCents, before, quantity);
    CostMonotone(item.unitPriceCents, 0, before);
    CostMonotone(item.unitPriceCents, 0, quantity);
    CostMonotone(item.unitPriceCents, before + quantity, item.quantity);
  }

  /** One turn of the line loop, multiplyExact and addExact included. */
  method CheckLine(order: Order, ghost prior: seq<SaleCorrection>, line: RefundLine, before: int) returns (ok: bool)
    requires ValidOrder(order) && CorrectionHistory(order, prior)
    requires before == RefundedQuantity(prior, line.originalLineId)
    ensures ok == ValidLine(order.items, prior, line)
  {
    hide Cost, IncludedVat, Blank, RefundedQuantity, ValidOrder, CorrectionHistory;
    if Blank(line.originalLineId) || !(0 < line.quantity <= MAX_SAFE_INTEGER) { return false; }
    var found := FindItem(order.items, line.originalLineId);
    if found.None? { return false; }
    var original := found.value;
    if line.quantity > original.quantity - before { return false; }
    Server.QuantityBounds(order, prior, line.originalLineId);
    LineFitsLong(order, original, before, line.quantity);
    RateIsPositive(order, original);
    var gross, previousGross := Cost(original.unitPriceCents, line.quantity), Cost(original.unitPriceCents, before);
    var exact := FitsLong(gross) && FitsLong(previousGross) && FitsLong(previousGross + gross);
    var vat := IncludedVat(previousGross + gross, original.vatRate) - IncludedVat(previousGross, original.vatRate);
    return exact && line == RefundLine(original.lineId, original.productId, original.name, line.quantity, original.unitPriceCents,
                                       original.vatRate, gross, vat);
  }

  lemma {:induction false} RateIsPositive(order: Order, item: Item)
    requires ValidOrder(order) && item in order.items
    ensures 0 < item.vatRate
  {
  }

  /** The lines checked so far add up within a Long. */
  lemma {:induction false} RunningTotalFits(order: Order, prior: seq<SaleCorrection>, lines: seq<RefundLine>)
    requires ValidOrder(order) && CorrectionHistory(order, prior) && ValidRefundLines(order.items, prior, lines)
    ensures FitsLong(Sum(lines, Gross))
  {
    hide ValidRefundLines, CorrectionHistory, RefundedAmount, Sum;
    LineBoundImpliesTotalBound(order, prior, lines);
    RefundedAmountBounded(order, prior);
    RefundTotalIsPositive(order, prior, lines);
  }

  lemma {:induction false} RefundTotalIsPositive(order: Order, prior: seq<SaleCorrection>, lines: seq<RefundLine>)
    requires ValidOrder(order) && CorrectionHistory(order, prior) && ValidRefundLines(order.items, prior, lines)
    ensures 0 <= Sum(lines, Gross)
  {
    hide Sum, CorrectionHistory, ValidOrder, ValidLine, HasAmountOnlyRefund;
    forall line | line in lines ensures 0 <= Gross(line) {
      var k :| 0 <= k < |lines| && lines[k] == line;
      assert ValidLine(order.items, prior, lines[k]);
      RefundLineTaxBounded(order, prior, line);
    }
    SumNonNegative(lines, Gross);
  }

  method ValidateRefundLines(order: Order, prior: seq<SaleCorrection>, requested: Option<seq<RefundLine>>) returns (total: Option<int>)
    requires ValidOrder(order) && CorrectionHistory(order, prior)
    ensures total == if requested.Some? && ValidRefundLines(order.items, prior, requested.value)
                     then Some(Sum(requested.value, Gross)) else None
  {
    hide ValidLine, RefundedQuantity, HasAmountOnlyRefund, ValidOrder, CorrectionHistory, Sum;
    if requested.None? { return None; }
    var refundedById, amountOnly := DeriveRefunded(prior);
    var lines := requested.value;
    if amountOnly || lines == [] { return None; }
    var seen: set<string> := {};
    var sum, exact := 0, true;
    NoLines();
    assert lines[..0] == [];
    for i := 0 to |lines|
      invariant seen == set k | 0 <= k < i :: lines[k].originalLineId
      invariant DistinctSelections(lines[..i])
      invariant forall k :: 0 <= k < i ==> ValidLine(order.items, prior, lines[k])
      invariant exact && sum == Sum(lines[..i], Gross)
    {
      var line := lines[i];
      if line.originalLineId in seen { return None; }
      seen := seen + {line.originalLineId};
      var ok := CheckLine(order, prior, line, At(refundedById, line.originalLineId));
      if !ok { return None; }
      assert lines[..i + 1] == lines[..i] + [line];
      SumAppend(lines[..i], line, Gross);
      RunningTotalFits(order, prior, lines[..i + 1]);
      exact := exact && FitsLong(sum + line.grossCents);
      sum := sum + line.grossCents;
    }
    assert lines[..|lines|] == lines;
    return if exact then Some(sum) else None;
  }

  lemma {:induction false} NoLines()
    ensures Sum<RefundLine>([], Gross) == 0
  {
  }

  /** The native guard of a correction accepts exactly what the web guard accepts. */
  method ValidateCorrection(order: Order, entries: seq<Entry>, c: SaleCorrection) returns (accepted: bool)
    requires ValidOrder(order) && CorrectionHistory(order, PriorCorrections(entries, order.id))
    ensures accepted <==> CorrectionRule(order, PriorCorrections(entries, order.id), c)
  {
    hide ValidRefundLines, Blank, PriorCorrections, ValidOrder, CorrectionHistory, RefundedAmount, Sum;
    if Blank(c.operationId) || Blank(c.reason) || !SafeInteger(c.amountDeltaCents) { return false; }
    if c.kind != Cancellation && c.amountDeltaCents == 0 { return false; }
    if c.kind != Adjustment && c.amountDeltaCents >= 0 { return false; }
    if c.kind == Cancellation && c.amountDeltaCents != -order.totalCents { return false; }
    var prior: seq<SaleCorrection> := [];
    Repository.NoPrior(entries, order.id);
    for i := 0 to |entries|
      invariant prior == PriorCorrections(entries[..i], order.id)
    {
      Repository.PriorStep(entries, i, order.id);
      if entries[i].Body().Correction? && entries[i].Body().correction.originalOrderId == order.id {
        prior := prior + [entries[i].Body().correction];
      }
    }
    assert entries[..|entries|] == entries;
    if Cancelled(prior) || (c.kind == Cancellation && prior != []) { return false; }
    if c.kind != Refund { return true; }
    var refundTotal := ValidateRefundLines(order, prior, c.refundLines);
    if refundTotal.None? || c.amountDeltaCents != -refundTotal.value { return false; }
    var alreadyRefunded := AlreadyRefunded(order, prior);
    return alreadyRefunded - c.amountDeltaCents <= order.totalCents;
  }

  /** `sumOf` on Long: it never wraps, every part of the history being bounded by the sale. */
  method AlreadyRefunded(order: Order, prior: seq<SaleCorrection>) returns (cents: int)
    requires ValidOrder(order) && CorrectionHistory(order, prior)
    ensures cents == RefundedAmount(prior)
  {
    hide CorrectionHistory, Wrap, CorrectionRule;
    cents := 0;
    for i := 0 to |prior|
      invariant cents == RefundedAmount(prior[..i])
    {
      assert prior[..i + 1] == prior[..i] + [prior[i]];
      SumAppend(prior[..i], prior[i], RefundAmount);
      HistoryPrefix(order, prior, i + 1);
      RefundedAmountBounded(order, prior[..i + 1]);
      WrapFits(RefundedAmount(prior[..i + 1]), TWO_63);
      if prior[i].kind == Refund { cents := Wrap(cents - prior[i].amountDeltaCents, TWO_63); }
    }
    assert prior[..|prior|] == prior;
  }

  // ----- Sessions -----

  /** activeCashSession: one fold over the entries in sequence order. */
  method ActiveCashSession(entries: seq<Entry>) returns (active: Option<ActiveCash>)
    ensures active == NativeActive(entries)
  {
    active := None;
    for i := 0 to |entries|
      invariant active == NativeActive(entries[..i])
    {
      assert entries[..i + 1][..i] == entries[..i];
      match entries[i].Body()
      case SessionOpened(s) =>
        active := Some(ActiveCash(s.sessionId, entries[i].content.terminalId, s.periodStart, s.openingFloatCents));
      case FloatUpdated(u) =>
        if active.Some? && active.value.id == u.sessionId {
          active := Some(active.value.(openingFloatCents := u.newOpeningFloatCents));
        }
      case Closure(c) =>
        var id := if c.session.Some? then c.session.value.cashSessionId else "";
        if active.Some? && active.value.id == id { active := None; }
      case _ =>
    }
    assert entries[..|entries|] == entries;
  }

  predicate NativeOpening(journal: seq<Entry>, e: Entry, s: SessionOpening) {
    && !Blank(s.sessionId)
    && NativeActive(journal).None?
    && CashAmount(s.openingFloatCents)
    && s.periodStart <= s.createdAt == e.RecordedAt()
    && ContinuesAt(LastClosureEnd(journal), s.periodStart)
  }

  predicate NativeFloat(journal: seq<Entry>, e: Entry, u: FloatUpdate) {
    var active := NativeActive(journal);
    && !Blank(u.operationId)
    && active.Some?
    && active.value.id == u.sessionId
    && active.value.terminalId == e.content.terminalId
    && SafeInteger(u.previousOpeningFloatCents)
    && active.value.openingFloatCents == u.previousOpeningFloatCents
    && CashAmount(u.newOpeningFloatCents)
  }

  /** Both writers open sessions and change floats alike, up to the texts each of them checks. */
  lemma {:induction false} SessionEntriesAgree(legacy: Legacy, journal: seq<Entry>, e: Entry)
    requires WellFormed(legacy, journal) && !BlankSessionThenClosure(journal)
    ensures e.Body().SessionOpened? ==>
              (OpeningGuard(journal, e, e.Body().session) && !Blank(e.Body().session.sessionId)
               <==> NativeOpening(journal, e, e.Body().session) && !Blank(e.content.terminalId))
    ensures e.Body().FloatUpdated? ==>
              (FloatGuard(journal, e, e.Body().update) && !Blank(e.Body().update.operationId)
               <==> NativeFloat(journal, e, e.Body().update))
  {
    hide NativeActive, AuditorActive, ServerActive, ActiveSession, LastClosureEnd, Blank, WellFormed, BlankSessionThenClosure;
    ActiveSessionForms(legacy, journal);
    Server.ActiveFloatIsAmount(legacy, journal);
  }

  // ----- closePeriod -----

  function NativeClosureOf(journal: seq<Entry>, r: Repository.ClosureRequest): SalesClosure {
    var totals := Wrapped(ClosureTotals(journal, r.periodStart, r.periodEnd));
    SalesClosure(r.operationId, r.periodStart, r.periodEnd, totals,
      if r.cashSessionId.Some? && r.openingFloatCents.Some?
      then Some(ClosedSession(r.cashSessionId.value, r.openingFloatCents.value, r.openingFloatCents.value + totals.cashCents))
      else None)
  }

  /** A session id that is given, even an empty one, must match; safeAdd checks the upper end only. */
  predicate NativeClosure(journal: seq<Entry>, r: Repository.ClosureRequest) {
    var active := NativeActive(journal);
    && !Blank(r.operationId)
    && r.periodStart < r.periodEnd <= r.recordedAt
    && ContinuesAt(LastClosureEnd(journal), r.periodStart)
    && (r.openingFloatCents.Some? ==> SafeInteger(r.openingFloatCents.value))
    && (r.cashSessionId.Some? ==>
          && active.Some?
          && active.value.id == r.cashSessionId.value
          && active.value.periodStart == r.periodStart
          && r.openingFloatCents == Some(active.value.openingFloatCents)
          && active.value.terminalId == r.terminalId
          && r.openingFloatCents.value + NativeClosureOf(journal, r).totals.cashCents <= MAX_SAFE_INTEGER)
  }

  /** What the web repository accepts, as its closePeriod states it. */
  predicate WebClosure(legacy: Legacy, journal: seq<Entry>, r: Repository.ClosureRequest) {
    && Guard(legacy, journal, Repository.Envelope(journal, r.recordedAt, r.terminalId, Closure(Repository.ClosureOf(journal, r))))
    && (Repository.AsksSession(r) ==> r.openingFloatCents.Some?)
  }

  /** The native writer reads the operation id, an empty session id and a float without a session; the web one does not. */
  predicate NativeOnly(r: Repository.ClosureRequest) {
    && !Blank(r.operationId)
    && r.cashSessionId != Some("")
    && (r.openingFloatCents.Some? ==> SafeInteger(r.openingFloatCents.value))
  }

  /** The web writer also refuses a cash total below the safe range. */
  predicate WebOnly(journal: seq<Entry>, r: Repository.ClosureRequest) {
    && r.cashSessionId != Some("")
    && (r.cashSessionId.Some? ==> SafeInteger(ClosureTotals(journal, r.periodStart, r.periodEnd).cashCents))
  }

  /** Both writers accept the same closures, up to those lists, and record the same entry when its totals fit a Long. */
  lemma {:induction false} ClosuresAgree(legacy: Legacy, journal: seq<Entry>, r: Repository.ClosureRequest)
    requires WellFormed(legacy, journal) && !BlankSessionThenClosure(journal)
    ensures WebClosure(legacy, journal, r) && NativeOnly(r) <==> NativeClosure(journal, r) && WebOnly(journal, r)
    ensures r.cashSessionId != Some("") && OnMachine(ClosureTotals(journal, r.periodStart, r.periodEnd)) ==>
              NativeClosureOf(journal, r) == Repository.ClosureOf(journal, r)
  {
    hide NativeActive, AuditorActive, ServerActive, ActiveSession, LastClosureEnd, Blank, WellFormed, BlankSessionThenClosure,
         ClosureTotals, Wrap, Guard, Repository.ClosureOf;
    var totals := ClosureTotals(journal, r.periodStart, r.periodEnd);
    ActiveSessionForms(legacy, journal);
    Server.ActiveFloatIsAmount(legacy, journal);
    WrapFits(totals.cashCents, TWO_63);
    Repository.ClosureEntryGuard(legacy, journal, r);
    NativeTotalsAgreeExactly(totals);
    NativeClosureIs(journal, r);
  }

  lemma {:induction false} NativeClosureIs(journal: seq<Entry>, r: Repository.ClosureRequest)
    ensures var totals := ClosureTotals(journal, r.periodStart, r.periodEnd);
            r.cashSessionId != Some("") && Wrapped(totals) == totals ==> NativeClosureOf(journal, r) == Repository.ClosureOf(journal, r)
    ensures NativeClosureOf(journal, r).totals.cashCents == Wrap(ClosureTotals(journal, r.periodStart, r.periodEnd).cashCents, TWO_63)
  {
    hide ClosureTotals, Wrap;
  }
}
