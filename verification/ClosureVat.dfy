/**
 The tax breakdown of a closure (src/services/salesLedgerService.ts:322-389): gross, net
 and included tax per rate, over the sales and corrections of a period.
 */
module ClosureVat {
  import opened Ledger
  import opened Sums
  import opened Vat
  import opened Closures
  import opened Refunds
  import opened Journal

  datatype TaxLine = TaxLine(rate: int, gross: int, vat: int)

  datatype Breakdown = Breakdown(grossCents: int, netCents: int, vatCents: int)

  function ItemTax(item: Item): TaxLine
    requires 0 <= item.vatRate
  {
    TaxLine(item.vatRate, LineTotal(item), IncludedVat(LineTotal(item), item.vatRate))
  }

  function Negated(t: TaxLine): TaxLine { TaxLine(t.rate, -t.gross, -t.vat) }

  predicate Taxed(items: seq<Item>) { forall i :: 0 <= i < |items| ==> 0 <= items[i].vatRate }

  function ItemTaxes(items: seq<Item>): seq<TaxLine>
    requires Taxed(items)
  {
    seq(|items|, i requires 0 <= i < |items| => ItemTax(items[i]))
  }

  function Negatives(lines: seq<TaxLine>): seq<TaxLine> { seq(|lines|, i requires 0 <= i < |lines| => Negated(lines[i])) }

  function LineTaxes(lines: seq<RefundLine>): seq<TaxLine> {
    seq(|lines|, i requires 0 <= i < |lines| => TaxLine(lines[i].vatRate, -lines[i].grossCents, -lines[i].vatCents))
  }

  /** What one correction takes back; None where the code finds no reliable detail. */
  function CorrectionTaxes(original: Option<Order>, c: SaleCorrection): Option<seq<TaxLine>>
    requires original.Some? ==> Taxed(original.value.items)
  {
    if c.kind.Refund? && c.refundLines.Some? then Some(LineTaxes(c.refundLines.value))
    else if c.kind.Cancellation? && original.Some? then Some(Negatives(ItemTaxes(original.value.items)))
    else None
  }

  ghost predicate SalesTaxed(entries: seq<Entry>) {
    forall e :: e in entries && e.Body().Sale? ==> Taxed(e.Body().order.items)
  }

  /** What one entry of the period contributes. */
  function Contribution(entries: seq<Entry>, e: Entry): Option<seq<TaxLine>>
    requires SalesTaxed(entries) && e in entries && Financial(e)
  {
    if e.Body().Sale? then Some(ItemTaxes(e.Body().order.items))
    else
      var sale := FindSale(entries, e.Body().correction.originalOrderId);
      CorrectionTaxes(if sale.Some? then Some(sale.value.Body().order) else None, e.Body().correction)
  }

  /** The contributions of a prefix, in order; None as soon as one is missing. */
  function Collected(entries: seq<Entry>, start: int, end: int, n: nat): Option<seq<TaxLine>>
    requires SalesTaxed(entries) && n <= |entries|
  {
    if n == 0 then Some([])
    else
      var before, e := Collected(entries, start, end, n - 1), entries[n - 1];
      if before.None? || !Within(e, start, end) then before
      else match Contribution(entries, e) case None => None case Some(lines) => Some(before.value + lines)
  }

  function GrossAt(rate: int): TaxLine -> int { (t: TaxLine) => if t.rate == rate then t.gross else 0 }

  function VatAt(rate: int): TaxLine -> int { (t: TaxLine) => if t.rate == rate then t.vat else 0 }

  function BreakdownAt(lines: seq<TaxLine>, rate: int): Breakdown {
    var gross, vat := Sum(lines, GrossAt(rate)), Sum(lines, VatAt(rate));
    Breakdown(gross, gross - vat, vat)
  }

  function RateOr(byRate: map<int, Breakdown>, rate: int): Breakdown {
    if rate in byRate then byRate[rate] else Breakdown(0, 0, 0)
  }

  function Plus(b: Breakdown, t: TaxLine, rate: int): Breakdown {
    if t.rate == rate then Breakdown(b.grossCents + t.gross, b.netCents + t.gross - t.vat, b.vatCents + t.vat) else b
  }

  lemma {:induction false} PlusIs(b: Breakdown, t: TaxLine)
    ensures Plus(b, t, t.rate) == Breakdown(b.grossCents + t.gross, b.netCents + (t.gross - t.vat), b.vatCents + t.vat)
  {
  }

  lemma {:induction false} OtherRate(b: Breakdown, t: TaxLine, rate: int)
    ensures rate != t.rate ==> Plus(b, t, rate) == b
  {
  }

  lemma {:induction false} BreakdownAppend(lines: seq<TaxLine>, t: TaxLine, rate: int)
    ensures BreakdownAt(lines + [t], rate) == Plus(BreakdownAt(lines, rate), t, rate)
  {
  }

  /** `add`, for each line of one entry. */
  method AddLines(byRate: map<int, Breakdown>, ghost before: seq<TaxLine>, lines: seq<TaxLine>) returns (after: map<int, Breakdown>)
    requires forall rate :: RateOr(byRate, rate) == BreakdownAt(before, rate)
    ensures forall rate :: RateOr(after, rate) == BreakdownAt(before + lines, rate)
  {
    hide BreakdownAt, Plus;
    after := byRate;
    assert before + lines[..0] == before;
    for i := 0 to |lines|
      invariant forall rate :: RateOr(after, rate) == BreakdownAt(before + lines[..i], rate)
    {
      var t := lines[i];
      var current := RateOr(after, t.rate);
      assert before + lines[..i + 1] == before + lines[..i] + [t];
      ghost var was := after;
      var next := Breakdown(current.grossCents + t.gross, current.netCents + (t.gross - t.vat), current.vatCents + t.vat);
      PlusIs(current, t);
      after := after[t.rate := next];
      forall rate ensures RateOr(after, rate) == BreakdownAt(before + lines[..i + 1], rate) {
        BreakdownAppend(before + lines[..i], t, rate);
        OtherRate(RateOr(was, rate), t, rate);
        assert rate != t.rate ==> RateOr(after, rate) == RateOr(was, rate);
      }
    }
    assert lines[..|lines|] == lines;
  }

  /** A correction of the period that names no lines to give back: an adjustment, a refund without lines, a cancellation of an unknown sale. */
  predicate Unattributed(entries: seq<Entry>, n: nat, start: int, end: int)
    requires n < |entries|
  {
    && entries[n].content.body.Correction?
    && start <= entries[n].content.recordedAt < end
    && match entries[n].content.body.correction.kind
       case Adjustment => true
       case Refund => entries[n].content.body.correction.refundLines.None?
       case Cancellation =>
         forall m :: 0 <= m < |entries| ==> !Sells(entries[m], entries[n].content.body.correction.originalOrderId)
  }

  predicate Sells(e: Entry, id: string) { e.content.body.Sale? && e.content.body.order.id == id }

  lemma {:induction false} MissingExactly(entries: seq<Entry>, n: nat, start: int, end: int)
    requires SalesTaxed(entries) && n < |entries| && Within(entries[n], start, end)
    ensures Contribution(entries, entries[n]).None? <==> Unattributed(entries, n, start, end)
  {
    var e := entries[n];
    if e.Body().Correction? {
      var sale := FindSale(entries, e.Body().correction.originalOrderId);
      if sale.Some? {
        var m :| 0 <= m < |entries| && entries[m] == sale.value;
        assert Sells(entries[m], e.Body().correction.originalOrderId);
      } else {
        forall m | 0 <= m < |entries| ensures !Sells(entries[m], e.Body().correction.originalOrderId) {
          assert entries[m] in entries;
        }
      }
    }
  }

  /** The breakdown of a prefix is there exactly when every correction of it can be attributed. */
  lemma {:induction false} AvailableExactly(entries: seq<Entry>, start: int, end: int, n: nat)
    requires SalesTaxed(entries) && n <= |entries|
    ensures Collected(entries, start, end, n).None? <==> exists m :: 0 <= m < n && Unattributed(entries, m, start, end)
  {
    hide Contribution, Unattributed, Within;
    if n > 0 {
      AvailableExactly(entries, start, end, n - 1);
      if Within(entries[n - 1], start, end) {
        WithinIsFinancial(entries[n - 1], start, end);
        MissingExactly(entries, n - 1, start, end);
      } else {
        OutsideIsAttributed(entries, n - 1, start, end);
      }
    }
  }

  lemma {:induction false} OutsideIsAttributed(entries: seq<Entry>, n: nat, start: int, end: int)
    requires n < |entries| && !Within(entries[n], start, end)
    ensures !Unattributed(entries, n, start, end)
  {
  }

  method CalculateClosureVat(entries: seq<Entry>, start: int, end: int) returns (breakdown: Option<map<int, Breakdown>>)
    requires SalesTaxed(entries)
    ensures breakdown.None? <==> exists n :: 0 <= n < |entries| && Unattributed(entries, n, start, end)
    ensures breakdown.Some? <==> Collected(entries, start, end, |entries|).Some?
    ensures breakdown.Some? ==> forall rate ::
      RateOr(breakdown.value, rate) == BreakdownAt(Collected(entries, start, end, |entries|).value, rate)
    ensures breakdown.Some? ==> forall rate ::
      && RateOr(breakdown.value, rate).vatCents == Sum(Collected(entries, start, end, |entries|).value, VatAt(rate))
      && RateOr(breakdown.value, rate).grossCents == Sum(Collected(entries, start, end, |entries|).value, GrossAt(rate))
      && RateOr(breakdown.value, rate).netCents == RateOr(breakdown.value, rate).grossCents - RateOr(breakdown.value, rate).vatCents
  {
    AvailableExactly(entries, start, end, |entries|);
    var byRate: map<int, Breakdown> := map[];
    for n := 0 to |entries|
      invariant Collected(entries, start, end, n).Some?
      invariant forall rate :: RateOr(byRate, rate) == BreakdownAt(Collected(entries, start, end, n).value, rate)
    {
      hide BreakdownAt, Within, Contribution;
      var e := entries[n];
      if Within(e, start, end) {
        WithinIsFinancial(e, start, end);
        var lines := Contribution(entries, e);
        if lines.None? { StaysMissing(entries, start, end, n + 1); return None; }
        byRate := AddLines(byRate, Collected(entries, start, end, n).value, lines.value);
      }
    }
    return Some(byRate);
  }

  lemma {:induction false} WithinIsFinancial(e: Entry, start: int, end: int)
    requires Within(e, start, end)
    ensures Financial(e)
  {
  }

  lemma {:induction false} StaysMissing(entries: seq<Entry>, start: int, end: int, n: nat)
    requires SalesTaxed(entries) && n <= |entries| && Collected(entries, start, end, n).None?
    ensures Collected(entries, start, end, |entries|).None?
    decreases |entries| - n
  {
    if n < |entries| {
      StaysMissing(entries, start, end, n + 1);
    }
  }

  // ----- A sale taken back completely leaves nothing -----

  function OnLine(f: RefundLine -> int, lineId: string): RefundLine -> int {
    (l: RefundLine) => if l.originalLineId == lineId then f(l) else 0
  }

  function AtRate(f: RefundLine -> int, rate: int): RefundLine -> int {
    (l: RefundLine) => if l.vatRate == rate then f(l) else 0
  }

  function ItemsAt(f: RefundLine -> int, lines: seq<RefundLine>, rate: int): Item -> int {
    (item: Item) => if item.vatRate == rate then Sum(lines, OnLine(f, item.lineId)) else 0
  }

  function OneLineAt(f: RefundLine -> int, line: RefundLine, rate: int): Item -> int {
    (item: Item) => if item.vatRate == rate && item.lineId == line.originalLineId then f(line) else 0
  }

  lemma {:induction false} OneLine(items: seq<Item>, f: RefundLine -> int, line: RefundLine, rate: int)
    requires DistinctLines(items)
    requires FindItem(items, line.originalLineId).Some? ==> FindItem(items, line.originalLineId).value.vatRate == line.vatRate
    ensures Sum(items, OneLineAt(f, line, rate))
         == if FindItem(items, line.originalLineId).Some? then AtRate(f, rate)(line) else 0
  {
    if items != [] {
      var n := |items| - 1;
      if items[n].lineId == line.originalLineId {
        forall item | item in items[..n] ensures OneLineAt(f, line, rate)(item) == 0 {
          var k :| 0 <= k < n && items[k] == item;
        }
        SumZero(items[..n], OneLineAt(f, line, rate));
      } else {
        OneLine(items[..n], f, line, rate);
      }
    }
  }

  /** A sum over refund lines at a rate, regrouped by sold item. */
  lemma {:induction false} ByItem(items: seq<Item>, f: RefundLine -> int, lines: seq<RefundLine>, rate: int)
    requires DistinctLines(items)
    requires forall k :: 0 <= k < |lines| ==>
               var found := FindItem(items, lines[k].originalLineId); found.Some? && found.value.vatRate == lines[k].vatRate
    ensures Sum(lines, AtRate(f, rate)) == Sum(items, ItemsAt(f, lines, rate))
  {
    if lines == [] {
      SumZero(items, ItemsAt(f, lines, rate));
    } else {
      var n := |lines| - 1;
      ByItem(items, f, lines[..n], rate);
      OneLine(items, f, lines[n], rate);
      SumSplit(items, ItemsAt(f, lines, rate), ItemsAt(f, lines[..n], rate), OneLineAt(f, lines[n], rate));
    }
  }

  const GrossPart: RefundLine -> int := (l: RefundLine) => l.grossCents
  const VatPart: RefundLine -> int := (l: RefundLine) => l.vatCents

  /** Refunds of one correction, by item. */
  function TakenBack(f: RefundLine -> int, rate: int, c: SaleCorrection): Item -> int {
    ItemsAt(f, LinesOf(c), rate)
  }

  function TakenBackBy(f: RefundLine -> int, rate: int, items: seq<Item>): SaleCorrection -> int {
    (c: SaleCorrection) => Sum(items, TakenBack(f, rate, c))
  }

  function TakenFrom(f: RefundLine -> int, rate: int, prior: seq<SaleCorrection>): Item -> int {
    (item: Item) => if item.vatRate == rate then Sum(prior, PartOn(f, item.lineId)) else 0
  }

  function PartOn(f: RefundLine -> int, lineId: string): SaleCorrection -> int {
    (c: SaleCorrection) => Sum(LinesOf(c), OnLine(f, lineId))
  }

  /** Summing by correction then by item, or by item then by correction. */
  lemma {:induction false} Swap(items: seq<Item>, f: RefundLine -> int, rate: int, prior: seq<SaleCorrection>)
    ensures Sum(prior, TakenBackBy(f, rate, items)) == Sum(items, TakenFrom(f, rate, prior))
  {
    if prior == [] {
      SumZero(items, TakenFrom(f, rate, prior));
    } else {
      var n := |prior| - 1;
      Swap(items, f, rate, prior[..n]);
      SumSplit(items, TakenFrom(f, rate, prior), TakenFrom(f, rate, prior[..n]), TakenBack(f, rate, prior[n]));
    }
  }

  /** The lines an accepted correction takes back, as one sum per rate. */
  lemma {:induction false} CorrectionByItem(order: Order, prior: seq<SaleCorrection>, c: SaleCorrection, f: RefundLine -> int, rate: int)
    requires ValidOrder(order) && CorrectionRule(order, prior, c)
    ensures Sum(LinesOf(c), AtRate(f, rate)) == TakenBackBy(f, rate, order.items)(c)
  {
    hide Cost, IncludedVat, Blank;
    RefundLinesAreValid(order, prior, c);
    var lines := LinesOf(c);
    forall k | 0 <= k < |lines|
      ensures var found := FindItem(order.items, lines[k].originalLineId); found.Some? && found.value.vatRate == lines[k].vatRate
    {
      assert ValidLine(order.items, prior, lines[k]);
    }
    ByItem(order.items, f, lines, rate);
  }

  function RefundedAtRate(f: RefundLine -> int, rate: int): SaleCorrection -> int {
    (c: SaleCorrection) => Sum(LinesOf(c), AtRate(f, rate))
  }

  lemma {:induction false} RefundsByItem(order: Order, prior: seq<SaleCorrection>, f: RefundLine -> int, rate: int)
    requires ValidOrder(order) && CorrectionHistory(order, prior)
    ensures Sum(prior, RefundedAtRate(f, rate)) == Sum(order.items, TakenFrom(f, rate, prior))
  {
    hide CorrectionRule, ValidOrder;
    forall c | c in prior ensures RefundedAtRate(f, rate)(c) == TakenBackBy(f, rate, order.items)(c) {
      var n :| 0 <= n < |prior| && prior[n] == c;
      assert CorrectionRule(order, prior[..n], prior[n]);
      CorrectionByItem(order, prior[..n], c, f, rate);
    }
    SumEqual(prior, RefundedAtRate(f, rate), TakenBackBy(f, rate, order.items));
    Swap(order.items, f, rate, prior);
  }

  ghost predicate FullyRefunded(order: Order, prior: seq<SaleCorrection>) {
    && (forall c :: c in prior ==> c.kind.Refund?)
    && forall item :: item in order.items ==> RefundedQuantity(prior, item.lineId) == item.quantity
  }

  function ItemGrossAt(rate: int): Item -> int { (item: Item) => if item.vatRate == rate then LineTotal(item) else 0 }

  function ItemVatAt(rate: int): Item -> int {
    (item: Item) => if item.vatRate == rate && 0 <= item.vatRate then IncludedVat(LineTotal(item), item.vatRate) else 0
  }

  /** Complete refunds give back, at every rate, the gross and the tax of the sale. */
  lemma {:induction false} FullRefundsGiveAllBack(order: Order, prior: seq<SaleCorrection>, rate: int)
    requires ValidOrder(order) && CorrectionHistory(order, prior) && FullyRefunded(order, prior)
    ensures Sum(prior, RefundedAtRate(VatPart, rate)) == Sum(order.items, ItemVatAt(rate))
    ensures Sum(prior, RefundedAtRate(GrossPart, rate)) == Sum(order.items, ItemGrossAt(rate))
  {
    hide Cost, IncludedVat, CorrectionHistory, ValidOrder, RefundedQuantity, RefundedVat;
    RefundsByItem(order, prior, VatPart, rate);
    RefundsByItem(order, prior, GrossPart, rate);
    forall item | item in order.items
      ensures TakenFrom(VatPart, rate, prior)(item) == ItemVatAt(rate)(item)
      ensures TakenFrom(GrossPart, rate, prior)(item) == ItemGrossAt(rate)(item)
    {
      ItemGivenBack(order, prior, item);
    }
    SumEqual(order.items, TakenFrom(VatPart, rate, prior), ItemVatAt(rate));
    SumEqual(order.items, TakenFrom(GrossPart, rate, prior), ItemGrossAt(rate));
  }

  lemma {:induction false} ItemGivenBack(order: Order, prior: seq<SaleCorrection>, item: Item)
    requires ValidOrder(order) && CorrectionHistory(order, prior) && FullyRefunded(order, prior) && item in order.items
    ensures 0 <= item.vatRate
    ensures Sum(prior, PartOn(VatPart, item.lineId)) == IncludedVat(LineTotal(item), item.vatRate)
    ensures Sum(prior, PartOn(GrossPart, item.lineId)) == LineTotal(item)
  {
    hide Cost, IncludedVat, CorrectionRule, ValidOrder;
    TaxedItem(order, item);
    RefundsConserved(order, prior, item);
    forall c | c in prior ensures PartOn(VatPart, item.lineId)(c) == RefundVatOn(item.lineId)(c) {
      SumEqual(LinesOf(c), OnLine(VatPart, item.lineId), VatOn(item.lineId));
    }
    SumEqual(prior, PartOn(VatPart, item.lineId), RefundVatOn(item.lineId));
    GrossOnItem(order, prior, item);
  }

  lemma {:induction false} TaxedItem(order: Order, item: Item)
    requires ValidOrder(order) && item in order.items
    ensures 0 <= item.vatRate && FindItem(order.items, item.lineId) == Some(item)
  {
  }

  /** The gross taken back on an item is the price of the quantity taken back. */
  lemma {:induction false} GrossOnItem(order: Order, prior: seq<SaleCorrection>, item: Item)
    requires ValidOrder(order) && CorrectionHistory(order, prior) && item in order.items
    ensures Sum(prior, PartOn(GrossPart, item.lineId)) == Cost(item.unitPriceCents, RefundedQuantity(prior, item.lineId))
  {
    hide Cost, IncludedVat, ValidOrder, ValidRefundLines, Blank;
    if prior == [] {
      CostUnits(item.unitPriceCents);
    } else {
      var n := |prior| - 1;
      HistoryPrefix(order, prior, n);
      GrossOnItem(order, prior[..n], item);
      RefundLinesAreValid(order, prior[..n], prior[n]);
      TaxedItem(order, item);
      var lines := LinesOf(prior[n]);
      if lines == [] {
        CostUnits(item.unitPriceCents);
      } else {
        EachLineValid(order.items, prior[..n], lines);
        GrossOnLines(order.items, prior[..n], lines, item);
      }
      CostAdds(item.unitPriceCents, RefundedQuantity(prior[..n], item.lineId), Sum(lines, QuantityOn(item.lineId)));
    }
  }

  lemma {:induction false} EachLineValid(items: seq<Item>, prior: seq<SaleCorrection>, lines: seq<RefundLine>)
    requires ValidRefundLines(items, prior, lines)
    ensures forall k :: 0 <= k < |lines| ==> ValidLine(items, prior, lines[k])
  {
  }

  lemma {:induction false} GrossOnLines(items: seq<Item>, prior: seq<SaleCorrection>, lines: seq<RefundLine>, item: Item)
    requires FindItem(items, item.lineId) == Some(item)
    requires forall k :: 0 <= k < |lines| ==> ValidLine(items, prior, lines[k])
    ensures Sum(lines, OnLine(GrossPart, item.lineId)) == Cost(item.unitPriceCents, Sum(lines, QuantityOn(item.lineId)))
  {
    hide Cost, IncludedVat, Blank;
    if lines == [] {
      CostUnits(item.unitPriceCents);
    } else {
      var n := |lines| - 1;
      GrossOnLines(items, prior, lines[..n], item);
      assert ValidLine(items, prior, lines[n]);
      CostAdds(item.unitPriceCents, Sum(lines[..n], QuantityOn(item.lineId)), QuantityOn(item.lineId)(lines[n]));
      CostUnits(item.unitPriceCents);
    }
  }

  // ----- The breakdown itself -----

  lemma {:induction false} ItemTaxSums(items: seq<Item>, rate: int)
    requires Taxed(items)
    ensures Sum(ItemTaxes(items), GrossAt(rate)) == Sum(items, ItemGrossAt(rate))
    ensures Sum(ItemTaxes(items), VatAt(rate)) == Sum(items, ItemVatAt(rate))
  {
    hide Cost, IncludedVat;
    if items != [] {
      var n := |items| - 1;
      ItemTaxSums(items[..n], rate);
      assert ItemTaxes(items)[..n] == ItemTaxes(items[..n]);
    }
  }

  lemma {:induction false} NegativeSums(lines: seq<TaxLine>, rate: int)
    ensures Sum(Negatives(lines), GrossAt(rate)) == -Sum(lines, GrossAt(rate))
    ensures Sum(Negatives(lines), VatAt(rate)) == -Sum(lines, VatAt(rate))
  {
    if lines != [] {
      var n := |lines| - 1;
      NegativeSums(lines[..n], rate);
      assert Negatives(lines)[..n] == Negatives(lines[..n]);
    }
  }

  lemma {:induction false} LineTaxSums(lines: seq<RefundLine>, rate: int)
    ensures Sum(LineTaxes(lines), GrossAt(rate)) == -Sum(lines, AtRate(GrossPart, rate))
    ensures Sum(LineTaxes(lines), VatAt(rate)) == -Sum(lines, AtRate(VatPart, rate))
  {
    if lines != [] {
      var n := |lines| - 1;
      LineTaxSums(lines[..n], rate);
      assert LineTaxes(lines)[..n] == LineTaxes(lines[..n]);
    }
  }

  // ----- The breakdown of a period without a sale that was taken back -----

  /** An entry of one sale: the sale itself or a correction of it. */
  predicate Of(e: Entry, id: string) {
    (e.Body().Sale? && e.Body().order.id == id) || (e.Body().Correction? && e.Body().correction.originalOrderId == id)
  }

  /** The entries of all other sales, in order. */
  function Without(entries: seq<Entry>, id: string): (rest: seq<Entry>)
    ensures forall e :: e in rest ==> e in entries && !Of(e, id)
  {
    if entries == [] then []
    else
      var n := |entries| - 1;
      assert entries == entries[..n] + [entries[n]];
      Without(entries[..n], id) + if Of(entries[n], id) then [] else [entries[n]]
  }

  lemma {:induction false} WithoutStep(entries: seq<Entry>, id: string, n: nat)
    requires n < |entries|
    ensures Without(entries[..n + 1], id) == Without(entries[..n], id) + if Of(entries[n], id) then [] else [entries[n]]
  {
    assert entries[..n + 1][..n] == entries[..n];
  }

  lemma {:induction false} WithoutPrefix(entries: seq<Entry>, id: string, n: nat)
    requires n <= |entries|
    ensures Without(entries[..n], id) <= Without(entries, id)
    decreases |entries| - n
  {
    if n < |entries| {
      WithoutStep(entries, id, n);
      WithoutPrefix(entries, id, n + 1);
    } else {
      assert entries[..n] == entries;
    }
  }

  lemma {:induction false} FindSaleStep(journal: seq<Entry>, e: Entry, id: string)
    ensures FindSale(journal + [e], id) == if e.Body().Sale? && e.Body().order.id == id then Some(e) else FindSale(journal, id)
  {
    assert (journal + [e])[..|journal|] == journal;
  }

  lemma {:induction false} OtherSalesStay(entries: seq<Entry>, id: string, other: string)
    requires other != id
    ensures FindSale(Without(entries, id), other) == FindSale(entries, other)
  {
    hide FindSale;
    if entries != [] {
      var n := |entries| - 1;
      OtherSalesStay(entries[..n], id, other);
      FindSaleStep(entries[..n], entries[n], other);
      assert entries == entries[..n] + [entries[n]];
      var rest := Without(entries[..n], id);
      if Of(entries[n], id) {
        assert Without(entries, id) == rest;
      } else {
        FindSaleStep(rest, entries[n], other);
      }
    } else {
      assert Without(entries, id) == entries;
    }
  }

  lemma {:induction false} SameContribution(entries: seq<Entry>, id: string, e: Entry)
    requires SalesTaxed(entries) && e in Without(entries, id) && Financial(e)
    ensures SalesTaxed(Without(entries, id)) && Contribution(Without(entries, id), e) == Contribution(entries, e)
  {
    hide ItemTaxes, CorrectionTaxes;
    if e.Body().Correction? { OtherSalesStay(entries, id, e.Body().correction.originalOrderId); }
  }

  ghost predicate OwnWithin(entries: seq<Entry>, id: string, start: int, end: int) {
    forall e :: e in entries && Of(e, id) ==> Within(e, start, end)
  }

  ghost predicate OwnKnown(entries: seq<Entry>, id: string)
    requires SalesTaxed(entries)
  {
    forall e :: e in entries && Of(e, id) ==> Contribution(entries, e).Some?
  }

  /** The tax lines one sale and its corrections contribute to a prefix. */
  function Own(entries: seq<Entry>, id: string, n: nat): seq<TaxLine>
    requires SalesTaxed(entries) && OwnKnown(entries, id) && n <= |entries|
  {
    if n == 0 then []
    else if Of(entries[n - 1], id) then Own(entries, id, n - 1) + Contribution(entries, entries[n - 1]).value
    else Own(entries, id, n - 1)
  }

  lemma {:induction false} CollectedStep(entries: seq<Entry>, start: int, end: int, n: nat, f: TaxLine -> int)
    requires SalesTaxed(entries) && n < |entries|
    ensures var before, e := Collected(entries, start, end, n), entries[n];
            var after := Collected(entries, start, end, n + 1);
            if before.None? then after.None?
            else if !Within(e, start, end) then after == before
            else Financial(e) && match Contribution(entries, e)
              case None => after.None?
              case Some(lines) => after.Some? && Sum(after.value, f) == Sum(before.value, f) + Sum(lines, f)
  {
    hide Contribution, Sum;
    var before, e := Collected(entries, start, end, n), entries[n];
    if before.Some? && Within(e, start, end) && Contribution(entries, e).Some? {
      SumConcat(before.value, Contribution(entries, e).value, f);
    }
  }

  lemma {:induction false} OwnStep(entries: seq<Entry>, id: string, n: nat, f: TaxLine -> int)
    requires SalesTaxed(entries) && n < |entries| && OwnKnown(entries, id)
    ensures if Of(entries[n], id)
            then && Contribution(entries, entries[n]).Some?
                 && Sum(Own(entries, id, n + 1), f) == Sum(Own(entries, id, n), f) + Sum(Contribution(entries, entries[n]).value, f)
            else Own(entries, id, n + 1) == Own(entries, id, n)
  {
    hide Contribution, Sum;
    if Of(entries[n], id) { SumConcat(Own(entries, id, n), Contribution(entries, entries[n]).value, f); }
  }

  ghost predicate Splits(entries: seq<Entry>, id: string, start: int, end: int, n: nat, m: nat, f: TaxLine -> int)
    requires SalesTaxed(entries) && SalesTaxed(Without(entries, id)) && OwnKnown(entries, id)
    requires n <= |entries| && m <= |Without(entries, id)|
  {
    var all, left := Collected(entries, start, end, n), Collected(Without(entries, id), start, end, m);
    && (all.Some? <==> left.Some?)
    && (all.Some? ==> Sum(all.value, f) == Sum(left.value, f) + Sum(Own(entries, id, n), f))
  }

  lemma {:induction false} WithoutIsTaxed(entries: seq<Entry>, id: string)
    requires SalesTaxed(entries)
    ensures SalesTaxed(Without(entries, id))
  {
  }

  /** What a period collects is what the other sales contribute and what this sale does. */
  lemma {:induction false} CollectedSplits(entries: seq<Entry>, id: string, start: int, end: int, n: nat, f: TaxLine -> int)
    requires SalesTaxed(entries) && n <= |entries| && OwnKnown(entries, id) && OwnWithin(entries, id, start, end)
    ensures SalesTaxed(Without(entries, id)) && |Without(entries[..n], id)| <= |Without(entries, id)|
    ensures Splits(entries, id, start, end, n, |Without(entries[..n], id)|, f)
  {
    hide Contribution, Within, Of, Sum, Collected, Own, Financial, Without, SalesTaxed, OwnKnown;
    WithoutIsTaxed(entries, id);
    WithoutPrefix(entries, id, n);
    if n == 0 {
      NoneCollected(entries, id, start, end, f);
    } else {
      var rest, m := Without(entries, id), |Without(entries[..n - 1], id)|;
      CollectedSplits(entries, id, start, end, n - 1, f);
      WithoutStep(entries, id, n - 1);
      CollectedStep(entries, start, end, n - 1, f);
      OwnStep(entries, id, n - 1, f);
      if !Of(entries[n - 1], id) {
        assert rest[m] == entries[n - 1];
        CollectedStep(rest, start, end, m, f);
        if Within(entries[n - 1], start, end) {
          WithinIsFinancial(entries[n - 1], start, end);
          SameContribution(entries, id, entries[n - 1]);
        }
      }
    }
  }

  lemma {:induction false} NoneCollected(entries: seq<Entry>, id: string, start: int, end: int, f: TaxLine -> int)
    requires SalesTaxed(entries) && OwnKnown(entries, id) && SalesTaxed(Without(entries, id))
    ensures Without(entries[..0], id) == [] && Splits(entries, id, start, end, 0, 0, f)
  {
    hide SalesTaxed, OwnKnown;
  }

  /** What one correction of an order takes back, as a sum. */
  function CorrectionSum(order: Order, f: TaxLine -> int): SaleCorrection -> int
    requires Taxed(order.items)
  {
    (c: SaleCorrection) => match CorrectionTaxes(Some(order), c) case None => 0 case Some(lines) => Sum(lines, f)
  }

  lemma {:induction false} PriorSums(journal: seq<Entry>, id: string, n: nat, f: SaleCorrection -> int)
    requires n < |journal|
    ensures Sum(PriorCorrections(journal[..n + 1], id), f) == Sum(PriorCorrections(journal[..n], id), f) +
              (if journal[n].Body().Correction? && Of(journal[n], id) then f(journal[n].Body().correction) else 0)
  {
    assert journal[..n + 1][..n] == journal[..n];
    var b := journal[n].Body();
    if b.Correction? { SumAppend(PriorCorrections(journal[..n], id), b.correction, f); }
  }

  /** What an entry of the sale at s contributes. */
  lemma {:induction false} OwnContribution(legacy: Legacy, journal: seq<Entry>, s: nat, n: nat, f: TaxLine -> int)
    requires WellFormed(legacy, journal) && SalesTaxed(journal) && n < |journal|
    requires s < |journal| && journal[s].Body().Sale? && OwnKnown(journal, journal[s].Body().order.id)
    requires Of(journal[n], journal[s].Body().order.id)
    ensures Contribution(journal, journal[n]).Some?
    ensures var order := journal[s].Body().order;
            if n == s then Sum(Contribution(journal, journal[n]).value, f) == Sum(ItemTaxes(order.items), f)
            else journal[n].Body().Correction?
                 && Sum(Contribution(journal, journal[n]).value, f) == CorrectionSum(order, f)(journal[n].Body().correction)
  {
    hide WellFormed, ItemTaxes, CorrectionTaxes, Sum;
    SaleIsUnique(legacy, journal, s);
  }

  /** A sale and its corrections contribute the items of the sale and what each correction takes back. */
  lemma {:induction false} OwnSums(legacy: Legacy, journal: seq<Entry>, s: nat, n: nat, f: TaxLine -> int)
    requires WellFormed(legacy, journal) && SalesTaxed(journal)
    requires s < |journal| && journal[s].Body().Sale? && OwnKnown(journal, journal[s].Body().order.id) && n <= |journal|
    ensures var order := journal[s].Body().order;
            Sum(Own(journal, order.id, n), f)
            == (if s < n then Sum(ItemTaxes(order.items), f) else 0)
               + Sum(PriorCorrections(journal[..n], order.id), CorrectionSum(order, f))
  {
    hide WellFormed, ItemTaxes, Contribution, PriorCorrections, CorrectionSum, OwnKnown, SalesTaxed, Own, Sum;
    var order := journal[s].Body().order;
    SoldIsTaxed(journal, s);
    if n == 0 {
      NothingOwn(journal, order, f);
    } else {
      OwnSums(legacy, journal, s, n - 1, f);
      OwnStep(journal, order.id, n - 1, f);
      PriorSums(journal, order.id, n - 1, CorrectionSum(order, f));
      if Of(journal[n - 1], order.id) { OwnContribution(legacy, journal, s, n - 1, f); }
    }
  }

  lemma {:induction false} NothingOwn(journal: seq<Entry>, order: Order, f: TaxLine -> int)
    requires SalesTaxed(journal) && OwnKnown(journal, order.id) && Taxed(order.items)
    ensures Sum(Own(journal, order.id, 0), f) == 0
    ensures Sum(PriorCorrections(journal[..0], order.id), CorrectionSum(order, f)) == 0
  {
    hide SalesTaxed, OwnKnown, CorrectionSum;
    assert journal[..0] == [];
  }

  function Minus(f: SaleCorrection -> int): SaleCorrection -> int { (c: SaleCorrection) => -f(c) }

  lemma {:induction false} SumMinus(prior: seq<SaleCorrection>, f: SaleCorrection -> int)
    ensures Sum(prior, Minus(f)) == -Sum(prior, f)
  {
    if prior != [] { SumMinus(prior[..|prior| - 1], f); }
  }

  /** Refunds take back the sums of their lines. */
  lemma {:induction false} RefundSums(order: Order, prior: seq<SaleCorrection>, rate: int)
    requires Taxed(order.items) && CorrectionHistory(order, prior) && forall c :: c in prior ==> c.kind.Refund?
    ensures Sum(prior, CorrectionSum(order, GrossAt(rate))) == -Sum(prior, RefundedAtRate(GrossPart, rate))
    ensures Sum(prior, CorrectionSum(order, VatAt(rate))) == -Sum(prior, RefundedAtRate(VatPart, rate))
  {
    hide Cost, IncludedVat, CorrectionHistory, LineTaxes;
    RefundsHaveLines(order, prior);
    var gross, vat := RefundedAtRate(GrossPart, rate), RefundedAtRate(VatPart, rate);
    forall c | c in prior
      ensures CorrectionSum(order, GrossAt(rate))(c) == Minus(gross)(c)
      ensures CorrectionSum(order, VatAt(rate))(c) == Minus(vat)(c)
    {
      LineTaxSums(c.refundLines.value, rate);
    }
    SumEqual(prior, CorrectionSum(order, GrossAt(rate)), Minus(gross));
    SumEqual(prior, CorrectionSum(order, VatAt(rate)), Minus(vat));
    SumMinus(prior, gross);
    SumMinus(prior, vat);
  }

  lemma {:induction false} RefundsHaveLines(order: Order, prior: seq<SaleCorrection>)
    requires CorrectionHistory(order, prior) && forall c :: c in prior ==> c.kind.Refund?
    ensures forall c :: c in prior ==> c.kind.Refund? && c.refundLines.Some?
  {
  }

  /** A cancellation, or refunds of everything sold, take back what the sale contributed, whatever the roundings. */
  lemma {:induction false} NothingRemains(order: Order, prior: seq<SaleCorrection>, rate: int)
    requires ValidOrder(order) && Taxed(order.items) && CorrectionHistory(order, prior)
    requires Cancelled(prior) || FullyRefunded(order, prior)
    ensures Sum(ItemTaxes(order.items), GrossAt(rate)) + Sum(prior, CorrectionSum(order, GrossAt(rate))) == 0
    ensures Sum(ItemTaxes(order.items), VatAt(rate)) + Sum(prior, CorrectionSum(order, VatAt(rate))) == 0
  {
    hide Cost, IncludedVat, ValidOrder, CorrectionHistory, ItemTaxes, Negatives;
    if Cancelled(prior) {
      CancellationStandsAlone(order, prior);
      NegativeSums(ItemTaxes(order.items), rate);
      assert prior == [prior[0]];
    } else {
      RefundSums(order, prior, rate);
      ItemTaxSums(order.items, rate);
      FullRefundsGiveAllBack(order, prior, rate);
    }
  }

  ghost predicate TakenBackWithin(journal: seq<Entry>, order: Order, start: int, end: int) {
    && (Cancelled(PriorCorrections(journal, order.id)) || FullyRefunded(order, PriorCorrections(journal, order.id)))
    && OwnWithin(journal, order.id, start, end)
  }

  /** The writers only sell items with a rate. */
  lemma {:induction false} WritersTax(legacy: Legacy, journal: seq<Entry>)
    requires WellFormed(legacy, journal)
    ensures SalesTaxed(journal)
  {
    hide WellFormed, ValidOrder;
    forall e | e in journal && e.Body().Sale? ensures Taxed(e.Body().order.items) {
      var n :| 0 <= n < |journal| && journal[n] == e;
      SoldOrderIsValid(legacy, journal, n);
      forall i | 0 <= i < |e.Body().order.items| ensures 0 <= e.Body().order.items[i].vatRate {
        TaxedItem(e.Body().order, e.Body().order.items[i]);
      }
    }
  }

  lemma {:induction false} OwnContributions(legacy: Legacy, journal: seq<Entry>, s: nat)
    requires WellFormed(legacy, journal) && SalesTaxed(journal) && s < |journal| && journal[s].Body().Sale?
    requires var order := journal[s].Body().order; var prior := PriorCorrections(journal, order.id);
             CorrectionHistory(order, prior) && (Cancelled(prior) || FullyRefunded(order, prior))
    ensures OwnKnown(journal, journal[s].Body().order.id)
  {
    hide WellFormed, ItemTaxes, CorrectionHistory, LineTaxes, Negatives;
    var order := journal[s].Body().order;
    var prior := PriorCorrections(journal, order.id);
    SaleIsUnique(legacy, journal, s);
    forall e | e in journal && Of(e, order.id) ensures Contribution(journal, e).Some? {
      if e.Body().Correction? {
        CorrectionIsPrior(journal, e);
        if Cancelled(prior) {
          CancellationStandsAlone(order, prior);
        } else {
          RefundsHaveLines(order, prior);
        }
      }
    }
  }

  lemma {:induction false} CorrectionIsPrior(journal: seq<Entry>, e: Entry)
    requires e in journal && e.Body().Correction?
    ensures e.Body().correction in PriorCorrections(journal, e.Body().correction.originalOrderId)
  {
    var n := |journal| - 1;
    assert journal == journal[..n] + [journal[n]];
    if e in journal[..n] { CorrectionIsPrior(journal[..n], e); }
  }

  /**
   On every run, a sale that is cancelled or refunded completely within the period leaves no
   trace in its tax breakdown: at every rate it is the breakdown of the other entries, and
   one is unavailable exactly when the other is.
   */
  lemma {:induction false} TakenBackNetsToZero(legacy: Legacy, journal: seq<Entry>, s: nat, start: int, end: int)
    requires WellFormed(legacy, journal) && s < |journal| && journal[s].Body().Sale?
    requires TakenBackWithin(journal, journal[s].Body().order, start, end)
    ensures var rest := Without(journal, journal[s].Body().order.id);
            && SalesTaxed(journal) && SalesTaxed(rest)
            && var all, left := Collected(journal, start, end, |journal|), Collected(rest, start, end, |rest|);
               && (all.Some? <==> left.Some?)
               && (all.Some? ==> forall rate :: BreakdownAt(all.value, rate) == BreakdownAt(left.value, rate))
  {
    hide WellFormed, CorrectionHistory, FullyRefunded, Cancelled, Own, OwnKnown, Collected, ItemTaxes, OwnWithin, SalesTaxed;
    var order := journal[s].Body().order;
    var prior, rest := PriorCorrections(journal, order.id), Without(journal, order.id);
    WritersTax(legacy, journal);
    SaleIsUnique(legacy, journal, s);
    CorrectionsFormHistory(legacy, journal, order.id);
    OwnContributions(legacy, journal, s);
    SoldOrderIsValid(legacy, journal, s);
    assert journal[..|journal|] == journal;
    CollectedSplits(journal, order.id, start, end, |journal|, GrossAt(0));
    var all, left := Collected(journal, start, end, |journal|), Collected(rest, start, end, |rest|);
    if all.Some? {
      forall rate ensures BreakdownAt(all.value, rate) == BreakdownAt(left.value, rate) {
        CollectedSplits(journal, order.id, start, end, |journal|, GrossAt(rate));
        CollectedSplits(journal, order.id, start, end, |journal|, VatAt(rate));
        SoldIsTaxed(journal, s);
        OwnSums(legacy, journal, s, |journal|, GrossAt(rate));
        OwnSums(legacy, journal, s, |journal|, VatAt(rate));
        NothingRemains(order, prior, rate);
      }
    }
  }

  lemma {:induction false} SoldIsTaxed(journal: seq<Entry>, s: nat)
    requires SalesTaxed(journal) && s < |journal| && journal[s].Body().Sale?
    ensures Taxed(journal[s].Body().order.items)
  {
  }
}
