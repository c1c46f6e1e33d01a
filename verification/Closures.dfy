/**
 Closure totals (src/services/orderRepository.ts, calculateClosureTotals). The
 specification is a sum per column; the method is the accumulator loop of the code.
 */
module Closures {
  import opened Ledger
  import opened Sums

  /** A sale counts at its payment date, a correction at its recording date. */
  predicate Financial(e: Entry) {
    e.Body().Sale? || e.Body().Correction?
  }

  function FinancialDate(e: Entry): int
    requires Financial(e)
  {
    if e.Body().Sale? then e.Body().order.paidAt else e.RecordedAt()
  }

  function Amount(e: Entry): int
    requires Financial(e)
  {
    if e.Body().Sale? then e.Body().order.totalCents else e.Body().correction.amountDeltaCents
  }

  function MethodOf(e: Entry): PaymentMethod
    requires Financial(e)
  {
    if e.Body().Sale? then e.Body().order.paymentMethod else e.Body().correction.paymentMethod
  }

  predicate Within(e: Entry, start: int, end: int) {
    Financial(e) && start <= FinancialDate(e) < end
  }

  /** The columns of a closure, as functions of one entry. */
  function SaleCountIn(start: int, end: int): Entry -> int {
    (e: Entry) => if Within(e, start, end) && e.Body().Sale? then 1 else 0
  }

  function GrossIn(start: int, end: int): Entry -> int {
    (e: Entry) => if Within(e, start, end) && e.Body().Sale? then Amount(e) else 0
  }

  function CorrectionCountIn(start: int, end: int): Entry -> int {
    (e: Entry) => if Within(e, start, end) && e.Body().Correction? then 1 else 0
  }

  function CorrectionsIn(start: int, end: int): Entry -> int {
    (e: Entry) => if Within(e, start, end) && e.Body().Correction? then Amount(e) else 0
  }

  function PaymentsIn(means: PaymentMethod, start: int, end: int): Entry -> int {
    (e: Entry) => if Within(e, start, end) && MethodOf(e) == means then Amount(e) else 0
  }

  function NetIn(start: int, end: int): Entry -> int {
    (e: Entry) => if Within(e, start, end) then Amount(e) else 0
  }

  function Before(end: int): Entry -> int {
    (e: Entry) => if Financial(e) && FinancialDate(e) < end then Amount(e) else 0
  }

  function ClosureTotals(entries: seq<Entry>, start: int, end: int): Totals {
    Totals(
      Sum(entries, SaleCountIn(start, end)),
      Sum(entries, GrossIn(start, end)),
      Sum(entries, CorrectionCountIn(start, end)),
      Sum(entries, CorrectionsIn(start, end)),
      Sum(entries, GrossIn(start, end)) + Sum(entries, CorrectionsIn(start, end)),
      Sum(entries, Before(end)),
      Sum(entries, PaymentsIn(Cash, start, end)),
      Sum(entries, PaymentsIn(Card, start, end)))
  }

  method CalculateClosureTotals(entries: seq<Entry>, start: int, end: int) returns (totals: Totals)
    ensures totals == ClosureTotals(entries, start, end)
  {
    var saleCount, gross, correctionCount, corrections := 0, 0, 0, 0;
    var cumulative, cash, card := 0, 0, 0;
    for i := 0 to |entries|
      invariant saleCount == Sum(entries[..i], SaleCountIn(start, end))
      invariant gross == Sum(entries[..i], GrossIn(start, end))
      invariant correctionCount == Sum(entries[..i], CorrectionCountIn(start, end))
      invariant corrections == Sum(entries[..i], CorrectionsIn(start, end))
      invariant cumulative == Sum(entries[..i], Before(end))
      invariant cash == Sum(entries[..i], PaymentsIn(Cash, start, end))
      invariant card == Sum(entries[..i], PaymentsIn(Card, start, end))
    {
      var e := entries[i];
      assert entries[..i + 1] == entries[..i] + [e];
      TotalsAppend(entries[..i], e, start, end);
      match e.Body()
      case Sale(order) =>
        if order.paidAt < end { cumulative := cumulative + order.totalCents; }
        if start <= order.paidAt < end {
          saleCount := saleCount + 1;
          gross := gross + order.totalCents;
          if order.paymentMethod == Cash { cash := cash + order.totalCents; }
          else { card := card + order.totalCents; }
        }
      case Correction(c) =>
        if e.RecordedAt() < end { cumulative := cumulative + c.amountDeltaCents; }
        if start <= e.RecordedAt() < end {
          correctionCount := correctionCount + 1;
          corrections := corrections + c.amountDeltaCents;
          if c.paymentMethod == Cash { cash := cash + c.amountDeltaCents; }
          else { card := card + c.amountDeltaCents; }
        }
      case _ =>
    }
    assert entries[..|entries|] == entries;
    totals := Totals(saleCount, gross, correctionCount, corrections, gross + corrections,
                     cumulative, cash, card);
  }

  lemma {:induction false} TotalsAppend(entries: seq<Entry>, e: Entry, start: int, end: int)
    ensures Sum(entries + [e], SaleCountIn(start, end)) == Sum(entries, SaleCountIn(start, end)) + SaleCountIn(start, end)(e)
    ensures Sum(entries + [e], GrossIn(start, end)) == Sum(entries, GrossIn(start, end)) + GrossIn(start, end)(e)
    ensures Sum(entries + [e], CorrectionCountIn(start, end)) == Sum(entries, CorrectionCountIn(start, end)) + CorrectionCountIn(start, end)(e)
    ensures Sum(entries + [e], CorrectionsIn(start, end)) == Sum(entries, CorrectionsIn(start, end)) + CorrectionsIn(start, end)(e)
    ensures Sum(entries + [e], Before(end)) == Sum(entries, Before(end)) + Before(end)(e)
    ensures Sum(entries + [e], PaymentsIn(Cash, start, end)) == Sum(entries, PaymentsIn(Cash, start, end)) + PaymentsIn(Cash, start, end)(e)
    ensures Sum(entries + [e], PaymentsIn(Card, start, end)) == Sum(entries, PaymentsIn(Card, start, end)) + PaymentsIn(Card, start, end)(e)
  {
  }

  /** What is paid in this way and dated in the period. */
  predicate Pays(e: Entry, means: PaymentMethod, start: int, end: int) {
    match e.Body()
    case Sale(o) => o.paymentMethod == means && start <= o.paidAt < end
    case Correction(c) => c.paymentMethod == means && start <= e.content.recordedAt < end
    case _ => false
  }

  /** One entry more: a sale or a correction of the period changes the column of its payment method by its amount, and no other. */
  lemma {:induction false} PaymentsStep(entries: seq<Entry>, e: Entry, start: int, end: int)
    ensures var t, next := ClosureTotals(entries, start, end), ClosureTotals(entries + [e], start, end);
            var amount := if e.Body().Sale? then e.Body().order.totalCents
                          else if e.Body().Correction? then e.Body().correction.amountDeltaCents else 0;
            && next.cashCents == t.cashCents + (if Pays(e, Cash, start, end) then amount else 0)
            && next.cardCents == t.cardCents + (if Pays(e, Card, start, end) then amount else 0)
  {
    SumAppend(entries, e, PaymentsIn(Cash, start, end));
    SumAppend(entries, e, PaymentsIn(Card, start, end));
  }

  /** Totals do not depend on the order in which the store returns its entries. */
  lemma {:induction false} TotalsOrderIndependent(entries: seq<Entry>, reordered: seq<Entry>, start: int, end: int)
    requires multiset(entries) == multiset(reordered)
    ensures ClosureTotals(entries, start, end) == ClosureTotals(reordered, start, end)
  {
    SumPermutation(entries, reordered, SaleCountIn(start, end));
    SumPermutation(entries, reordered, GrossIn(start, end));
    SumPermutation(entries, reordered, CorrectionCountIn(start, end));
    SumPermutation(entries, reordered, CorrectionsIn(start, end));
    SumPermutation(entries, reordered, Before(end));
    SumPermutation(entries, reordered, PaymentsIn(Cash, start, end));
    SumPermutation(entries, reordered, PaymentsIn(Card, start, end));
  }

  /** Cash plus card is the net total, which is the sum of the amounts of the period. */
  lemma {:induction false} PaymentsAddUpToNet(entries: seq<Entry>, start: int, end: int)
    ensures var t := ClosureTotals(entries, start, end);
            t.cashCents + t.cardCents == t.netTotalCents == Sum(entries, NetIn(start, end))
  {
    SumSplit(entries, NetIn(start, end), PaymentsIn(Cash, start, end), PaymentsIn(Card, start, end));
    SumSplit(entries, NetIn(start, end), GrossIn(start, end), CorrectionsIn(start, end));
  }

  /** The cumulative total of a period is everything before its start plus its own net. */
  lemma {:induction false} CumulativeSplits(entries: seq<Entry>, start: int, end: int)
    requires start <= end
    ensures var t := ClosureTotals(entries, start, end);
            t.cumulativeNetTotalCents == Sum(entries, Before(start)) + t.netTotalCents
  {
    SumSplit(entries, Before(end), Before(start), NetIn(start, end));
    PaymentsAddUpToNet(entries, start, end);
  }

  /** Entries dated at or after the end of a period leave its totals as they were. */
  lemma {:induction false} LaterEntriesDoNotCount(entries: seq<Entry>, later: seq<Entry>, start: int, end: int)
    requires forall e :: e in later && Financial(e) ==> end <= FinancialDate(e)
    ensures ClosureTotals(entries + later, start, end) == ClosureTotals(entries, start, end)
  {
    SumTail(entries, later, SaleCountIn(start, end));
    SumTail(entries, later, GrossIn(start, end));
    SumTail(entries, later, CorrectionCountIn(start, end));
    SumTail(entries, later, CorrectionsIn(start, end));
    SumTail(entries, later, Before(end));
    SumTail(entries, later, PaymentsIn(Cash, start, end));
    SumTail(entries, later, PaymentsIn(Card, start, end));
  }

  lemma {:induction false} SumTail(entries: seq<Entry>, later: seq<Entry>, column: Entry -> int)
    requires forall e :: e in later ==> column(e) == 0
    ensures Sum(entries + later, column) == Sum(entries, column)
  {
    SumConcat(entries, later, column);
    SumZero(later, column);
  }
}
