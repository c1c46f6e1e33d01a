/**
 The stores return entries in key order; the repository sorts them by sequence where the
 order matters and folds them unsorted where it does not.
 */
module Ordering {
  import opened Ledger
  import opened Sums
  import opened Refunds
  import opened Journal

  predicate SortedBySequence(entries: seq<Entry>) {
    forall i, k :: 0 <= i < k < |entries| ==> entries[i].Sequence() <= entries[k].Sequence()
  }

  predicate Consecutive(entries: seq<Entry>) {
    forall n :: 0 <= n < |entries| ==> entries[n].Sequence() == n + 1
  }

  /** `[...entries].sort((left, right) => left.sequence - right.sequence)` */
  method SortBySequence(entries: seq<Entry>) returns (sorted: seq<Entry>)
    ensures multiset(sorted) == multiset(entries)
    ensures SortedBySequence(sorted)
  {
    sorted := [];
    for i := 0 to |entries|
      invariant multiset(sorted) == multiset(entries[..i])
      invariant SortedBySequence(sorted)
    {
      assert entries[..i + 1] == entries[..i] + [entries[i]];
      sorted := InsertBySequence(sorted, entries[i]);
    }
    assert entries[..|entries|] == entries;
  }

  method InsertBySequence(sorted: seq<Entry>, e: Entry) returns (longer: seq<Entry>)
    requires SortedBySequence(sorted)
    ensures SortedBySequence(longer)
    ensures multiset(longer) == multiset(sorted) + multiset{e}
  {
    var k := |sorted|;
    while k > 0 && sorted[k - 1].Sequence() > e.Sequence()
      invariant 0 <= k <= |sorted|
      invariant forall i :: k <= i < |sorted| ==> e.Sequence() < sorted[i].Sequence()
    {
      k := k - 1;
    }
    longer := sorted[..k] + [e] + sorted[k..];
    InsertedIsBag(sorted, k, e);
    InsertedIsSorted(sorted, k, e);
  }

  lemma {:induction false} InsertedIsBag<T>(xs: seq<T>, k: nat, x: T)
    requires k <= |xs|
    ensures multiset(xs[..k] + [x] + xs[k..]) == multiset(xs) + multiset{x}
  {
    assert xs == xs[..k] + xs[k..];
  }

  lemma {:induction false} InsertedIsSorted(sorted: seq<Entry>, k: nat, e: Entry)
    requires SortedBySequence(sorted) && k <= |sorted|
    requires k > 0 ==> sorted[k - 1].Sequence() <= e.Sequence()
    requires forall i :: k <= i < |sorted| ==> e.Sequence() < sorted[i].Sequence()
    ensures SortedBySequence(sorted[..k] + [e] + sorted[k..])
  {
  }

  /** Sorting any rearrangement of a consecutively numbered journal gives the journal back. */
  lemma {:induction false} SortRestoresJournal(sorted: seq<Entry>, journal: seq<Entry>)
    requires SortedBySequence(sorted) && Consecutive(journal) && multiset(sorted) == multiset(journal)
    ensures sorted == journal
  {
    SameElements(sorted, journal);
    if journal != [] {
      var n := |journal| - 1;
      LastIsLast(sorted, journal, n);
      RestIsBag(sorted, journal, n);
      SortRestoresJournal(sorted[..n], journal[..n]);
      assert sorted == sorted[..n] + [sorted[n]] && journal == journal[..n] + [journal[n]];
    }
  }

  lemma {:induction false} LastIsLast(sorted: seq<Entry>, journal: seq<Entry>, n: nat)
    requires SortedBySequence(sorted) && Consecutive(journal) && n + 1 == |sorted| == |journal|
    requires forall e :: e in sorted <==> e in journal
    ensures sorted[n] == journal[n]
  {
    assert journal[n] in sorted;
    var k :| 0 <= k < |sorted| && sorted[k] == journal[n];
    assert sorted[n] in journal;
    var m :| 0 <= m < |journal| && journal[m] == sorted[n];
    assert sorted[k].Sequence() <= sorted[n].Sequence() == m + 1;
  }

  lemma {:induction false} RestIsBag<T>(xs: seq<T>, ys: seq<T>, n: nat)
    requires n + 1 == |xs| == |ys| && multiset(xs) == multiset(ys) && xs[n] == ys[n]
    ensures multiset(xs[..n]) == multiset(ys[..n])
  {
    assert xs == xs[..n] + [xs[n]] && ys == ys[..n] + [ys[n]];
    assert multiset(xs[..n]) == multiset(xs) - multiset{xs[n]};
    assert multiset(ys[..n]) == multiset(ys) - multiset{ys[n]};
  }

  // ----- Prior corrections do not depend on the order of the entries -----

  function CorrectionCount(id: string, c: SaleCorrection): Entry -> int {
    (e: Entry) => if e.Body() == Correction(c) && c.originalOrderId == id then 1 else 0
  }

  lemma {:induction false} PriorCount(entries: seq<Entry>, id: string, c: SaleCorrection)
    ensures multiset(PriorCorrections(entries, id))[c] == Sum(entries, CorrectionCount(id, c))
  {
    if entries != [] {
      PriorCount(entries[..|entries| - 1], id, c);
    }
  }

  lemma {:induction false} PriorPermutes(entries: seq<Entry>, journal: seq<Entry>, id: string)
    requires multiset(entries) == multiset(journal)
    ensures multiset(PriorCorrections(entries, id)) == multiset(PriorCorrections(journal, id))
  {
    var xs, ys := multiset(PriorCorrections(entries, id)), multiset(PriorCorrections(journal, id));
    forall c ensures xs[c] == ys[c] {
      PriorCount(entries, id, c);
      PriorCount(journal, id, c);
      SumPermutation(entries, journal, CorrectionCount(id, c));
    }
  }

  lemma {:induction false} SameElements<T>(xs: seq<T>, ys: seq<T>)
    requires multiset(xs) == multiset(ys)
    ensures |xs| == |ys| && forall x :: x in xs <==> x in ys
  {
    assert |multiset(xs)| == |xs| && |multiset(ys)| == |ys|;
    forall x ensures x in xs <==> x in ys {
      assert x in multiset(xs) <==> x in xs;
      assert x in multiset(ys) <==> x in ys;
    }
  }

  /** The correction guard reads the earlier corrections as a bag. */
  lemma {:induction false} CorrectionRuleOrderIndependent(order: Order, prior: seq<SaleCorrection>, reordered: seq<SaleCorrection>, c: SaleCorrection)
    requires multiset(prior) == multiset(reordered)
    ensures CorrectionRule(order, prior, c) <==> CorrectionRule(order, reordered, c)
  {
    hide Cost, Blank, ValidLine;
    SameElements(prior, reordered);
    SumPermutation(prior, reordered, RefundAmount);
    if c.kind.Refund? && c.refundLines.Some? {
      forall line ensures ValidLine(order.items, prior, line) <==> ValidLine(order.items, reordered, line) {
        SumPermutation(prior, reordered, RefundQuantityOn(line.originalLineId));
        LineReadsQuantity(order.items, prior, reordered, line);
      }
    }
  }

  lemma {:induction false} LineReadsQuantity(items: seq<Item>, prior: seq<SaleCorrection>, other: seq<SaleCorrection>, line: RefundLine)
    requires RefundedQuantity(prior, line.originalLineId) == RefundedQuantity(other, line.originalLineId)
    ensures ValidLine(items, prior, line) <==> ValidLine(items, other, line)
  {
  }
}
