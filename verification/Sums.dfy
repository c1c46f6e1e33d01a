/**
 Finite sums over sequences. A sum does not depend on the order of its terms,
 which is what lets a total computed over an unordered read of a store be
 compared with the same total computed over the ordered journal.
 */
module Sums {

  function Sum<T>(xs: seq<T>, f: T -> int): int {
    if xs == [] then 0 else Sum(xs[..|xs| - 1], f) + f(xs[|xs| - 1])
  }

  lemma {:induction false} SumAppend<T>(xs: seq<T>, x: T, f: T -> int)
    ensures Sum(xs + [x], f) == Sum(xs, f) + f(x)
  {
  }

  lemma {:induction false} SumConcat<T>(xs: seq<T>, ys: seq<T>, f: T -> int)
    ensures Sum(xs + ys, f) == Sum(xs, f) + Sum(ys, f)
  {
    if ys == [] {
      assert xs + ys == xs;
    } else {
      var n := |ys| - 1;
      SumConcat(xs, ys[..n], f);
      assert (xs + ys)[..|xs + ys| - 1] == xs + ys[..n];
    }
  }

  /** Taking one occurrence of a term out of a sequence takes its value out of the sum. */
  lemma {:induction false} SumTakeOut<T>(ys: seq<T>, x: T, f: T -> int) returns (rest: seq<T>)
    requires x in ys
    ensures multiset(ys) == multiset(rest) + multiset{x}
    ensures Sum(ys, f) == Sum(rest, f) + f(x)
  {
    var i :| 0 <= i < |ys| && ys[i] == x;
    var left, right := ys[..i], ys[i + 1..];
    rest := left + right;
    assert ys == left + [x] + right;
    SumConcat(left, right, f);
    SumConcat(left + [x], right, f);
    SumAppend(left, x, f);
  }

  lemma {:induction false} SumPermutation<T>(xs: seq<T>, ys: seq<T>, f: T -> int)
    requires multiset(xs) == multiset(ys)
    ensures Sum(xs, f) == Sum(ys, f)
  {
    if xs == [] {
      assert |multiset(ys)| == |ys|;
    } else {
      var n := |xs| - 1;
      assert xs == xs[..n] + [xs[n]];
      assert xs[n] in multiset(ys);
      var rest := SumTakeOut(ys, xs[n], f);
      assert multiset(xs[..n]) == multiset(xs) - multiset{xs[n]};
      SumPermutation(xs[..n], rest, f);
    }
  }

  lemma {:induction false} SumSplit<T>(xs: seq<T>, f: T -> int, g: T -> int, h: T -> int)
    requires forall x :: x in xs ==> f(x) == g(x) + h(x)
    ensures Sum(xs, f) == Sum(xs, g) + Sum(xs, h)
  {
    if xs != [] {
      SumSplit(xs[..|xs| - 1], f, g, h);
    }
  }

  lemma {:induction false} SumEqual<T>(xs: seq<T>, f: T -> int, g: T -> int)
    requires forall x :: x in xs ==> f(x) == g(x)
    ensures Sum(xs, f) == Sum(xs, g)
  {
    if xs != [] {
      SumEqual(xs[..|xs| - 1], f, g);
    }
  }

  lemma {:induction false} SumZero<T>(xs: seq<T>, f: T -> int)
    requires forall x :: x in xs ==> f(x) == 0
    ensures Sum(xs, f) == 0
  {
    if xs != [] {
      SumZero(xs[..|xs| - 1], f);
    }
  }

  lemma {:induction false} SumBounded<T>(xs: seq<T>, f: T -> int, g: T -> int)
    requires forall x :: x in xs ==> f(x) <= g(x)
    ensures Sum(xs, f) <= Sum(xs, g)
  {
    if xs != [] {
      SumBounded(xs[..|xs| - 1], f, g);
    }
  }

  lemma {:induction false} SumNonNegative<T>(xs: seq<T>, f: T -> int)
    requires forall x :: x in xs ==> 0 <= f(x)
    ensures 0 <= Sum(xs, f)
    ensures forall x :: x in xs ==> f(x) <= Sum(xs, f)
  {
    if xs != [] {
      SumNonNegative(xs[..|xs| - 1], f);
      assert xs == xs[..|xs| - 1] + [xs[|xs| - 1]];
    }
  }

  /** Prefixes of a sum of non-negative terms never exceed the whole. */
  lemma {:induction false} SumPrefixBelow<T>(xs: seq<T>, n: nat, f: T -> int)
    requires n <= |xs|
    requires forall x :: x in xs ==> 0 <= f(x)
    ensures 0 <= Sum(xs[..n], f) <= Sum(xs, f)
  {
    assert xs == xs[..n] + xs[n..];
    SumConcat(xs[..n], xs[n..], f);
    SumNonNegative(xs[..n], f);
    SumNonNegative(xs[n..], f);
  }

  /** A sequence without repeated elements and its rearrangement have the same multiset. */
  lemma {:induction false} DistinctMultiset<T>(xs: seq<T>, ys: seq<T>)
    requires forall i, j :: 0 <= i < j < |xs| ==> xs[i] != xs[j]
    requires forall i, j :: 0 <= i < j < |ys| ==> ys[i] != ys[j]
    requires forall x :: x in xs <==> x in ys
    ensures multiset(xs) == multiset(ys)
  {
    forall x ensures multiset(xs)[x] == multiset(ys)[x] {
      DistinctCount(xs, x);
      DistinctCount(ys, x);
    }
  }

  lemma {:induction false} DistinctCount<T>(xs: seq<T>, x: T)
    requires forall i, j :: 0 <= i < j < |xs| ==> xs[i] != xs[j]
    ensures multiset(xs)[x] == if x in xs then 1 else 0
  {
    if xs != [] {
      var n := |xs| - 1;
      assert xs == xs[..n] + [xs[n]];
      DistinctCount(xs[..n], x);
    }
  }
}
