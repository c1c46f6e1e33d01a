/**
 Value-added tax included in a gross amount (src/utils/vat.ts). Amounts are whole
 cents; the quotient is rounded half up, as Math.round does on non-negative values.
 */
module Vat {

  function IncludedVat(gross: int, rate: int): int
    requires 0 <= rate
  {
    (2 * gross * rate + (100 + rate)) / (2 * (100 + rate))
  }

  /** The result is the cent nearest to gross * rate / (100 + rate), the upper one on a tie. */
  lemma {:induction false} IncludedVatIsNearest(gross: int, rate: int)
    requires 0 <= rate
    ensures var twice := 2 * (100 + rate) * IncludedVat(gross, rate) - 2 * gross * rate;
            -(100 + rate) < twice <= 100 + rate
  {
  }

  /** Taxing a larger gross adds at least nothing and at most the added gross. */
  lemma {:induction false} IncludedVatStep(gross: int, added: int, rate: int)
    requires 0 <= rate && 0 <= added
    ensures 0 <= IncludedVat(gross + added, rate) - IncludedVat(gross, rate) <= added
  {
    var d := 2 * (100 + rate);
    var n := 2 * gross * rate + (100 + rate);
    var m := 2 * (gross + added) * rate + (100 + rate);
    DivisionBounds(n, d);
    DivisionBounds(m, d);
    var extra := 2 * added * rate;
    assert m == n + extra by {
      assert 2 * (gross + added) * rate == 2 * gross * rate + 2 * added * rate;
    }
    assert 0 <= extra <= d * added by {
      assert d * added == 200 * added + extra;
    }
    QuotientBetween(n, m, d, added);
  }

  lemma {:induction false} IncludedVatBounds(gross: int, rate: int)
    requires 0 <= rate && 0 <= gross
    ensures IncludedVat(0, rate) == 0
    ensures 0 <= IncludedVat(gross, rate) <= gross
  {
    HalfRoundsToZero(100 + rate);
    IncludedVatStep(0, gross, rate);
  }

  lemma {:induction false} QuotientBetween(n: int, m: int, d: int, k: int)
    requires 0 < d && 0 <= k && n <= m
    ensures n / d <= m / d
    ensures m - n <= d * k ==> m / d <= n / d + k
  {
    DivisionBounds(n, d);
    DivisionBounds(m, d);
    Scale(d, m / d + 1, n / d);
    Scale(d, n / d + k + 1, m / d);
    assert d * (n / d + k + 1) == d * (n / d) + d * k + d;
  }

  lemma {:induction false} Scale(d: int, a: int, b: int)
    requires 0 < d
    ensures a <= b ==> d * a <= d * b
  {
  }

  lemma {:induction false} HalfRoundsToZero(h: int)
    requires 0 < h
    ensures h / (2 * h) == 0
  {
  }

  lemma {:induction false} DivisionBounds(n: int, d: int)
    requires 0 < d
    ensures d * (n / d) <= n < d * (n / d) + d
  {
  }
}
