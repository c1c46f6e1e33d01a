/**
 Number tokens of section 6 of RFC 8259 and the exactness test of the strict parser
 (server/src/json.ts:67-90). Number() rounds to a double; the test below it looks at the
 decimal digits, so that no rounding can make a fraction or a huge integer acceptable.
 */
module JsonNumbers {

  const MAX_SAFE: int := 9007199254740991

  type Digits = seq<int>

  predicate AreDigits(d: Digits) { forall i :: 0 <= i < |d| ==> 0 <= d[i] <= 9 }

  function Value(d: Digits): (v: nat)
    requires AreDigits(d)
  {
    if d == [] then 0 else 10 * Value(d[..|d| - 1]) + d[|d| - 1]
  }

  function Pow10(n: nat): (p: nat)
    ensures 0 < p
  {
    if n == 0 then 1 else 10 * Pow10(n - 1)
  }

  /** `-? whole (. fraction)? (e exponent)?`; an absent fraction is empty, an absent exponent zero. */
  datatype Token = Token(negative: bool, whole: Digits, fraction: Digits, exponent: int)

  predicate IsToken(t: Token) { AreDigits(t.whole) && AreDigits(t.fraction) && t.whole != [] }

  // ----- The exact decimal value -----

  function Shift(t: Token): int { t.exponent - |t.fraction| }

  function Mantissa(t: Token): nat
    requires IsToken(t)
  {
    Value(t.whole + t.fraction)
  }

  /** mantissa * 10^shift, with its sign. */
  function Exact(t: Token): real
    requires IsToken(t)
  {
    var m := if Shift(t) >= 0 then (Mantissa(t) * Pow10(Shift(t))) as real else Mantissa(t) as real / Pow10(-Shift(t)) as real;
    if t.negative then -m else m
  }

  // ----- The test of the parser -----

  function StripZeros(d: Digits): Digits { if d != [] && d[0] == 0 then StripZeros(d[1..]) else d }

  predicate AllZero(d: Digits) { forall i :: 0 <= i < |d| ==> d[i] == 0 }

  predicate Representable(n: int) { -MAX_SAFE - 1 <= n <= MAX_SAFE + 1 }

  /** The number x is the integer n, and n is safe. */
  predicate IsSafe(x: real, n: int) { x == n as real && -MAX_SAFE <= n <= MAX_SAFE }

  /**
   Number() on exact values: integers of magnitude at most 2^53 are representable and
   rounding is monotone. Nothing else about doubles is used.
   */
  ghost predicate Faithful(round: real -> real) {
    && (forall n: int :: Representable(n) ==> round(n as real) == n as real)
    && (forall x, y :: x <= y ==> round(x) <= round(y))
  }

  predicate SafeDouble(x: real) {
    x == x.Floor as real && -(MAX_SAFE as real) <= x <= MAX_SAFE as real
  }

  /** isSafeInteger(Number(token)), then the inspection of the digits behind the point. */
  predicate Accepts(t: Token, round: real -> real)
    requires IsToken(t)
  {
    var digits, shift := StripZeros(t.whole + t.fraction), Shift(t);
    && SafeDouble(round(Exact(t)))
    && !(digits != [] && shift < 0 && (shift < -|digits| || !AllZero(digits[|digits| + shift..])))
  }

  // ----- The exact integer, when there is one -----

  predicate IsWhole(t: Token)
    requires IsToken(t)
  {
    Shift(t) >= 0 || Mantissa(t) % Pow10(-Shift(t)) == 0
  }

  function WholeValue(t: Token): int
    requires IsToken(t) && IsWhole(t)
  {
    var m := if Shift(t) >= 0 then Mantissa(t) * Pow10(Shift(t)) else Mantissa(t) / Pow10(-Shift(t));
    if t.negative then -m else m
  }

  lemma {:induction false} WholeIsExact(t: Token)
    requires IsToken(t) && IsWhole(t)
    ensures Exact(t) == WholeValue(t) as real
  {
    hide Mantissa, Pow10;
    if Shift(t) < 0 { ExactQuotient(Mantissa(t), Pow10(-Shift(t))); }
  }

  lemma {:induction false} ExactQuotient(m: nat, p: nat)
    requires 0 < p && m % p == 0
    ensures m as real / p as real == (m / p) as real
  {
    var q := m / p;
    assert m == q * p;
    assert m as real == q as real * p as real;
  }

  lemma {:induction false} QuotientIsWhole(m: nat, p: nat, n: int)
    requires 0 < p && m as real / p as real == n as real
    ensures m % p == 0
  {
    assert m as real == n as real * p as real;
    assert m == n * p;
    MultipleHasNoRest(n, p);
  }

  lemma {:induction false} MultipleHasNoRest(n: int, p: int)
    requires 0 < p && 0 <= n * p
    ensures (n * p) % p == 0
  {
    var r, d := (n * p) % p, (n * p) / p;
    assert n * p == d * p + r;
    assert (n - d) * p == r;
    SmallMultiple(n - d, p);
  }

  lemma {:induction false} SmallMultiple(x: int, p: int)
    requires 0 < p
    ensures 1 <= x ==> p <= x * p
    ensures x <= -1 ==> x * p <= -p
  {
  }

  lemma {:induction false} ExactIsWhole(t: Token, n: int)
    requires IsToken(t) && Exact(t) == n as real
    ensures IsWhole(t) && WholeValue(t) == n
  {
    if Shift(t) < 0 {
      QuotientIsWhole(Mantissa(t), Pow10(-Shift(t)), if t.negative then -n else n);
    }
    WholeIsExact(t);
  }

  // ----- The digit test decides divisibility -----

  lemma {:induction false} StrippedValue(d: Digits)
    requires AreDigits(d)
    ensures AreDigits(StripZeros(d)) && Value(StripZeros(d)) == Value(d)
    ensures StripZeros(d) == [] <==> Value(d) == 0
    ensures StripZeros(d) != [] ==> StripZeros(d)[0] != 0
  {
    if d != [] && d[0] == 0 {
      LeadingZero(d);
      StrippedValue(d[1..]);
    } else if d != [] {
      LeadingDigit(d);
    }
  }

  lemma {:induction false} LeadingZero(d: Digits)
    requires AreDigits(d) && d != [] && d[0] == 0
    ensures Value(d) == Value(d[1..])
  {
    if |d| > 1 {
      LeadingZero(d[..|d| - 1]);
      assert d[1..][..|d| - 2] == d[..|d| - 1][1..];
    } else {
      assert d[..0] == [] && d[1..] == [];
    }
  }

  lemma {:induction false} LeadingDigit(d: Digits)
    requires AreDigits(d) && d != [] && d[0] != 0
    ensures 0 < Value(d)
  {
    if |d| > 1 {
      LeadingDigit(d[..|d| - 1]);
    }
  }

  lemma {:induction false} ValueBelow(d: Digits)
    requires AreDigits(d)
    ensures Value(d) < Pow10(|d|)
  {
    if d != [] {
      ValueBelow(d[..|d| - 1]);
    }
  }

  lemma {:induction false} Pow10Grows(a: nat, b: nat)
    requires a <= b
    ensures Pow10(a) <= Pow10(b)
  {
    if a < b {
      Pow10Grows(a, b - 1);
    }
  }

  /** A number is divisible by 10^m exactly when its last m digits are zero. */
  lemma {:induction false} TrailingZeros(d: Digits, m: nat)
    requires AreDigits(d) && m <= |d|
    ensures Value(d) % Pow10(m) == 0 <==> AllZero(d[|d| - m..])
    decreases m
  {
    hide AllZero;
    if m > 0 {
      var front, last := d[..|d| - 1], d[|d| - 1];
      TrailingZeros(front, m - 1);
      TimesTen(Value(front), last, Pow10(m - 1));
      assert d[|d| - m..] == front[|front| - (m - 1)..] + [last];
      LastZero(front[|front| - (m - 1)..], last);
    } else {
      Remainder(Value(d), 1, 0);
      NoDigits(d[|d|..]);
    }
  }

  lemma {:induction false} LastZero(front: Digits, last: int)
    ensures AllZero(front + [last]) <==> AllZero(front) && last == 0
  {
    var d := front + [last];
    assert d[|front|] == last && forall i :: 0 <= i < |front| ==> d[i] == front[i];
  }

  lemma {:induction false} NoDigits(d: Digits)
    requires d == []
    ensures AllZero(d)
  {
  }

  lemma {:induction false} TimesTen(v: nat, last: int, p: nat)
    requires 0 <= last <= 9 && 0 < p
    ensures (10 * v + last) % (10 * p) == 0 <==> last == 0 && v % p == 0
  {
    var q, r := v / p, v % p;
    assert v == q * p + r;
    var rest := 10 * r + last;
    assert 10 * v + last == q * (10 * p) + rest;
    assert 0 <= rest < 10 * p;
    Remainder(q, 10 * p, rest);
  }

  lemma {:induction false} Remainder(q: int, p: int, r: int)
    requires 0 <= r < p
    ensures (q * p + r) % p == r
  {
    var x := q * p + r;
    assert x == (x / p) * p + x % p;
    assert (q - x / p) * p == x % p - r;
    SmallMultiple(q - x / p, p);
  }

  /** The inspection of the digits passes exactly on whole values. */
  lemma {:induction false} DigitTest(t: Token)
    requires IsToken(t)
    ensures var digits, shift := StripZeros(t.whole + t.fraction), Shift(t);
            IsWhole(t) <==> !(digits != [] && shift < 0 && (shift < -|digits| || !AllZero(digits[|digits| + shift..])))
  {
    var digits, shift := StripZeros(t.whole + t.fraction), Shift(t);
    StrippedValue(t.whole + t.fraction);
    if shift < 0 {
      if digits == [] {
        Remainder(0, Pow10(-shift), 0);
      } else if -shift <= |digits| {
        TrailingZeros(digits, -shift);
      } else {
        ValueBelow(digits);
        Pow10Grows(|digits|, -shift);
        Remainder(0, Pow10(-shift), Value(digits));
      }
    }
  }

  /**
   Exact acceptance: a token is accepted if and only if its exact decimal value is an
   integer of magnitude at most 2^53 - 1, whatever its digits, its exponent and the
   rounding of the values in between.
   */
  lemma {:induction false} AcceptedExactly(t: Token, round: real -> real)
    requires IsToken(t) && Faithful(round)
    ensures Accepts(t, round) <==> exists n: int :: IsSafe(Exact(t), n)
    ensures Accepts(t, round) ==> IsWhole(t) && round(Exact(t)) == WholeValue(t) as real && -MAX_SAFE <= WholeValue(t) <= MAX_SAFE
  {
    hide StripZeros, Mantissa;
    DigitTest(t);
    if IsWhole(t) {
      WholeIsExact(t);
      assert IsSafe(Exact(t), WholeValue(t)) <==> -MAX_SAFE <= WholeValue(t) <= MAX_SAFE;
      RoundedSafe(WholeValue(t), round);
    }
    if n: int :| IsSafe(Exact(t), n) {
      ExactIsWhole(t, n);
    }
  }

  lemma {:induction false} RoundedSafe(n: int, round: real -> real)
    requires Faithful(round)
    ensures SafeDouble(round(n as real)) <==> -MAX_SAFE <= n <= MAX_SAFE
    ensures -MAX_SAFE <= n <= MAX_SAFE ==> round(n as real) == n as real
  {
    var limit := MAX_SAFE + 1;
    assert Representable(limit) && Representable(-limit);
    assert Representable(n) <== -MAX_SAFE <= n <= MAX_SAFE;
    assert round(limit as real) == limit as real;
    assert round((-limit) as real) == (-limit) as real;
    if n > MAX_SAFE { assert limit as real <= n as real; }
    if n < -MAX_SAFE { assert n as real <= (-limit) as real; }
  }
}
