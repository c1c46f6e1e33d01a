/**
 Order and receipt numbers (src/services/orderRepository.ts:74-84): a prefix, a dash and
 the decimal sequence padded to four digits.
 */
module Numbers {

  function Digit(d: nat): char
    requires d < 10
  {
    "0123456789"[d]
  }

  function DigitValue(c: char): int { c as int - '0' as int }

  /** `String(n)` */
  function Decimal(n: nat): (text: string)
    ensures text != []
    ensures forall i :: 0 <= i < |text| ==> '0' <= text[i] <= '9'
  {
    if n < 10 then [Digit(n)] else Decimal(n / 10) + [Digit(n % 10)]
  }

  /** `text.padStart(width, '0')` */
  function PadStart(text: string, width: nat): (padded: string)
    ensures |padded| == if |text| < width then width else |text|
    decreases width - |text|
  {
    if |text| >= width then text else PadStart("0" + text, width)
  }

  function SequenceNumber(prefix: string, sequence: nat): string {
    prefix + "-" + PadStart(Decimal(sequence), 4)
  }

  function Value(text: string): int {
    if text == [] then 0 else 10 * Value(text[..|text| - 1]) + DigitValue(text[|text| - 1])
  }

  lemma {:induction false} ValueOfDecimal(n: nat)
    ensures Value(Decimal(n)) == n
  {
    if n < 10 {
      assert Decimal(n)[..0] == [];
    } else {
      ValueOfDecimal(n / 10);
      assert Decimal(n)[..|Decimal(n)| - 1] == Decimal(n / 10);
    }
  }

  lemma {:induction false} LeadingZero(text: string)
    ensures Value("0" + text) == Value(text)
  {
    if text == [] {
      assert ("0" + text)[..0] == [];
    } else {
      LeadingZero(text[..|text| - 1]);
      assert ("0" + text)[..|text|] == "0" + text[..|text| - 1];
    }
  }

  lemma {:induction false} PaddingKeepsValue(text: string, width: nat)
    requires forall i :: 0 <= i < |text| ==> '0' <= text[i] <= '9'
    ensures Value(PadStart(text, width)) == Value(text)
    ensures forall i :: 0 <= i < |PadStart(text, width)| ==> '0' <= PadStart(text, width)[i] <= '9'
    decreases width - |text|
  {
    if |text| < width {
      LeadingZero(text);
      PaddingKeepsValue("0" + text, width);
    }
  }

  /** The prefix, a dash, and at least four digits that read as the sequence; no more zeros before it than the four digits need. */
  predicate NumberReads(number: string, prefix: string, sequence: nat) {
    && prefix + "-" <= number && |number| >= |prefix| + 5
    && var digits := number[|prefix| + 1..];
       && (forall i :: 0 <= i < |digits| ==> '0' <= digits[i] <= '9')
       && Value(digits) == sequence
       && (|digits| > 4 ==> digits[0] != '0')
  }

  lemma {:induction false} DecimalLeads(n: nat)
    ensures |Decimal(n)| > 1 ==> Decimal(n)[0] != '0'
  {
    if n >= 10 { DecimalLeads(n / 10); }
  }

  lemma {:induction false} PaddedTo(text: string, width: nat)
    ensures |text| >= width ==> PadStart(text, width) == text
  {
  }

  lemma {:induction false} SequenceNumberReads(prefix: string, sequence: nat)
    ensures NumberReads(SequenceNumber(prefix, sequence), prefix, sequence)
  {
    hide Decimal, PadStart, Value;
    ValueOfDecimal(sequence);
    PaddingKeepsValue(Decimal(sequence), 4);
    DecimalLeads(sequence);
    PaddedTo(Decimal(sequence), 4);
    var number, digits := SequenceNumber(prefix, sequence), PadStart(Decimal(sequence), 4);
    assert number[|prefix| + 1..] == digits && number[..|prefix| + 1] == prefix + "-";
  }

  /** A number names its prefix and its sequence, however many digits the sequence has. */
  lemma {:induction false} SequenceNumberInjective(p: string, m: nat, q: string, n: nat)
    requires SequenceNumber(p, m) == SequenceNumber(q, n)
    ensures p == q && m == n
  {
    hide Decimal, PadStart, Value;
    ValueOfDecimal(m);
    ValueOfDecimal(n);
    PaddingKeepsValue(Decimal(m), 4);
    PaddingKeepsValue(Decimal(n), 4);
    LastDash(p, PadStart(Decimal(m), 4), q, PadStart(Decimal(n), 4));
  }

  lemma {:induction false} LastDash(p: string, a: string, q: string, b: string)
    requires p + "-" + a == q + "-" + b
    requires forall i :: 0 <= i < |a| ==> '0' <= a[i] <= '9'
    requires forall i :: 0 <= i < |b| ==> '0' <= b[i] <= '9'
    ensures p == q && a == b
  {
    var x, y := p + "-" + a, q + "-" + b;
    assert x[|p|] == '-' && y[|q|] == '-';
    assert forall i :: |p| < i < |x| ==> x[i] == a[i - |p| - 1] && x[i] != '-';
    assert forall i :: |q| < i < |y| ==> y[i] == b[i - |q| - 1] && y[i] != '-';
    assert |p| == |q|;
    assert x[..|p|] == p && y[..|q|] == q;
    assert x[|p| + 1..] == a && y[|q| + 1..] == b;
  }
}
