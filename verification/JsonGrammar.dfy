/**
 The grammar of RFC 8259 (sections 2 to 7) as a language of spellings, and the strict parser
 against it (server/src/json.ts:5-101): it reads exactly the spellings that keep its own
 rules, each as the value it spells.
 */
module JsonGrammar {
  import opened Ledger
  import opened Json
  import opened JsonParser
  import Numbers = JsonNumbers

  // ----- Characters -----

  type Hexit = n: int | 0 <= n <= 15

  datatype Nibble = Nibble(value: Hexit, upper: bool)

  function NibbleUnit(d: Nibble): Unit {
    if d.value <= 9 then 0x30 + d.value else if d.upper then 0x41 + (d.value - 10) else 0x61 + (d.value - 10)
  }

  /** A unit as itself, as a short escape, or by its number. */
  datatype Char = Plain(unit: Unit) | Short(letter: Unit) | Hex(a: Nibble, b: Nibble, c: Nibble, d: Nibble)

  predicate IsChar(c: Char) {
    match c
    case Plain(u) => u >= 0x20 && u != 0x22 && u != 0x5C
    case Short(letter) => letter in [0x22, 0x5C, 0x2F, 0x62, 0x66, 0x6E, 0x72, 0x74]
    case Hex(_, _, _, _) => true
  }

  function CharText(c: Char): Text {
    match c
    case Plain(u) => [u]
    case Short(letter) => [0x5C, letter]
    case Hex(a, b, c, d) => [0x5C, 0x75, NibbleUnit(a), NibbleUnit(b), NibbleUnit(c), NibbleUnit(d)]
  }

  function CharUnit(c: Char): Unit {
    match c
    case Plain(u) => u
    case Short(0x62) => 0x08
    case Short(0x66) => 0x0C
    case Short(0x6E) => 0x0A
    case Short(0x72) => 0x0D
    case Short(0x74) => 0x09
    case Short(letter) => letter
    case Hex(a, b, c, d) => ((a.value * 16 + b.value) * 16 + c.value) * 16 + d.value
  }

  predicate AreChars(cs: seq<Char>) { forall i :: 0 <= i < |cs| ==> IsChar(cs[i]) }

  function CharsText(cs: seq<Char>): Text { if cs == [] then [] else CharText(cs[0]) + CharsText(cs[1..]) }

  function CharUnits(cs: seq<Char>): Text { if cs == [] then [] else [CharUnit(cs[0])] + CharUnits(cs[1..]) }

  lemma {:induction false} NibbleReads(d: Nibble)
    ensures HexValue(NibbleUnit(d)) == d.value
  {
  }

  lemma {:induction false} HexReads(c: Char, tail: Text)
    requires c.Hex?
    ensures Unescape((CharText(c) + tail)[1..]) == Done(CharUnit(c), tail)
  {
    var s := (CharText(c) + tail)[1..];
    NibbleReads(c.a);
    NibbleReads(c.b);
    NibbleReads(c.c);
    NibbleReads(c.d);
    var t := s[1..];
    assert t[0] == NibbleUnit(c.a) && t[1] == NibbleUnit(c.b) && t[2] == NibbleUnit(c.c) && t[3] == NibbleUnit(c.d);
    assert s[5..] == tail;
  }

  lemma {:induction false} ShortReads(c: Char, tail: Text)
    requires c.Short? && IsChar(c)
    ensures Unescape((CharText(c) + tail)[1..]) == Done(CharUnit(c), tail)
  {
    var s := (CharText(c) + tail)[1..];
    assert s[0] == c.letter && s[1..] == tail;
  }

  lemma {:induction false} CharReads(c: Char, tail: Text)
    requires IsChar(c)
    ensures ParseChars(CharText(c) + tail) == Prepend(CharUnit(c), ParseChars(tail))
  {
    hide Unescape;
    var s := CharText(c) + tail;
    match c
    case Plain(u) =>
      assert s[0] == u && s[1..] == tail;
    case Short(_) =>
      ShortReads(c, tail);
      assert s[0] == BACKSLASH;
    case Hex(_, _, _, _) =>
      HexReads(c, tail);
      assert s[0] == BACKSLASH;
  }

  lemma {:induction false} CharsRead(cs: seq<Char>, tail: Text)
    requires AreChars(cs)
    ensures ParseChars(CharsText(cs) + ([QUOTE] + tail)) == Done(CharUnits(cs), tail)
  {
    hide ParseChars, CharText, CharUnit, IsChar;
    var end := [QUOTE] + tail;
    if cs == [] {
      assert CharsText(cs) + end == end;
      QuoteEnds(tail);
    } else {
      CharsRead(cs[1..], tail);
      CharReads(cs[0], CharsText(cs[1..]) + end);
      assert CharsText(cs) + end == CharText(cs[0]) + (CharsText(cs[1..]) + end);
    }
  }

  lemma {:induction false} QuoteEnds(tail: Text)
    ensures ParseChars([QUOTE] + tail) == Done([], tail)
  {
    assert ([QUOTE] + tail)[0] == QUOTE && ([QUOTE] + tail)[1..] == tail;
  }

  lemma {:induction false} NibbleOf(u: Unit) returns (d: Nibble)
    requires HexValue(u) >= 0
    ensures NibbleUnit(d) == u && d.value == HexValue(u)
  {
    d := Nibble(HexValue(u), 0x41 <= u <= 0x46);
  }

  lemma {:induction false} EscapeOf(s: Text) returns (c: Char)
    requires Unescape(s).Done?
    ensures IsChar(c) && [BACKSLASH] + s == CharText(c) + Unescape(s).rest && CharUnit(c) == Unescape(s).value
  {
    if s[0] == 0x75 {
      var a := NibbleOf(s[1..][0]);
      var b := NibbleOf(s[1..][1]);
      var m := NibbleOf(s[1..][2]);
      var d := NibbleOf(s[1..][3]);
      c := Hex(a, b, m, d);
      assert s == [s[0], s[1], s[2], s[3], s[4]] + s[5..];
    } else {
      c := Short(s[0]);
      assert s == [s[0]] + s[1..];
    }
  }

  lemma {:induction false} CharOf(s: Text) returns (c: Char, rest: Text)
    requires ParseChars(s).Done? && s[0] != QUOTE
    ensures IsChar(c) && s == CharText(c) + rest && |rest| < |s|
    ensures ParseChars(rest).Done? && ParseChars(s) == Done([CharUnit(c)] + ParseChars(rest).value, ParseChars(rest).rest)
  {
    hide Unescape;
    if s[0] == BACKSLASH {
      c := EscapeOf(s[1..]);
      rest := Unescape(s[1..]).rest;
      assert s == [BACKSLASH] + s[1..];
    } else {
      c, rest := Plain(s[0]), s[1..];
      assert s == [s[0]] + s[1..];
    }
  }

  lemma {:induction false} CharsOf(s: Text) returns (cs: seq<Char>)
    requires ParseChars(s).Done?
    ensures AreChars(cs) && s == CharsText(cs) + ([QUOTE] + ParseChars(s).rest) && CharUnits(cs) == ParseChars(s).value
    decreases |s|
  {
    hide CharText, CharUnit, IsChar, ParseChars;
    NoCharsHere(s);
    if s[0] == QUOTE {
      cs := [];
      assert s == [QUOTE] + s[1..];
      QuoteEnds(s[1..]);
      assert CharsText(cs) + s == s;
    } else {
      var c, rest := CharOf(s);
      var others := CharsOf(rest);
      cs := [c] + others;
      assert cs[1..] == others;
      assert CharsText(cs) + ([QUOTE] + ParseChars(s).rest) == CharText(c) + (CharsText(others) + ([QUOTE] + ParseChars(s).rest));
    }
  }

  lemma {:induction false} NoCharsHere(s: Text)
    ensures ParseChars(s).Done? ==> s != []
  {
  }

  // ----- Numbers -----

  datatype Sign = NoSign | Plus | Minus

  datatype Exponent = Exponent(upper: bool, sign: Sign, digits: Numbers.Digits)

  datatype Numeral = Numeral(negative: bool, whole: Numbers.Digits, fraction: Numbers.Digits, exponent: Option<Exponent>)

  /** No leading zeros, and digits wherever there are to be some. */
  predicate IsNumeral(n: Numeral) {
    && Numbers.AreDigits(n.whole) && n.whole != [] && (|n.whole| > 1 ==> n.whole[0] != 0)
    && Numbers.AreDigits(n.fraction)
    && (n.exponent.Some? ==> Numbers.AreDigits(n.exponent.value.digits) && n.exponent.value.digits != [])
  }

  function DigitsText(d: Numbers.Digits): (t: Text)
    requires Numbers.AreDigits(d)
    ensures |t| == |d|
  {
    seq(|d|, i requires 0 <= i < |d| => 0x30 + d[i])
  }

  function SignText(s: Sign): Text { match s case NoSign => [] case Plus => [0x2B] case Minus => [0x2D] }

  function FractionText(d: Numbers.Digits): Text
    requires Numbers.AreDigits(d)
  {
    if d == [] then [] else [0x2E] + DigitsText(d)
  }

  function ExponentText(e: Option<Exponent>): Text
    requires e.Some? ==> Numbers.AreDigits(e.value.digits)
  {
    if e.None? then [] else [if e.value.upper then 0x45 else 0x65] + SignText(e.value.sign) + DigitsText(e.value.digits)
  }

  function NumeralText(n: Numeral): Text
    requires IsNumeral(n)
  {
    (if n.negative then [0x2D] else []) + (DigitsText(n.whole) + (FractionText(n.fraction) + ExponentText(n.exponent)))
  }

  function Power(e: Option<Exponent>): int
    requires e.Some? ==> Numbers.AreDigits(e.value.digits)
  {
    if e.None? then 0
    else
      var v: int := Numbers.Value(e.value.digits);
      if e.value.sign.Minus? then -v else v
  }

  function TokenOf(n: Numeral): (t: Numbers.Token)
    requires IsNumeral(n)
    ensures Numbers.IsToken(t)
  {
    Numbers.Token(n.negative, n.whole, n.fraction, Power(n.exponent))
  }

  /** A text that begins like this does not go on with a number. */
  predicate NotInNumber(s: Text) { s == [] || (!(0x30 <= s[0] <= 0x39) && s[0] !in [0x2E, 0x65, 0x45]) }

  lemma {:induction false} DigitsCounted(d: Numbers.Digits, s: Text)
    requires Numbers.AreDigits(d) && (s == [] || !IsDigit(s[0]))
    ensures CountDigits(DigitsText(d) + s) == |d|
  {
    var t := DigitsText(d) + s;
    if d == [] {
      assert t == s;
    } else {
      DigitsCounted(d[1..], s);
      assert t[1..] == DigitsText(d[1..]) + s;
    }
  }

  lemma {:induction false} DigitsBack(d: Numbers.Digits)
    requires Numbers.AreDigits(d)
    ensures AllDigits(DigitsText(d)) && DigitsOf(DigitsText(d)) == d
  {
  }

  lemma {:induction false} WholeReads(d: Numbers.Digits, s: Text)
    requires Numbers.AreDigits(d) && d != [] && (|d| > 1 ==> d[0] != 0) && (s == [] || !IsDigit(s[0]))
    ensures ScanWhole(DigitsText(d) + s) == Done(d, s)
  {
    var t := DigitsText(d) + s;
    DigitsCounted(d, s);
    DigitsBack(d);
    assert t[0] == 0x30 + d[0];
    assert t[..|d|] == DigitsText(d) && t[|d|..] == s;
  }

  lemma {:induction false} FractionReads(d: Numbers.Digits, s: Text)
    requires Numbers.AreDigits(d) && (s == [] || (!IsDigit(s[0]) && s[0] != 0x2E))
    ensures ScanFraction(FractionText(d) + s) == (d, s)
  {
    hide ScanFraction, CountDigits, DigitsOf, DigitsText, AllDigits, Numbers.AreDigits;
    if d == [] {
      assert [] + s == s;
      FractionScans(s, 0);
    } else {
      DigitsCounted(d, s);
      DigitsBack(d);
      var t, w := FractionText(d) + s, DigitsText(d);
      assert t == [0x2E] + (w + s);
      assert t[1..] == w + s;
      FractionScans(t, |d|);
      assert (w + s)[..|d|] == w && (w + s)[|d|..] == s;
    }
  }

  lemma {:induction false} FractionScans(s: Text, n: nat)
    requires if Starts(s, 0x2E) then n == CountDigits(s[1..]) else n == 0
    ensures ScanFraction(s) == if n == 0 then ([], s) else (DigitsOf(s[1..][..n]), s[1..][n..])
  {
    hide CountDigits, DigitsOf;
  }

  predicate HasMark(s: Text) { s != [] && (s[0] == 0x65 || s[0] == 0x45) }

  predicate HasSign(s: Text, sign: Sign) {
    match sign
    case NoSign => |s| > 1 ==> s[1] != 0x2B && s[1] != 0x2D
    case Plus => |s| > 1 && s[1] == 0x2B
    case Minus => |s| > 1 && s[1] == 0x2D
  }

  /** An exponent with digits is read after its letter and sign. */
  lemma {:induction false} ExponentScans(s: Text, sign: Sign, n: nat)
    requires HasMark(s) && HasSign(s, sign)
    requires var from := 1 + |SignText(sign)|; from <= |s| && n == CountDigits(s[from..])
    ensures var from := 1 + |SignText(sign)|;
            if n == 0 then ScanExponent(s) == (0, s)
            else
              var v: int := Numbers.Value(DigitsOf(s[from..][..n]));
              ScanExponent(s) == (if sign.Minus? then -v else v, s[from + n..])
  {
    hide DigitsOf, CountDigits, Numbers.Value;
  }

  lemma {:induction false} ExponentReads(e: Option<Exponent>, s: Text)
    requires e.Some? ==> Numbers.AreDigits(e.value.digits) && e.value.digits != []
    requires NotInNumber(s)
    ensures ScanExponent(ExponentText(e) + s) == (Power(e), s)
  {
    hide ScanExponent, CountDigits, DigitsOf, DigitsText, AllDigits, Numbers.Value, Numbers.AreDigits;
    var t := ExponentText(e) + s;
    if e.None? {
      assert t == s;
      NoExponent(s);
    } else {
      var d, w, mark := e.value.digits, DigitsText(e.value.digits), if e.value.upper then 0x45 else 0x65;
      DigitsCounted(d, s);
      DigitsBack(d);
      FirstDigit(d, s);
      assert t == [mark] + SignText(e.value.sign) + (w + s);
      assert (w + s)[..|d|] == w && (w + s)[|d|..] == s;
      ExponentAfter(mark, e.value.sign, w + s, |d|);
    }
  }

  lemma {:induction false} ExponentAfter(mark: Unit, sign: Sign, x: Text, n: nat)
    requires mark in [0x45, 0x65] && x != [] && x[0] != MINUS && x[0] != 0x2B && n == CountDigits(x) && 0 < n
    ensures var v: int := Numbers.Value(DigitsOf(x[..n]));
            ScanExponent([mark] + SignText(sign) + x) == (if sign.Minus? then -v else v, x[n..])
  {
    hide ScanExponent, CountDigits, DigitsOf, Numbers.Value;
    var t := [mark] + SignText(sign) + x;
    MarkedSign(t, sign, x);
    ExponentScans(t, sign, n);
    DropTwice(t, 1 + |SignText(sign)|, n);
  }

  lemma {:induction false} DropTwice(t: Text, a: nat, b: nat)
    requires a + b <= |t|
    ensures t[a..][b..] == t[a + b..]
  {
  }

  lemma {:induction false} MarkedSign(t: Text, sign: Sign, x: Text)
    requires t != [] && t == [t[0]] + SignText(sign) + x && x != [] && x[0] != MINUS && x[0] != 0x2B
    ensures HasSign(t, sign) && 1 + |SignText(sign)| <= |t| && t[1 + |SignText(sign)|..] == x
  {
  }

  lemma {:induction false} FirstDigit(d: Numbers.Digits, f: Text)
    requires Numbers.AreDigits(d) && d != []
    ensures var w := DigitsText(d) + f; w != [] && w[0] != MINUS && w[0] != 0x2B
  {
    assert (DigitsText(d) + f)[0] == 0x30 + d[0];
  }

  lemma {:induction false} NoExponent(s: Text)
    requires !HasMark(s)
    ensures ScanExponent(s) == (0, s)
  {
  }

  /** Every numeral, written out before anything that does not continue it, is read as its token. */
  lemma {:induction false} NumeralReads(n: Numeral, s: Text)
    requires IsNumeral(n) && NotInNumber(s)
    ensures ScanNumber(NumeralText(n) + s) == Done(TokenOf(n), s)
  {
    hide ScanWhole, ScanFraction, ScanExponent, Power, FractionText, ExponentText, DigitsText;
    var e := ExponentText(n.exponent) + s;
    var f := FractionText(n.fraction) + e;
    var w := DigitsText(n.whole) + f;
    var t := NumeralText(n) + s;
    Glue(if n.negative then [0x2D] else [], DigitsText(n.whole), FractionText(n.fraction), ExponentText(n.exponent), s);
    FirstDigit(n.whole, f);
    Signed(n.negative, w);
    Behind(n.fraction, n.exponent, s);
    WholeReads(n.whole, f);
    FractionReads(n.fraction, e);
    ExponentReads(n.exponent, s);
  }

  lemma {:induction false} Signed(negative: bool, w: Text)
    requires w != [] && w[0] != MINUS
    ensures var t := (if negative then [0x2D] else []) + w; SkipMinus(t) == w && Starts(t, MINUS) == negative
  {
    if !negative { assert [] + w == w; }
  }

  /** Neither a fraction nor an exponent, nor what follows them, begins with a digit. */
  lemma {:induction false} Behind(d: Numbers.Digits, e: Option<Exponent>, s: Text)
    requires Numbers.AreDigits(d) && (e.Some? ==> Numbers.AreDigits(e.value.digits)) && NotInNumber(s)
    ensures var x := ExponentText(e) + s; x == [] || (!IsDigit(x[0]) && x[0] != 0x2E)
    ensures var y := FractionText(d) + (ExponentText(e) + s); y == [] || !IsDigit(y[0])
  {
    hide DigitsText;
    var x := ExponentText(e) + s;
    if e.None? { assert x == s; }
    if d == [] { assert FractionText(d) + x == x; }
  }

  lemma {:induction false} DigitsFrom(s: Text, n: nat)
    requires n <= |s| && AllDigits(s[..n])
    ensures Numbers.AreDigits(DigitsOf(s[..n])) && DigitsText(DigitsOf(s[..n])) == s[..n] && s == s[..n] + s[n..]
  {
  }

  lemma {:induction false} FractionOf(s: Text)
    ensures s == FractionText(ScanFraction(s).0) + ScanFraction(s).1
  {
    var n := if Starts(s, 0x2E) then CountDigits(s[1..]) else 0;
    if n > 0 {
      DigitsFrom(s[1..], n);
      assert s == [s[0]] + s[1..];
    }
  }

  lemma {:induction false} ExponentOf(s: Text) returns (e: Option<Exponent>)
    ensures e.Some? ==> Numbers.AreDigits(e.value.digits) && e.value.digits != []
    ensures s == ExponentText(e) + ScanExponent(s).1 && Power(e) == ScanExponent(s).0
  {
    hide ScanExponent, CountDigits, DigitsOf, Numbers.Value;
    e := None;
    if !HasMark(s) {
      NoExponent(s);
    } else {
      var sign := if |s| > 1 && s[1] == 0x2B then Plus else if |s| > 1 && s[1] == 0x2D then Minus else NoSign;
      var from := 1 + |SignText(sign)|;
      var n := CountDigits(s[from..]);
      ExponentScans(s, sign, n);
      if n > 0 {
        AreCounted(s[from..]);
        DigitsFrom(s[from..], n);
        e := Some(Exponent(s[0] == 0x45, sign, DigitsOf(s[from..][..n])));
        SplitThree(s, from, n);
        MarkAndSign(s, sign);
      }
    }
  }

  lemma {:induction false} SplitThree(s: Text, from: nat, n: nat)
    requires from <= |s| && n <= |s[from..]|
    ensures s == s[..from] + s[from..][..n] + s[from + n..]
  {
  }

  lemma {:induction false} MarkAndSign(s: Text, sign: Sign)
    requires HasMark(s) && HasSign(s, sign)
    ensures s[..1 + |SignText(sign)|] == [if s[0] == 0x45 then 0x45 else 0x65] + SignText(sign)
  {
  }

  lemma {:induction false} AreCounted(s: Text)
    ensures AllDigits(s[..CountDigits(s)])
  {
  }

  /** What is read as a token was a numeral, written out. */
  lemma {:induction false} NumeralOf(s: Text) returns (n: Numeral)
    requires ScanNumber(s).Done?
    ensures IsNumeral(n) && s == NumeralText(n) + ScanNumber(s).rest && TokenOf(n) == ScanNumber(s).value
  {
    hide ScanFraction, ScanExponent, ScanWhole, Power, DigitsText, FractionText, ExponentText, Numbers.AreDigits;
    var w := SkipMinus(s);
    var f := ScanWhole(w).rest;
    var e := ScanFraction(f).1;
    var exponent := ExponentOf(e);
    n := Numeral(Starts(s, MINUS), ScanWhole(w).value, ScanFraction(f).0, exponent);
    WholeOf(w);
    FractionOf(f);
    SignOf(s);
    var a := if n.negative then [0x2D] else [];
    Glue(a, DigitsText(n.whole), FractionText(n.fraction), ExponentText(exponent), ScanExponent(e).1);
  }

  lemma {:induction false} SignOf(s: Text)
    ensures s == (if Starts(s, MINUS) then [0x2D] else []) + SkipMinus(s)
  {
  }

  lemma {:induction false} Glue(a: Text, w: Text, f: Text, e: Text, rest: Text)
    ensures a + (w + (f + (e + rest))) == a + (w + (f + e)) + rest
  {
  }

  lemma {:induction false} WholeOf(s: Text)
    requires ScanWhole(s).Done?
    ensures var d := ScanWhole(s).value; (|d| > 1 ==> d[0] != 0) && s == DigitsText(d) + ScanWhole(s).rest
  {
    var n := if s[0] == ZERO then 1 else CountDigits(s);
    DigitsFrom(s, n);
  }

  // ----- Values -----

  predicate Blanks(s: Text) { forall i :: 0 <= i < |s| ==> s[i] in [0x20, 0x09, 0x0A, 0x0D] }

  /** A value as it is written: a word, a numeral, a string, an array or an object. */
  datatype Spelling =
    | Word(word: Value)
    | Figure(numeral: Numeral, n: int)
    | Chars(chars: seq<Char>)
    | List(inside: Text, items: seq<Placed>)
    | Record(inside: Text, members: seq<Field>)

  /** With the blanks around it. */
  datatype Placed = Placed(before: Text, core: Spelling, after: Text)

  datatype Field = Field(before: Text, key: seq<Char>, gap: Text, value: Placed)

  /**
   What the parser keeps to: no text with a NUL or half a surrogate pair, no number but the
   integers of magnitude below 2^53, no key twice in an object, no nesting deeper than 64.
   */
  predicate Fine(s: Spelling, depth: int)
    decreases s, 2
  {
    && depth <= 64
    && match s
       case Word(v) => v.Null? || v.Bool?
       case Figure(m, n) => IsNumeral(m) && Numbers.Exact(TokenOf(m)) == n as real && -9007199254740991 <= n <= 9007199254740991
       case Chars(cs) => FineText(cs)
       case List(inside, items) => Blanks(inside) && (items != [] ==> inside == []) && FineItems(items, depth + 1)
       case Record(inside, members) =>
         Blanks(inside) && (members != [] ==> inside == []) && FineMembers(members, depth + 1) && DistinctKeys(members, {})
  }

  predicate FineText(cs: seq<Char>) { AreChars(cs) && WellFormedText(CharUnits(cs)) }

  predicate FinePlaced(p: Placed, depth: int)
    decreases p, 3
  {
    Blanks(p.before) && Blanks(p.after) && Fine(p.core, depth)
  }

  predicate FineItems(items: seq<Placed>, depth: int)
    decreases items, 0
  {
    items == [] || (FinePlaced(items[0], depth) && FineItems(items[1..], depth))
  }

  predicate FineField(m: Field, depth: int)
    decreases m, 1
  {
    Blanks(m.before) && FineText(m.key) && Blanks(m.gap) && FinePlaced(m.value, depth)
  }

  predicate FineMembers(members: seq<Field>, depth: int)
    decreases members, 0
  {
    members == [] || (FineField(members[0], depth) && FineMembers(members[1..], depth))
  }

  /** No key twice, and none of the given ones. */
  predicate DistinctKeys(members: seq<Field>, keys: set<Text>) {
    members == [] ||
    (CharUnits(members[0].key) !in keys && DistinctKeys(members[1..], keys + {CharUnits(members[0].key)}))
  }

  function CoreText(s: Spelling): Text
    decreases s, 2
  {
    match s
    case Word(v) =>
      if v.Null? then [0x6E, 0x75, 0x6C, 0x6C]
      else if v == Bool(true) then [0x74, 0x72, 0x75, 0x65] else [0x66, 0x61, 0x6C, 0x73, 0x65]
    case Figure(m, _) => if IsNumeral(m) then NumeralText(m) else []
    case Chars(cs) => [0x22] + (CharsText(cs) + [0x22])
    case List(inside, items) => [0x5B] + (inside + (ItemsText(items) + [0x5D]))
    case Record(inside, members) => [0x7B] + (inside + (MembersText(members) + [0x7D]))
  }

  function PlacedText(p: Placed): Text
    decreases p, 3
  {
    p.before + (CoreText(p.core) + p.after)
  }

  function ItemsText(items: seq<Placed>): Text
    decreases items, 0
  {
    if items == [] then []
    else if |items| == 1 then PlacedText(items[0])
    else PlacedText(items[0]) + ([0x2C] + ItemsText(items[1..]))
  }

  function FieldText(m: Field): Text
    decreases m, 1
  {
    m.before + ([0x22] + (CharsText(m.key) + ([0x22] + (m.gap + ([0x3A] + PlacedText(m.value))))))
  }

  function MembersText(members: seq<Field>): Text
    decreases members, 0
  {
    if members == [] then []
    else if |members| == 1 then FieldText(members[0])
    else FieldText(members[0]) + ([0x2C] + MembersText(members[1..]))
  }

  /** The value that is spelled. */
  function Reading(s: Spelling): Value
    decreases s, 2
  {
    match s
    case Word(v) => v
    case Figure(_, n) => Number(n)
    case Chars(cs) => String(CharUnits(cs))
    case List(_, items) => Array(Readings(items))
    case Record(_, members) => Object(FieldReadings(members))
  }

  function Readings(items: seq<Placed>): seq<Value>
    decreases items, 0
  {
    if items == [] then [] else [ReadingAt(items[0])] + Readings(items[1..])
  }

  function ReadingAt(p: Placed): Value
    decreases p, 3
  {
    Reading(p.core)
  }

  function FieldReadings(members: seq<Field>): seq<(Text, Value)>
    decreases members, 0
  {
    if members == [] then [] else [FieldReading(members[0])] + FieldReadings(members[1..])
  }

  function FieldReading(m: Field): (Text, Value)
    decreases m, 1
  {
    (CharUnits(m.key), ReadingAt(m.value))
  }

  // ----- Every spelling is read -----

  /** What may follow a value: nothing, a blank, a comma or a closing bracket. */
  predicate Ends(s: Text) { s == [] || s[0] in [0x20, 0x09, 0x0A, 0x0D, 0x2C, 0x5D, 0x7D] }

  lemma {:induction false} BlanksSkipped(b: Text, s: Text)
    requires Blanks(b)
    ensures Skip(b + s) == Skip(s)
  {
    if b == [] {
      assert b + s == s;
    } else {
      assert (b + s)[0] == b[0] && (b + s)[1..] == b[1..] + s;
      BlanksSkipped(b[1..], s);
    }
  }

  lemma {:induction false} NothingSkipped(s: Text)
    requires s != [] && s[0] !in [0x20, 0x09, 0x0A, 0x0D]
    ensures Skip(s) == s
  {
  }

  /** How a value begins. */
  predicate Begins(s: Text) {
    s != [] && (s[0] in [0x22, 0x2D, 0x5B, 0x66, 0x6E, 0x74, 0x7B] || 0x30 <= s[0] <= 0x39)
  }

  lemma {:induction false} CoreBegins(s: Spelling, depth: int)
    requires Fine(s, depth)
    ensures Begins(CoreText(s))
    ensures s.Figure? ==> CoreText(s)[0] == 0x2D || 0x30 <= CoreText(s)[0] <= 0x39
  {
    if s.Figure? {
      var m := s.numeral;
      assert DigitsText(m.whole)[0] == 0x30 + m.whole[0];
    }
  }

  lemma {:induction false} WordReads(v: Value, tail: Text)
    requires v.Null? || v.Bool?
    ensures ParseLiteral(CoreText(Word(v)) + tail) == Done(v, tail)
  {
    var t := CoreText(Word(v)) + tail;
    assert t[|CoreText(Word(v))|..] == tail;
    if v == Bool(false) { assert t[0] != TRUE[0]; }
    if v.Null? { assert t[0] != TRUE[0] && t[0] != FALSE[0]; }
  }

  lemma {:induction false} FigureReads(m: Numeral, n: int, tail: Text, depth: int)
    requires Fine(Figure(m, n), depth) && Ends(tail)
    ensures ParseLiteral(CoreText(Figure(m, n)) + tail) == Done(Number(n), tail)
  {
    hide ScanNumber, NumeralText, Numbers.Exact, Numbers.IsWhole, Numbers.WholeValue;
    var t := NumeralText(m) + tail;
    CoreBegins(Figure(m, n), depth);
    assert t[0] == NumeralText(m)[0];
    assert t[0] != TRUE[0] && t[0] != FALSE[0] && t[0] != NULL[0];
    NumeralReads(m, tail);
    Numbers.ExactIsWhole(TokenOf(m), n);
  }

  lemma {:induction false} TextReads(cs: seq<Char>, tail: Text)
    requires FineText(cs)
    ensures ParseString([0x22] + (CharsText(cs) + ([0x22] + tail))) == Done(CharUnits(cs), tail)
  {
    CharsRead(cs, tail);
    var t := [0x22] + (CharsText(cs) + ([0x22] + tail));
    assert t[1..] == CharsText(cs) + ([QUOTE] + tail);
  }

  // One step of the parsing functions at a time.

  lemma {:induction false} LiteralStep(s: Text, depth: int)
    requires depth <= 64 && Begins(Skip(s)) && Skip(s)[0] !in [0x22, 0x5B, 0x7B]
    ensures ParseValue(s, depth) == ParseLiteral(Skip(s))
  {
    hide ParseLiteral, ParseItems, ParseMembers, ParseString, Skip;
  }

  lemma {:induction false} StringStep(s: Text, depth: int, text: Text, rest: Text)
    requires depth <= 64 && Starts(Skip(s), 0x22) && ParseString(Skip(s)) == Done(text, rest)
    ensures ParseValue(s, depth) == Done(String(text), rest)
  {
    hide ParseLiteral, ParseItems, ParseMembers, ParseString, Skip;
  }

  lemma {:induction false} ArrayStep(s: Text, depth: int, inner: Text)
    requires depth <= 64 && Skip(s) == [0x5B] + inner
    ensures var u := Skip(inner);
            ParseValue(s, depth) ==
              if Starts(u, CLOSE_ARRAY) then Done(Array([]), u[1..])
              else match ParseItems(u, depth + 1) case Fail => Fail case Done(items, rest) => Done(Array(items), rest)
  {
    hide ParseLiteral, ParseItems, ParseMembers, ParseString, Skip;
    assert Skip(s)[1..] == inner;
  }

  lemma {:induction false} ObjectStep(s: Text, depth: int, inner: Text)
    requires depth <= 64 && Skip(s) == [0x7B] + inner
    ensures var u := Skip(inner);
            ParseValue(s, depth) ==
              if Starts(u, CLOSE_OBJECT) then Done(Object([]), u[1..])
              else match ParseMembers(u, depth + 1, {}) case Fail => Fail case Done(members, rest) => Done(Object(members), rest)
  {
    hide ParseLiteral, ParseItems, ParseMembers, ParseString, Skip;
    assert Skip(s)[1..] == inner;
  }

  lemma {:induction false} ItemsStep(u: Text, depth: int, v: Value, rest: Text, x: Text)
    requires ParseValue(u, depth) == Done(v, rest) && Skip(rest) == x
    ensures Starts(x, 0x5D) ==> ParseItems(u, depth) == Done([v], x[1..])
    ensures Starts(x, 0x2C) ==>
              ParseItems(u, depth) ==
                match ParseItems(Skip(x[1..]), depth) case Fail => Fail case Done(items, more) => Done([v] + items, more)
  {
    hide ParseValue, Skip;
  }

  lemma {:induction false} MemberStep(u: Text, depth: int, keys: set<Text>, key: Text, rest: Text, colon: Text)
    requires ParseString(u) == Done(key, rest) && Skip(rest) == colon && Starts(colon, 0x3A) && key !in keys
    ensures ParseMember(u, depth, keys) == match ParseValue(colon[1..], depth) case Fail => Fail case Done(v, more) => Done((key, v), more)
  {
    hide ParseValue, ParseString, Skip;
  }

  lemma {:induction false} TextCoreReads(raw: Text, cs: seq<Char>, tail: Text, depth: int)
    requires FineText(cs) && depth <= 64 && Skip(raw) == CoreText(Chars(cs)) + tail
    ensures ParseValue(raw, depth) == Done(String(CharUnits(cs)), tail)
  {
    hide ParseValue, ParseString, Skip, CharsText, CharUnits, FineText;
    TextReads(cs, tail);
    assert CoreText(Chars(cs)) + tail == [0x22] + (CharsText(cs) + ([0x22] + tail));
    StringStep(raw, depth, CharUnits(cs), tail);
  }

  lemma {:induction false} ListCoreReads(raw: Text, inside: Text, items: seq<Placed>, tail: Text, depth: int)
    requires Fine(List(inside, items), depth) && Skip(raw) == CoreText(List(inside, items)) + tail
    ensures ParseValue(raw, depth) == Done(Array(Readings(items)), tail)
    decreases items, 2
  {
    hide ParseValue, ParseItems, Skip, FineItems, ItemsText;
    ListReads(inside, items, tail, depth);
    var inner := inside + (ItemsText(items) + ([0x5D] + tail));
    assert CoreText(List(inside, items)) + tail == [0x5B] + inner;
    ArrayStep(raw, depth, inner);
    if items == [] { assert ([0x5D] + tail)[1..] == tail; }
  }

  lemma {:induction false} RecordCoreReads(raw: Text, inside: Text, members: seq<Field>, tail: Text, depth: int)
    requires Fine(Record(inside, members), depth) && Skip(raw) == CoreText(Record(inside, members)) + tail
    ensures ParseValue(raw, depth) == Done(Object(FieldReadings(members)), tail)
    decreases members, 2
  {
    hide ParseValue, ParseMembers, Skip, FineMembers, MembersText, DistinctKeys;
    RecordReads(inside, members, tail, depth);
    var inner := inside + (MembersText(members) + ([0x7D] + tail));
    assert CoreText(Record(inside, members)) + tail == [0x7B] + inner;
    ObjectStep(raw, depth, inner);
    if members == [] { assert ([0x7D] + tail)[1..] == tail; }
  }

  lemma {:induction false} LiteralCoreReads(raw: Text, s: Spelling, tail: Text, depth: int)
    requires (s.Word? || s.Figure?) && Fine(s, depth) && Ends(tail) && Skip(raw) == CoreText(s) + tail
    ensures ParseValue(raw, depth) == Done(Reading(s), tail)
  {
    hide ParseValue, ParseLiteral, Skip, NumeralText, Numbers.Exact;
    var t := CoreText(s) + tail;
    CoreBegins(s, depth);
    assert t[0] == CoreText(s)[0];
    if s.Word? { WordReads(s.word, tail); } else { FigureReads(s.numeral, s.n, tail, depth); }
    LiteralStep(raw, depth);
  }

  /** A spelling, after blanks and before what may follow it, is read as its value. */
  lemma {:induction false} CoreReads(before: Text, s: Spelling, tail: Text, depth: int)
    requires Blanks(before) && Fine(s, depth) && Ends(tail)
    ensures ParseValue(before + (CoreText(s) + tail), depth) == Done(Reading(s), tail)
    decreases s, 2
  {
    hide ParseValue, Skip, CoreText, Begins, FineItems, FineMembers, DistinctKeys, FineText, Ends, Numbers.Exact, IsNumeral;
    var raw := before + (CoreText(s) + tail);
    SpellingBegins(s, tail, depth);
    BlanksSkipped(before, CoreText(s) + tail);
    match s {
      case Word(_) => LiteralCoreReads(raw, s, tail, depth);
      case Figure(_, _) => LiteralCoreReads(raw, s, tail, depth);
      case Chars(cs) => TextCoreReads(raw, cs, tail, depth);
      case List(inside, items) => ListCoreReads(raw, inside, items, tail, depth);
      case Record(inside, members) => RecordCoreReads(raw, inside, members, tail, depth);
    }
  }

  lemma {:induction false} SpellingBegins(s: Spelling, tail: Text, depth: int)
    requires Fine(s, depth)
    ensures Skip(CoreText(s) + tail) == CoreText(s) + tail
  {
    hide Skip, CoreText, Fine;
    var t := CoreText(s) + tail;
    CoreBegins(s, depth);
    assert t[0] == CoreText(s)[0];
    NothingSkipped(t);
  }

  lemma {:induction false} ListReads(inside: Text, items: seq<Placed>, tail: Text, depth: int)
    requires Fine(List(inside, items), depth)
    ensures var u := Skip(inside + (ItemsText(items) + ([0x5D] + tail)));
            if items == [] then u == [0x5D] + tail
            else !Starts(u, CLOSE_ARRAY) && ParseItems(u, depth + 1) == Done(Readings(items), tail)
    decreases items, 1
  {
    hide ParseItems, Skip, FineItems, Readings;
    var closed := [0x5D] + tail;
    BlanksSkipped(inside, ItemsText(items) + closed);
    if items == [] {
      assert ItemsText(items) + closed == closed;
      NothingSkipped(closed);
    } else {
      ItemsRead(items, tail, depth + 1);
    }
  }

  lemma {:induction false} RecordReads(inside: Text, members: seq<Field>, tail: Text, depth: int)
    requires Fine(Record(inside, members), depth)
    ensures var u := Skip(inside + (MembersText(members) + ([0x7D] + tail)));
            if members == [] then u == [0x7D] + tail
            else !Starts(u, CLOSE_OBJECT) && ParseMembers(u, depth + 1, {}) == Done(FieldReadings(members), tail)
    decreases members, 1
  {
    hide ParseMembers, Skip, FineMembers, FieldReadings, DistinctKeys;
    var closed := [0x7D] + tail;
    BlanksSkipped(inside, MembersText(members) + closed);
    if members == [] {
      assert MembersText(members) + closed == closed;
      NothingSkipped(closed);
    } else {
      FieldsRead(members, {}, tail, depth + 1);
    }
  }

  lemma {:induction false} AfterEnds(after: Text, s: Text)
    requires Blanks(after) && Ends(s)
    ensures Ends(after + s)
  {
    if after == [] { assert after + s == s; }
  }

  /** What stands behind an item: the closing bracket, or a comma and the next items. */
  function AfterItem(others: seq<Placed>, closed: Text): Text {
    if others == [] then closed else [0x2C] + (ItemsText(others) + closed)
  }

  lemma {:induction false} ItemsAre(items: seq<Placed>, closed: Text)
    requires items != []
    ensures ItemsText(items) + closed == items[0].before + (CoreText(items[0].core) + (items[0].after + AfterItem(items[1..], closed)))
  {
    hide CoreText;
  }

  lemma {:induction false} ItemsRead(items: seq<Placed>, tail: Text, depth: int)
    requires items != [] && FineItems(items, depth)
    ensures var u := Skip(ItemsText(items) + ([0x5D] + tail));
            !Starts(u, CLOSE_ARRAY) && ParseItems(u, depth) == Done(Readings(items), tail)
    decreases items, 0
  {
    hide ParseValue, ParseItems, Skip, Fine, CoreText, Reading, ItemsText;
    var p, others := items[0], items[1..];
    var closed := [0x5D] + tail;
    var x := AfterItem(others, closed);
    ItemsAre(items, closed);
    var u := CoreText(p.core) + (p.after + x);
    CoreBegins(p.core, depth);
    assert u[0] == CoreText(p.core)[0];
    BlanksSkipped(p.before, u);
    NothingSkipped(u);
    AfterEnds(p.after, x);
    CoreReads([], p.core, p.after + x, depth);
    assert [] + u == u;
    BlanksSkipped(p.after, x);
    NothingSkipped(x);
    ItemsStep(u, depth, Reading(p.core), p.after + x, x);
    if others == [] {
      assert x[1..] == tail && Readings(items) == [Reading(p.core)];
    } else {
      assert x[1..] == ItemsText(others) + closed;
      ItemsRead(others, tail, depth);
    }
  }

  lemma {:induction false} FieldIs(m: Field, x: Text)
    ensures FieldText(m) + x
         == m.before + ([0x22] + (CharsText(m.key) + ([0x22] + (m.gap + ([0x3A] + (m.value.before + (CoreText(m.value.core) + (m.value.after + x))))))))
  {
    hide CoreText, CharsText;
  }

  lemma {:induction false} FieldReads(m: Field, keys: set<Text>, x: Text, depth: int)
    requires FineField(m, depth) && CharUnits(m.key) !in keys && Ends(x)
    ensures var u := Skip(FieldText(m) + x);
            !Starts(u, CLOSE_OBJECT) && ParseMember(u, depth, keys) == Done(FieldReading(m), m.value.after + x)
    decreases m, 1
  {
    hide ParseValue, ParseMember, ParseString, Skip, Fine, CoreText, Reading, WellFormedText, FieldText, CharsText, CharUnits;
    var p := m.value;
    var body := p.before + (CoreText(p.core) + (p.after + x));
    var colon := [0x3A] + body;
    var u := [0x22] + (CharsText(m.key) + ([0x22] + (m.gap + colon)));
    FieldIs(m, x);
    BlanksSkipped(m.before, u);
    NothingSkipped(u);
    TextReads(m.key, m.gap + colon);
    BlanksSkipped(m.gap, colon);
    NothingSkipped(colon);
    assert colon[1..] == body;
    AfterEnds(p.after, x);
    CoreReads(p.before, p.core, p.after + x, depth);
    MemberStep(u, depth, keys, CharUnits(m.key), m.gap + colon, colon);
  }

  lemma {:induction false} FieldsRead(members: seq<Field>, keys: set<Text>, tail: Text, depth: int)
    requires members != [] && FineMembers(members, depth) && DistinctKeys(members, keys)
    ensures var u := Skip(MembersText(members) + ([0x7D] + tail));
            !Starts(u, CLOSE_OBJECT) && ParseMembers(u, depth, keys) == Done(FieldReadings(members), tail)
    decreases members, 0
  {
    hide ParseMember, Skip, Fine, FieldText, Reading, FineText;
    var m, others := members[0], members[1..];
    var closed := [0x7D] + tail;
    var x := if others == [] then closed else [0x2C] + (MembersText(others) + closed);
    assert MembersText(members) + closed == FieldText(m) + x;
    FieldReads(m, keys, x, depth);
    BlanksSkipped(m.value.after, x);
    NothingSkipped(x);
    if others == [] {
      assert x[1..] == tail && FieldReadings(members) == [FieldReading(m)];
    } else {
      assert x[1..] == MembersText(others) + closed;
      FieldsRead(others, keys + {CharUnits(m.key)}, tail, depth);
    }
  }

  // ----- What is read was spelled -----

  lemma {:induction false} BlanksOf(s: Text) returns (b: Text)
    ensures Blanks(b) && s == b + Skip(s)
  {
    if s != [] && IsSpace(s[0]) {
      var others := BlanksOf(s[1..]);
      b := [s[0]] + others;
      assert s == [s[0]] + s[1..];
    } else {
      b := [];
      assert [] + s == s;
    }
  }

  lemma {:induction false} TextOf(s: Text) returns (cs: seq<Char>)
    requires ParseString(s).Done?
    ensures FineText(cs) && s == [0x22] + (CharsText(cs) + ([0x22] + ParseString(s).rest)) && CharUnits(cs) == ParseString(s).value
  {
    hide ParseChars, WellFormedText, CharsText, CharUnits;
    cs := CharsOf(s[1..]);
    assert s == [0x22] + s[1..];
  }

  lemma {:induction false} FigureOf(s: Text) returns (c: Spelling)
    requires ParseNumber(s).Done?
    ensures Fine(c, 0) && c.Figure? && s == CoreText(c) + ParseNumber(s).rest && Reading(c) == ParseNumber(s).value
  {
    hide ScanNumber, NumeralText, Numbers.IsWhole, Numbers.WholeValue, Numbers.Exact;
    var m := NumeralOf(s);
    Numbers.WholeIsExact(TokenOf(m));
    c := Figure(m, Numbers.WholeValue(TokenOf(m)));
  }

  lemma {:induction false} LiteralOf(s: Text) returns (c: Spelling)
    requires ParseLiteral(s).Done?
    ensures (c.Word? || c.Figure?) && Fine(c, 0) && s == CoreText(c) + ParseLiteral(s).rest && Reading(c) == ParseLiteral(s).value
  {
    hide ParseNumber, NumeralText, Numbers.Exact;
    if TRUE <= s {
      c := Word(Bool(true));
    } else if FALSE <= s {
      c := Word(Bool(false));
    } else if NULL <= s {
      c := Word(Null);
    } else {
      c := FigureOf(s);
    }
  }

  lemma {:induction false} AnyDepth(c: Spelling, depth: int)
    requires (c.Word? || c.Figure?) && Fine(c, 0) && depth <= 64
    ensures Fine(c, depth)
  {
  }

  lemma {:induction false} NoValueHere(s: Text, depth: int)
    requires ParseValue(s, depth).Done?
    ensures depth <= 64 && Skip(s) != []
  {
    hide ParseItems, ParseMembers, ParseLiteral, ParseString, Skip;
  }

  /** A value that was read was spelled there. */
  lemma {:induction false} SpellingOf(s: Text, depth: int) returns (p: Placed)
    requires ParseValue(s, depth).Done?
    ensures FinePlaced(p, depth) && p.after == [] && s == p.before + (CoreText(p.core) + ParseValue(s, depth).rest)
    ensures Reading(p.core) == ParseValue(s, depth).value
    decreases |s|, 3
  {
    hide ParseItems, ParseMembers, ParseLiteral, ParseString, ParseValue, Skip, CoreText, Fine;
    var before := BlanksOf(s);
    var t := Skip(s);
    NoValueHere(s, depth);
    var core;
    if t[0] == QUOTE {
      core := StringAt(s, depth);
    } else if t[0] == OPEN_ARRAY {
      core := ListAt(s, depth);
    } else if t[0] == OPEN_OBJECT {
      core := RecordAt(s, depth);
    } else {
      core := LiteralAt(s, depth);
    }
    p := Placed(before, core, []);
  }

  lemma {:induction false} StringAt(s: Text, depth: int) returns (c: Spelling)
    requires ParseValue(s, depth).Done? && Starts(Skip(s), QUOTE)
    ensures Fine(c, depth) && Skip(s) == CoreText(c) + ParseValue(s, depth).rest && Reading(c) == ParseValue(s, depth).value
  {
    hide ParseItems, ParseMembers, ParseLiteral, ParseString, Skip;
    var cs := TextOf(Skip(s));
    c := Chars(cs);
  }

  lemma {:induction false} LiteralAt(s: Text, depth: int) returns (c: Spelling)
    requires ParseValue(s, depth).Done? && Skip(s) != [] && Skip(s)[0] !in [QUOTE, OPEN_ARRAY, OPEN_OBJECT]
    ensures Fine(c, depth) && Skip(s) == CoreText(c) + ParseValue(s, depth).rest && Reading(c) == ParseValue(s, depth).value
  {
    hide ParseItems, ParseMembers, ParseLiteral, ParseString, Skip, CoreText, Reading, Fine;
    c := LiteralOf(Skip(s));
    AnyDepth(c, depth);
  }

  lemma {:induction false} ListAt(s: Text, depth: int) returns (c: Spelling)
    requires ParseValue(s, depth).Done? && Starts(Skip(s), OPEN_ARRAY)
    ensures Fine(c, depth) && Skip(s) == CoreText(c) + ParseValue(s, depth).rest && Reading(c) == ParseValue(s, depth).value
    decreases |s|, 2
  {
    hide ParseItems, ParseMembers, ParseLiteral, ParseString, ParseValue, Skip, FineItems, ItemsText, Readings, CoreText, Fine, Reading;
    NoValueHere(s, depth);
    var inner, rest := Skip(s)[1..], ParseValue(s, depth).rest;
    assert Skip(s) == [0x5B] + inner;
    ArrayStep(s, depth, inner);
    if Starts(Skip(inner), CLOSE_ARRAY) {
      var inside := BlanksOf(inner);
      c := List(inside, []);
      NoItems(depth + 1);
      ListCore(inside, [], rest, depth);
      assert Skip(inner) == [0x5D] + Skip(inner)[1..];
      assert [] + ([0x5D] + rest) == [0x5D] + rest;
    } else {
      SkipShorter(s);
      var items := ItemsOf(inner, depth + 1);
      c := List([], items);
      ListCore([], items, rest, depth);
      assert [] + (ItemsText(items) + ([0x5D] + rest)) == ItemsText(items) + ([0x5D] + rest);
    }
  }

  lemma {:induction false} NoItems(depth: int)
    ensures ItemsText([]) == [] && MembersText([]) == [] && FineItems([], depth) && FineMembers([], depth) && DistinctKeys([], {})
    ensures Readings([]) == [] && FieldReadings([]) == []
  {
  }

  lemma {:induction false} SkipShorter(s: Text)
    ensures |Skip(s)| <= |s|
  {
  }

  lemma {:induction false} RecordAt(s: Text, depth: int) returns (c: Spelling)
    requires ParseValue(s, depth).Done? && Starts(Skip(s), OPEN_OBJECT)
    ensures Fine(c, depth) && Skip(s) == CoreText(c) + ParseValue(s, depth).rest && Reading(c) == ParseValue(s, depth).value
    decreases |s|, 2
  {
    hide ParseItems, ParseMembers, ParseLiteral, ParseString, ParseValue, Skip, FineMembers, MembersText, FieldReadings, DistinctKeys,
         CoreText, Fine, Reading;
    NoValueHere(s, depth);
    var inner, rest := Skip(s)[1..], ParseValue(s, depth).rest;
    assert Skip(s) == [0x7B] + inner;
    ObjectStep(s, depth, inner);
    if Starts(Skip(inner), CLOSE_OBJECT) {
      var inside := BlanksOf(inner);
      c := Record(inside, []);
      NoItems(depth + 1);
      RecordCore(inside, [], rest, depth);
      assert Skip(inner) == [0x7D] + Skip(inner)[1..];
      assert [] + ([0x7D] + rest) == [0x7D] + rest;
    } else {
      SkipShorter(s);
      var members := FieldsOf(inner, depth + 1, {});
      c := Record([], members);
      RecordCore([], members, rest, depth);
      assert [] + (MembersText(members) + ([0x7D] + rest)) == MembersText(members) + ([0x7D] + rest);
    }
  }

  lemma {:induction false} RecordCore(inside: Text, members: seq<Field>, rest: Text, depth: int)
    requires Blanks(inside) && (members != [] ==> inside == []) && depth <= 64
    requires FineMembers(members, depth + 1) && DistinctKeys(members, {})
    ensures var c := Record(inside, members);
            && Fine(c, depth) && Reading(c) == Object(FieldReadings(members))
            && CoreText(c) + rest == [0x7B] + (inside + (MembersText(members) + ([0x7D] + rest)))
  {
    hide FineMembers, MembersText, FieldReadings, DistinctKeys;
  }

  lemma {:induction false} ListCore(inside: Text, items: seq<Placed>, rest: Text, depth: int)
    requires Blanks(inside) && (items != [] ==> inside == []) && depth <= 64 && FineItems(items, depth + 1)
    ensures var c := List(inside, items);
            && Fine(c, depth) && Reading(c) == Array(Readings(items))
            && CoreText(c) + rest == [0x5B] + (inside + (ItemsText(items) + ([0x5D] + rest)))
  {
    hide FineItems, ItemsText, Readings;
  }

  lemma {:induction false} ItemsOf(s: Text, depth: int) returns (items: seq<Placed>)
    requires ParseItems(Skip(s), depth).Done?
    ensures items != [] && FineItems(items, depth) && s == ItemsText(items) + ([0x5D] + ParseItems(Skip(s), depth).rest)
    ensures Readings(items) == ParseItems(Skip(s), depth).value
    decreases |s|, 5
  {
    hide ParseValue, Skip, Fine, Reading, PlacedText, ItemsText, FinePlaced, FineItems, Readings;
    var u := Skip(s);
    SkipShorter(s);
    var placed := ItemOf(s, depth);
    var rest := ParseValue(u, depth).rest;
    var x := Skip(rest);
    if Starts(x, CLOSE_ARRAY) {
      items := [placed];
      NoItems(depth);
      assert [placed] + [] == [placed];
      JoinedItems(placed, [], depth);
      assert x == [0x5D] + x[1..];
    } else {
      assert x == [0x2C] + x[1..];
      SkipShorter(rest);
      var others := ItemsOf(x[1..], depth);
      items := [placed] + others;
      JoinedItems(placed, others, depth);
      Joined(PlacedText(placed), ItemsText(others), [0x5D] + ParseItems(u, depth).rest);
    }
  }

  lemma {:induction false} Joined(a: Text, b: Text, c: Text)
    ensures a + ([0x2C] + b) + c == a + ([0x2C] + (b + c))
  {
  }

  lemma {:induction false} ItemOf(s: Text, depth: int) returns (placed: Placed)
    requires ParseValue(Skip(s), depth).Done?
    ensures FinePlaced(placed, depth) && ReadingAt(placed) == ParseValue(Skip(s), depth).value
    ensures s == PlacedText(placed) + Skip(ParseValue(Skip(s), depth).rest)
    decreases |s|, 4
  {
    hide ParseValue, Skip, CoreText, Fine, Reading;
    SkipShorter(s);
    var b := BlanksOf(s);
    var p := SpellingOf(Skip(s), depth);
    var after := BlanksOf(ParseValue(Skip(s), depth).rest);
    placed := Placed(b + p.before, p.core, after);
  }

  lemma {:induction false} JoinedItems(p: Placed, others: seq<Placed>, depth: int)
    requires FinePlaced(p, depth) && FineItems(others, depth)
    ensures FineItems([p] + others, depth) && Readings([p] + others) == [ReadingAt(p)] + Readings(others)
    ensures ItemsText([p] + others) == if others == [] then PlacedText(p) else PlacedText(p) + ([0x2C] + ItemsText(others))
  {
    hide FinePlaced, ReadingAt, PlacedText;
    assert ([p] + others)[1..] == others;
  }

  lemma {:induction false} FieldOf(s: Text, depth: int, keys: set<Text>) returns (m: Field)
    requires ParseMember(Skip(s), depth, keys).Done?
    ensures FineField(m, depth) && m.value.after == [] && s == FieldText(m) + ParseMember(Skip(s), depth, keys).rest
    ensures FieldReading(m) == ParseMember(Skip(s), depth, keys).value && CharUnits(m.key) !in keys
    decreases |s|, 4, 0
  {
    hide ParseValue, Skip, CoreText, Fine, Reading, ParseString, CharsText, CharUnits, WellFormedText;
    var u := Skip(s);
    SkipShorter(s);
    var b := BlanksOf(s);
    var key := TextOf(u);
    var rest := ParseString(u).rest;
    var gap := BlanksOf(rest);
    var t := Skip(rest);
    SkipShorter(rest);
    assert t == [0x3A] + t[1..];
    var p := SpellingOf(t[1..], depth);
    m := Field(b, key, gap, p);
    FieldIs(m, ParseValue(t[1..], depth).rest);
    assert [] + ParseValue(t[1..], depth).rest == ParseValue(t[1..], depth).rest;
  }

  lemma {:induction false} FieldsOf(s: Text, depth: int, keys: set<Text>) returns (members: seq<Field>)
    requires ParseMembers(Skip(s), depth, keys).Done?
    ensures members != [] && FineMembers(members, depth) && DistinctKeys(members, keys)
    ensures s == MembersText(members) + ([0x7D] + ParseMembers(Skip(s), depth, keys).rest)
    ensures FieldReadings(members) == ParseMembers(Skip(s), depth, keys).value
    decreases |s|, 5
  {
    hide ParseMember, Skip, FineField, FieldText, MembersText, FineMembers, FieldReadings, FieldReading, DistinctKeys, CharUnits;
    var u := Skip(s);
    SkipShorter(s);
    var field := PlacedField(s, depth, keys);
    var rest := ParseMember(u, depth, keys).rest;
    var x := Skip(rest);
    if Starts(x, CLOSE_OBJECT) {
      members := [field];
      NoItems(depth);
      NoKeys(keys + {CharUnits(field.key)});
      assert [field] + [] == [field];
      JoinedFields(field, [], depth, keys);
      assert x == [0x7D] + x[1..];
    } else {
      assert x == [0x2C] + x[1..];
      SkipShorter(rest);
      var others := FieldsOf(x[1..], depth, keys + {CharUnits(field.key)});
      members := [field] + others;
      JoinedFields(field, others, depth, keys);
      Joined(FieldText(field), MembersText(others), [0x7D] + ParseMembers(u, depth, keys).rest);
    }
  }

  lemma {:induction false} NoKeys(keys: set<Text>)
    ensures DistinctKeys([], keys)
  {
  }

  lemma {:induction false} PlacedField(s: Text, depth: int, keys: set<Text>) returns (field: Field)
    requires ParseMember(Skip(s), depth, keys).Done?
    ensures FineField(field, depth) && CharUnits(field.key) !in keys && FieldReading(field) == ParseMember(Skip(s), depth, keys).value
    ensures CharUnits(field.key) == ParseMember(Skip(s), depth, keys).value.0
    ensures s == FieldText(field) + Skip(ParseMember(Skip(s), depth, keys).rest)
    decreases |s|, 4, 1
  {
    hide ParseMember, Skip, CoreText, Fine, Reading, CharUnits, FineText;
    var m := FieldOf(s, depth, keys);
    var rest := ParseMember(Skip(s), depth, keys).rest;
    var after := BlanksOf(rest);
    field := m.(value := m.value.(after := after));
    AfterField(m, after, Skip(rest));
  }

  lemma {:induction false} JoinedFields(m: Field, others: seq<Field>, depth: int, keys: set<Text>)
    requires FineField(m, depth) && FineMembers(others, depth)
    requires CharUnits(m.key) !in keys && DistinctKeys(others, keys + {CharUnits(m.key)})
    ensures FineMembers([m] + others, depth) && DistinctKeys([m] + others, keys)
    ensures FieldReadings([m] + others) == [FieldReading(m)] + FieldReadings(others)
    ensures MembersText([m] + others) == if others == [] then FieldText(m) else FieldText(m) + ([0x2C] + MembersText(others))
  {
    hide FineField, FieldReading, FieldText, CharUnits;
    assert ([m] + others)[1..] == others;
  }

  lemma {:induction false} AfterField(m: Field, after: Text, x: Text)
    requires m.value.after == []
    ensures FieldText(m.(value := m.value.(after := after))) + x == FieldText(m) + (after + x)
  {
    hide CoreText;
  }

  // ----- The parser reads the grammar -----

  ghost predicate Spells(raw: Text, v: Value) {
    exists p: Placed :: FinePlaced(p, 0) && PlacedText(p) == raw && Reading(p.core) == v
  }

  /**
   Exactly the grammar: a text is accepted as a value if and only if it is a spelling of that
   value within the bounds of the parser, blanks around it.
   */
  lemma {:induction false} ReadsExactlyTheGrammar(raw: Text, v: Value)
    ensures ParseStrict(raw) == Done(v, []) <==> Spells(raw, v)
  {
    hide ParseValue, Skip, CoreText, Fine, Reading;
    if ParseStrict(raw) == Done(v, []) {
      var p := SpellingOf(raw, 0);
      var after := BlanksOf(ParseValue(raw, 0).rest);
      var placed := p.(after := after);
      assert FinePlaced(placed, 0) && PlacedText(placed) == raw && Reading(placed.core) == v;
    }
    if Spells(raw, v) {
      var p: Placed :| FinePlaced(p, 0) && PlacedText(p) == raw && Reading(p.core) == v;
      BlankEnds(p.after);
      CoreReads(p.before, p.core, p.after, 0);
      BlanksSkipped(p.after, []);
      assert p.after + [] == p.after;
      NothingLeft();
    }
  }

  lemma {:induction false} BlankEnds(s: Text)
    requires Blanks(s)
    ensures Ends(s)
  {
  }

  lemma {:induction false} NothingLeft()
    ensures Skip([]) == []
  {
  }

  /** A numeral is read if and only if its exact decimal value is a safe integer, as that integer. */
  lemma {:induction false} NumeralsExactly(m: Numeral, v: Value)
    requires IsNumeral(m)
    ensures ParseStrict(NumeralText(m)) == Done(v, []) <==>
              v.Number? && -9007199254740991 <= v.n <= 9007199254740991 && Numbers.Exact(TokenOf(m)) == v.n as real
  {
    hide ScanNumber, NumeralText, Numbers.IsWhole, Numbers.WholeValue, Numbers.Exact, ParseValue, Skip;
    var t := NumeralText(m);
    FigureBegins(m);
    NothingSkipped(t);
    LiteralStep(t, 0);
    NumeralReads(m, []);
    assert t + [] == t;
    FigureLiteral(t);
    NothingLeft();
    if Numbers.IsWhole(TokenOf(m)) { Numbers.WholeIsExact(TokenOf(m)); }
    if v.Number? && Numbers.Exact(TokenOf(m)) == v.n as real { Numbers.ExactIsWhole(TokenOf(m), v.n); }
  }

  lemma {:induction false} FigureBegins(m: Numeral)
    requires IsNumeral(m)
    ensures Begins(NumeralText(m)) && NumeralText(m)[0] !in [0x22, 0x5B, 0x7B, 0x74, 0x66, 0x6E, 0x20, 0x09, 0x0A, 0x0D]
  {
    assert DigitsText(m.whole)[0] == 0x30 + m.whole[0];
  }

  lemma {:induction false} FigureLiteral(t: Text)
    requires t != [] && t[0] !in [0x74, 0x66, 0x6E]
    ensures ParseLiteral(t) == ParseNumber(t)
  {
    hide ParseNumber;
  }
}
