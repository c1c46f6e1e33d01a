/**
 Which of the spellings of a value is its canonical text (native/android/SyncProtocol.kt:15-38,
 src/utils/ledgerCanonicalization.ts:5-8): the tight one, with the keys of every object in
 ascending order.
 */
module JsonCanonical {
  import opened Ledger
  import opened Json
  import opened JsonParser
  import opened JsonGrammar
  import Trip = JsonRoundTrip
  import Numbers = JsonNumbers

  // ----- Tight spellings -----

  /** A unit as itself; a quote, a backslash and five controls by their letter; the other controls by number, in lower case. */
  predicate TightChar(c: Char) {
    match c
    case Plain(_) => true
    case Short(letter) => letter != 0x2F
    case Hex(a, b, d, e) =>
      && CharUnit(c) < 0x20 && CharUnit(c) !in [0x08, 0x09, 0x0A, 0x0C, 0x0D]
      && !a.upper && !b.upper && !d.upper && !e.upper
  }

  predicate TightChars(cs: seq<Char>) { forall i :: 0 <= i < |cs| ==> TightChar(cs[i]) }

  /** No fraction, no exponent, no negative zero. */
  predicate TightNumeral(m: Numeral) { m.fraction == [] && m.exponent.None? && (m.negative ==> m.whole != [0]) }

  /** No blank anywhere, every character and every number tight. */
  predicate Tight(s: Spelling)
    decreases s, 2
  {
    match s
    case Word(_) => true
    case Figure(m, _) => TightNumeral(m)
    case Chars(cs) => TightChars(cs)
    case List(inside, items) => inside == [] && TightItems(items)
    case Record(inside, members) => inside == [] && TightMembers(members)
  }

  predicate TightPlaced(p: Placed)
    decreases p, 3
  {
    p.before == [] && p.after == [] && Tight(p.core)
  }

  predicate TightItems(items: seq<Placed>)
    decreases items, 0
  {
    items == [] || (TightPlaced(items[0]) && TightItems(items[1..]))
  }

  predicate TightField(m: Field)
    decreases m, 1
  {
    m.before == [] && TightChars(m.key) && m.gap == [] && TightPlaced(m.value)
  }

  predicate TightMembers(members: seq<Field>)
    decreases members, 0
  {
    members == [] || (TightField(members[0]) && TightMembers(members[1..]))
  }

  // ----- A tight spelling with ascending keys is the canonical text -----

  lemma {:induction false} TightCharText(c: Char)
    requires IsChar(c) && TightChar(c)
    ensures CharText(c) == Escape(CharUnit(c), false)
  {
  }

  lemma {:induction false} TightCharsText(cs: seq<Char>)
    requires AreChars(cs) && TightChars(cs)
    ensures CharsText(cs) == Escaped(CharUnits(cs), false)
  {
    hide CharText, CharUnit, Escape, IsChar, TightChar;
    if cs != [] {
      TightCharText(cs[0]);
      TightCharsText(cs[1..]);
    }
  }

  lemma {:induction false} PlainDigits(d: Numbers.Digits)
    requires Numbers.AreDigits(d) && d != [] && (|d| > 1 ==> d[0] != 0)
    ensures DigitsText(d) == DecimalText(Numbers.Value(d))
  {
    var n := |d| - 1;
    if n > 0 {
      PlainDigits(d[..n]);
      Numbers.LeadingDigit(d[..n]);
      assert DigitsText(d) == DigitsText(d[..n]) + [0x30 + d[n]];
    } else {
      assert d[..0] == [] && DigitsText(d) == [0x30 + d[0]];
    }
  }

  lemma {:induction false} NotZero(d: Numbers.Digits)
    requires d != [] && d != [0] && (|d| > 1 ==> d[0] != 0)
    ensures d[0] != 0
  {
    if |d| == 1 { assert d == [d[0]]; }
  }

  lemma {:induction false} ValueOfWhole(m: Numeral, n: int)
    requires IsNumeral(m) && TightNumeral(m) && Numbers.Exact(TokenOf(m)) == n as real
    ensures var v: int := Numbers.Value(m.whole); n == if m.negative then -v else v
    ensures m.negative ==> 0 < Numbers.Value(m.whole)
  {
    hide Numbers.Value;
    assert m.whole + m.fraction == m.whole;
    assert Numbers.Pow10(0) == 1;
    if m.negative {
      NotZero(m.whole);
      Numbers.LeadingDigit(m.whole);
    }
  }

  lemma {:induction false} TightNumeralText(m: Numeral, n: int)
    requires IsNumeral(m) && TightNumeral(m) && Numbers.Exact(TokenOf(m)) == n as real
    ensures NumeralText(m) == NumberText(n)
  {
    hide Numbers.Value, Numbers.Exact, DecimalText, DigitsText;
    ValueOfWhole(m, n);
    PlainDigits(m.whole);
    var w := DigitsText(m.whole);
    assert w + ([] + []) == w;
    assert [] + w == w;
  }

  /** The tight text of a value whose keys ascend. */
  lemma {:induction false} TightText(s: Spelling, depth: int)
    requires Fine(s, depth) && Tight(s) && Trip.Ascends(Reading(s))
    ensures CoreText(s) == Canonical(Reading(s), false)
    decreases s, 2
  {
    hide NumeralText, NumberText, Numbers.Exact, CharsText, CharUnits, Escaped, ItemsText, MembersText, Readings, FieldReadings,
         FineItems, FineMembers, TightItems, TightMembers, JoinItems, JoinMembers, CanonicalItems, CanonicalMembers, SortByKey, DistinctKeys;
    match s
    case Word(_) =>
    case Figure(m, n) => TightNumeralText(m, n);
    case Chars(cs) => TightCharsText(cs);
    case List(inside, items) =>
      TightItemsText(items, depth + 1);
      assert [] + (ItemsText(items) + [0x5D]) == ItemsText(items) + [0x5D];
    case Record(inside, members) =>
      TightMembersText(members, depth + 1);
      KeysInOrder(FieldReadings(members));
      assert [] + (MembersText(members) + [0x7D]) == MembersText(members) + [0x7D];
  }

  lemma {:induction false} TightItemsText(items: seq<Placed>, depth: int)
    requires FineItems(items, depth) && TightItems(items) && forall i :: 0 <= i < |Readings(items)| ==> Trip.Ascends(Readings(items)[i])
    ensures ItemsText(items) == JoinItems(CanonicalItems(Readings(items), false))
    decreases items, 0
  {
    hide Canonical, Reading, CoreText, Fine, Tight, Trip.Ascends;
    if items != [] {
      var p, others := items[0], items[1..];
      assert Readings(items)[0] == Reading(p.core) && Readings(items)[1..] == Readings(others);
      forall i | 0 <= i < |Readings(others)| ensures Trip.Ascends(Readings(others)[i]) {
        assert Readings(others)[i] == Readings(items)[i + 1];
      }
      TightText(p.core, depth);
      TightItemsText(others, depth);
      assert PlacedText(p) == CoreText(p.core);
      SameLength(others);
      JoinOfItems(Canonical(Reading(p.core), false), CanonicalItems(Readings(others), false));
    }
  }

  lemma {:induction false} SameLength(items: seq<Placed>)
    ensures |Readings(items)| == |items|
  {
    hide ReadingAt;
    if items != [] { SameLength(items[1..]); }
  }

  lemma {:induction false} JoinOfItems(first: Text, others: seq<Text>)
    ensures JoinItems([first] + others) == if others == [] then first else first + ([0x2C] + JoinItems(others))
  {
    assert ([first] + others)[1..] == others;
  }

  lemma {:induction false} TightMembersText(members: seq<Field>, depth: int)
    requires FineMembers(members, depth) && TightMembers(members)
    requires forall i :: 0 <= i < |FieldReadings(members)| ==> Trip.Ascends(FieldReadings(members)[i].1)
    ensures MembersText(members) == JoinMembers(CanonicalMembers(FieldReadings(members), false), false)
    decreases members, 0
  {
    hide Canonical, Reading, CoreText, FieldText, FieldReading, FineField, TightField, Trip.Ascends, Quote;
    if members != [] {
      var m, others := members[0], members[1..];
      assert FieldReadings(members)[0] == FieldReading(m) && FieldReadings(members)[1..] == FieldReadings(others);
      forall i | 0 <= i < |FieldReadings(others)| ensures Trip.Ascends(FieldReadings(others)[i].1) {
        assert FieldReadings(others)[i] == FieldReadings(members)[i + 1];
      }
      TightFieldText(m, depth);
      TightMembersText(others, depth);
      SameFields(others);
      JoinOfMembers(CanonicalMember(FieldReading(m), false), CanonicalMembers(FieldReadings(others), false));
    }
  }

  lemma {:induction false} SameFields(members: seq<Field>)
    ensures |FieldReadings(members)| == |members|
  {
    hide FieldReading;
    if members != [] { SameFields(members[1..]); }
  }

  lemma {:induction false} JoinOfMembers(first: (Text, Text), others: seq<(Text, Text)>)
    ensures var text := Quote(first.0, false) + [COLON] + first.1;
            JoinMembers([first] + others, false) == if others == [] then text else text + ([0x2C] + JoinMembers(others, false))
  {
    hide Quote;
    assert ([first] + others)[1..] == others;
  }

  lemma {:induction false} TightFieldText(m: Field, depth: int)
    requires FineField(m, depth) && TightField(m) && Trip.Ascends(FieldReading(m).1)
    ensures var c := CanonicalMember(FieldReading(m), false); FieldText(m) == Quote(c.0, false) + [COLON] + c.1
    decreases m, 1
  {
    hide Canonical, Reading, CoreText, Fine, Tight, Trip.Ascends, CharsText, CharUnits, Escaped, WellFormedText;
    TightCharsText(m.key);
    TightText(m.value.core, depth);
    assert PlacedText(m.value) == CoreText(m.value.core);
    var k, v := CharsText(m.key), CoreText(m.value.core);
    assert [] + ([0x22] + (k + ([0x22] + ([] + ([0x3A] + v))))) == [QUOTE] + k + [QUOTE] + [COLON] + v;
  }

  lemma {:induction false} SortedStays<T>(xs: seq<(Text, T)>)
    requires SortedByKey(xs)
    ensures SortByKey(xs) == xs
  {
    hide Before;
    if xs != [] { SortedStays(xs[1..]); }
  }

  lemma {:induction false} KeysInOrder(members: seq<(Text, Value)>)
    requires Trip.Ascends(Object(members))
    ensures SortByKey(CanonicalMembers(members, false)) == CanonicalMembers(members, false)
    ensures forall i :: 0 <= i < |members| ==> Trip.Ascends(members[i].1)
  {
    hide Precedes, Before, Canonical;
    var texts := CanonicalMembers(members, false);
    KeysOfTexts(members);
    forall i, k | 0 <= i < k < |texts| ensures Before(texts[i].0, texts[k].0) { BeforeExactly(members[i].0, members[k].0); }
    SortedStays(texts);
  }

  lemma {:induction false} KeysOfTexts(members: seq<(Text, Value)>)
    ensures forall i :: 0 <= i < |members| ==> CanonicalMembers(members, false)[i].0 == members[i].0
  {
    hide Canonical;
    if members != [] { KeysOfTexts(members[1..]); }
  }

  // ----- There is one -----

  lemma {:induction false} TightCharOf(u: Unit) returns (c: Char)
    ensures IsChar(c) && TightChar(c) && CharUnit(c) == u
  {
    if u == 0x22 || u == 0x5C {
      c := Short(u);
    } else if u == 0x08 {
      c := Short(0x62);
    } else if u == 0x09 {
      c := Short(0x74);
    } else if u == 0x0A {
      c := Short(0x6E);
    } else if u == 0x0C {
      c := Short(0x66);
    } else if u == 0x0D {
      c := Short(0x72);
    } else if u < 0x20 {
      c := Hex(Nibble(0, false), Nibble(0, false), Nibble(u / 16, false), Nibble(u % 16, false));
    } else {
      c := Plain(u);
    }
  }

  lemma {:induction false} TightCharsOf(text: Text) returns (cs: seq<Char>)
    ensures AreChars(cs) && TightChars(cs) && CharUnits(cs) == text
  {
    hide IsChar, TightChar, CharUnit;
    cs := [];
    if text != [] {
      var c := TightCharOf(text[0]);
      var others := TightCharsOf(text[1..]);
      cs := [c] + others;
      assert cs[1..] == others;
      assert text == [text[0]] + text[1..];
    }
  }

  lemma {:induction false} DigitsOfNumber(n: nat) returns (d: Numbers.Digits)
    ensures Numbers.AreDigits(d) && d != [] && (|d| > 1 ==> d[0] != 0) && Numbers.Value(d) == n && (n > 0 ==> d[0] != 0)
  {
    if n < 10 {
      d := [n];
      assert d[..0] == [];
    } else {
      var front := DigitsOfNumber(n / 10);
      d := front + [n % 10];
      assert d[..|d| - 1] == front;
    }
  }

  lemma {:induction false} TightNumeralOf(n: int) returns (m: Numeral)
    ensures IsNumeral(m) && TightNumeral(m) && Numbers.Exact(TokenOf(m)) == n as real
  {
    hide Numbers.Value;
    var d := DigitsOfNumber(if n < 0 then -n else n);
    m := Numeral(n < 0, d, [], None);
    assert d + [] == d;
    assert Numbers.Pow10(0) == 1;
  }

  /** Every spelling can be made tight. */
  lemma {:induction false} Tightened(s: Spelling, depth: int) returns (t: Spelling)
    requires Fine(s, depth)
    ensures Fine(t, depth) && Tight(t) && Reading(t) == Reading(s)
    decreases s, 2
  {
    hide FineItems, FineMembers, TightItems, TightMembers, Readings, FieldReadings, DistinctKeys, AreChars, TightChars, CharUnits, Numbers.Exact,
         IsNumeral, TightNumeral;
    match s
    case Word(_) => t := s;
    case Figure(_, n) =>
      var m := TightNumeralOf(n);
      t := Figure(m, n);
    case Chars(cs) =>
      var tight := TightCharsOf(CharUnits(cs));
      t := Chars(tight);
    case List(_, items) =>
      var tight := TightenedItems(items, depth + 1);
      t := List([], tight);
    case Record(_, members) =>
      var tight := TightenedMembers(members, depth + 1, {});
      t := Record([], tight);
  }

  lemma {:induction false} TightenedItems(items: seq<Placed>, depth: int) returns (tight: seq<Placed>)
    requires FineItems(items, depth)
    ensures FineItems(tight, depth) && TightItems(tight) && Readings(tight) == Readings(items)
    decreases items, 0
  {
    hide Fine, Tight, Reading;
    tight := [];
    if items != [] {
      var core := Tightened(items[0].core, depth);
      var others := TightenedItems(items[1..], depth);
      tight := [Placed([], core, [])] + others;
      assert tight[1..] == others;
    }
  }

  lemma {:induction false} TightenedMembers(members: seq<Field>, depth: int, keys: set<Text>) returns (tight: seq<Field>)
    requires FineMembers(members, depth) && DistinctKeys(members, keys)
    ensures FineMembers(tight, depth) && DistinctKeys(tight, keys) && TightMembers(tight) && FieldReadings(tight) == FieldReadings(members)
    decreases members, 0
  {
    hide FineField, TightField, FieldReading, CharUnits;
    tight := [];
    if members != [] {
      var m := members[0];
      var field := TightenedField(m, depth);
      var others := TightenedMembers(members[1..], depth, keys + {CharUnits(m.key)});
      tight := [field] + others;
      assert tight[1..] == others;
    }
  }

  lemma {:induction false} TightenedField(m: Field, depth: int) returns (field: Field)
    requires FineField(m, depth)
    ensures FineField(field, depth) && TightField(field) && FieldReading(field) == FieldReading(m) && CharUnits(field.key) == CharUnits(m.key)
    decreases m, 1
  {
    hide Fine, Tight, Reading, AreChars, TightChars, CharUnits, WellFormedText;
    assert FinePlaced(m.value, depth) && FineText(m.key);
    var key := TightCharsOf(CharUnits(m.key));
    var core := Tightened(m.value.core, depth);
    var placed := Placed([], core, []);
    assert FinePlaced(placed, depth) && TightPlaced(placed) && ReadingAt(placed) == ReadingAt(m.value);
    field := Field([], key, [], placed);
  }

  /** The canonical text of a value is a tight spelling of it with ascending keys, and there is only one such text. */
  lemma {:induction false} CanonicalIsTight(v: Value) returns (s: Spelling)
    requires IsValue(v) && InDomain(v, 0)
    ensures Fine(s, 0) && Tight(s) && Trip.Ascends(Reading(s)) && Reading(s) == Norm(v) && CoreText(s) == Canonical(v, false)
    ensures forall t: Spelling :: Fine(t, 0) && Tight(t) && Reading(t) == Norm(v) ==> CoreText(t) == Canonical(v, false)
  {
    hide Fine, Tight, Reading, Canonical, Norm, Trip.Ascends, CoreText, ParseStrict, InDomain, IsValue;
    Trip.PrinterAndParserInvert(v, false);
    ReadsExactlyTheGrammar(Canonical(v, false), Norm(v));
    var p: Placed :| FinePlaced(p, 0) && PlacedText(p) == Canonical(v, false) && Reading(p.core) == Norm(v);
    s := Tightened(p.core, 0);
    Trip.NormAscends(v);
    Trip.NormPrintsAlike(v, false);
    forall t: Spelling | Fine(t, 0) && Tight(t) && Reading(t) == Norm(v) ensures CoreText(t) == Canonical(v, false) {
      TightText(t, 0);
    }
  }
}
