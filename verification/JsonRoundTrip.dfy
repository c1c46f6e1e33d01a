/**
 The printer and the strict parser invert each other, in both escaping profiles, exactly
 on the values the parser admits.
 */
module JsonRoundTrip {
  import opened Json
  import opened JsonParser
  import Numbers = JsonNumbers

  /** What may follow a value in canonical text: nothing, or a separator. */
  predicate Terminated(tail: Text) { tail == [] || tail[0] in {COMMA, CLOSE_ARRAY, CLOSE_OBJECT} }

  // ----- Strings -----

  lemma {:induction false} EscapeParses(u: Unit, android: bool, tail: Text)
    ensures ParseChars(Escape(u, android) + tail) == Prepend(u, ParseChars(tail))
  {
  }

  lemma {:induction false} ClosingQuote(tail: Text)
    ensures ParseChars([QUOTE] + tail) == Done([], tail)
  {
  }

  lemma {:induction false} EscapedParses(text: Text, android: bool, tail: Text)
    ensures ParseChars(Escaped(text, android) + [QUOTE] + tail) == Done(text, tail)
  {
    hide ParseChars, Escape;
    if text == [] {
      assert Escaped(text, android) + [QUOTE] + tail == [QUOTE] + tail;
      ClosingQuote(tail);
    } else {
      var rest := Escaped(text[1..], android) + [QUOTE] + tail;
      EscapedParses(text[1..], android, tail);
      EscapeParses(text[0], android, rest);
      assert Escaped(text, android) + [QUOTE] + tail == Escape(text[0], android) + rest;
      assert [text[0]] + text[1..] == text;
    }
  }

  lemma {:induction false} QuoteParses(text: Text, android: bool, tail: Text)
    ensures ParseString(Quote(text, android) + tail) == if WellFormedText(text) then Done(text, tail) else Fail
  {
    hide ParseChars;
    EscapedParses(text, android, tail);
    var s := Quote(text, android) + tail;
    assert s[1..] == Escaped(text, android) + [QUOTE] + tail;
  }

  // ----- Numbers -----

  lemma {:induction false} DecimalDigits(n: nat)
    ensures DecimalText(n) != [] && (forall i :: 0 <= i < |DecimalText(n)| ==> IsDigit(DecimalText(n)[i]))
    ensures DecimalText(n)[0] == ZERO <==> n == 0
    ensures n == 0 ==> DecimalText(n) == [ZERO]
    ensures Numbers.AreDigits(DigitsOf(DecimalText(n))) && Numbers.Value(DigitsOf(DecimalText(n))) == n
  {
    if n >= 10 {
      DecimalDigits(n / 10);
      var d := DigitsOf(DecimalText(n));
      assert d[..|d| - 1] == DigitsOf(DecimalText(n / 10));
    } else {
      assert DigitsOf(DecimalText(n))[..0] == [];
    }
  }

  lemma {:induction false} CountAll(digits: Text, tail: Text)
    requires forall i :: 0 <= i < |digits| ==> IsDigit(digits[i])
    requires tail != [] ==> !IsDigit(tail[0])
    ensures CountDigits(digits + tail) == |digits|
  {
    if digits != [] {
      assert (digits + tail)[1..] == digits[1..] + tail;
      CountAll(digits[1..], tail);
    } else {
      assert digits + tail == tail;
    }
  }

  lemma {:induction false} NoExponent(tail: Text)
    requires Terminated(tail)
    ensures ScanExponent(tail) == (0, tail) && !Starts(tail, 0x2E) && (tail != [] ==> !IsDigit(tail[0]))
  {
  }

  lemma {:induction false} NumberScans(n: int, tail: Text)
    requires Terminated(tail)
    ensures ScanNumber(NumberText(n) + tail)
         == Done(Numbers.Token(n < 0, DigitsOf(DecimalText(if n < 0 then -n else n)), [], 0), tail)
  {
    hide DecimalText, CountDigits, ScanExponent, Numbers.AreDigits, Numbers.Value, DigitsOf;
    var m := if n < 0 then -n else n;
    var digits := DecimalText(m);
    DecimalDigits(m);
    NoExponent(tail);
    var s := NumberText(n) + tail;
    assert Starts(s, MINUS) <==> n < 0;
    var s1 := SkipMinus(s);
    assert s1 == digits + tail;
    assert s1[0] == digits[0];
    CountAll(digits, tail);
    var whole := if s1[0] == ZERO then 1 else CountDigits(s1);
    assert whole == |digits|;
    assert s1[..whole] == digits && s1[whole..] == tail;
  }

  lemma {:induction false} NumberParses(n: int, tail: Text)
    requires Terminated(tail)
    ensures ParseNumber(NumberText(n) + tail) == if -MAX_SAFE <= n <= MAX_SAFE then Done(Number(n), tail) else Fail
  {
    hide ScanNumber;
    NumberScans(n, tail);
    var m := if n < 0 then -n else n;
    DecimalDigits(m);
    var token := Numbers.Token(n < 0, DigitsOf(DecimalText(m)), [], 0);
    assert token.whole + token.fraction == token.whole;
    assert Numbers.Pow10(0) == 1;
  }

  // ----- Sorting -----

  function MapSecond<T, U>(xs: seq<(Text, T)>, f: T -> U): (ys: seq<(Text, U)>)
    ensures |ys| == |xs| && forall i :: 0 <= i < |xs| ==> ys[i] == (xs[i].0, f(xs[i].1))
  {
    seq(|xs|, i requires 0 <= i < |xs| => (xs[i].0, f(xs[i].1)))
  }

  lemma {:induction false} MapInsert<T, U>(x: (Text, T), xs: seq<(Text, T)>, f: T -> U)
    ensures MapSecond(Insert(x, xs), f) == Insert((x.0, f(x.1)), MapSecond(xs, f))
  {
    hide Before;
    if xs == [] || Before(x.0, xs[0].0) {
      assert MapSecond([x] + xs, f) == [(x.0, f(x.1))] + MapSecond(xs, f);
    } else {
      MapInsert(x, xs[1..], f);
      assert MapSecond(xs, f)[1..] == MapSecond(xs[1..], f);
      assert MapSecond([xs[0]] + Insert(x, xs[1..]), f) == [(xs[0].0, f(xs[0].1))] + MapSecond(Insert(x, xs[1..]), f);
    }
  }

  /** Sorting by key commutes with rewriting the values. */
  lemma {:induction false} MapSort<T, U>(xs: seq<(Text, T)>, f: T -> U)
    ensures MapSecond(SortByKey(xs), f) == SortByKey(MapSecond(xs, f))
  {
    if xs != [] {
      MapSort(xs[1..], f);
      MapInsert(xs[0], SortByKey(xs[1..]), f);
      assert MapSecond(xs, f)[1..] == MapSecond(xs[1..], f);
    }
  }

  lemma {:induction false} InsertMembers<T>(x: (Text, T), xs: seq<(Text, T)>)
    ensures |Insert(x, xs)| == |xs| + 1
    ensures forall y :: y in Insert(x, xs) <==> y == x || y in xs
  {
    hide Before;
    if !(xs == [] || Before(x.0, xs[0].0)) {
      InsertMembers(x, xs[1..]);
      assert xs == [xs[0]] + xs[1..];
    }
  }

  function Keys<T>(xs: seq<(Text, T)>): set<Text> { set i | 0 <= i < |xs| :: xs[i].0 }

  lemma {:induction false} KeysSplit<T>(xs: seq<(Text, T)>)
    requires xs != []
    ensures Keys(xs) == Keys(xs[1..]) + {xs[0].0}
    ensures UniqueKeys(xs) <==> xs[0].0 !in Keys(xs[1..]) && UniqueKeys(xs[1..])
  {
  }

  lemma {:induction false} InsertUnique<T>(x: (Text, T), xs: seq<(Text, T)>)
    ensures Keys(Insert(x, xs)) == Keys(xs) + {x.0}
    ensures UniqueKeys(xs) && x.0 !in Keys(xs) ==> UniqueKeys(Insert(x, xs))
  {
    hide Before, UniqueKeys, Keys;
    if xs == [] || Before(x.0, xs[0].0) {
      KeysSplit([x] + xs);
      assert ([x] + xs)[1..] == xs;
    } else {
      InsertUnique(x, xs[1..]);
      KeysSplit(xs);
      var longer := [xs[0]] + Insert(x, xs[1..]);
      KeysSplit(longer);
      assert longer[1..] == Insert(x, xs[1..]);
    }
  }

  lemma {:induction false} SortMembers<T>(xs: seq<(Text, T)>)
    ensures |SortByKey(xs)| == |xs|
    ensures forall y :: y in SortByKey(xs) <==> y in xs
    ensures Keys(SortByKey(xs)) == Keys(xs)
    ensures UniqueKeys(xs) ==> UniqueKeys(SortByKey(xs))
  {
    hide UniqueKeys, Keys;
    if xs != [] {
      SortMembers(xs[1..]);
      InsertMembers(xs[0], SortByKey(xs[1..]));
      InsertUnique(xs[0], SortByKey(xs[1..]));
      KeysSplit(xs);
      assert xs == [xs[0]] + xs[1..];
    } else {
      NoKeys<T>();
    }
  }

  lemma {:induction false} NoKeys<T>()
    ensures UniqueKeys<T>([]) && SortByKey<T>([]) == []
  {
  }

  // ----- Values -----

  /** The first code unit of a canonical text: never a space, never a closing bracket. */
  lemma {:induction false} CanonicalStart(v: Value, android: bool)
    ensures var t := Canonical(v, android);
            t != [] && !IsSpace(t[0]) && t[0] != CLOSE_ARRAY && t[0] != CLOSE_OBJECT
  {
    match v
    case Number(n) => DecimalDigits(if n < 0 then -n else n);
    case _ =>
  }

  lemma {:induction false} LiteralParses(v: Value, tail: Text)
    requires v.Null? || v.Bool? || v.Number?
    requires Terminated(tail)
    ensures ParseLiteral(Canonical(v, false) + tail)
         == (if v.Number? && !(-MAX_SAFE <= v.n <= MAX_SAFE) then Fail else Done(v, tail))
  {
    hide ParseNumber;
    var s := Canonical(v, false) + tail;
    match v
    case Number(n) =>
      DecimalDigits(if n < 0 then -n else n);
      assert s[0] == MINUS || IsDigit(s[0]);
      NumberParses(n, tail);
    case Bool(b) =>
      assert s[0] == (if b then TRUE else FALSE)[0];
      assert s[..if b then 4 else 5] == (if b then TRUE else FALSE);
      assert s[if b then 4 else 5..] == tail;
    case Null =>
      assert s[0] == NULL[0] && s[..4] == NULL && s[4..] == tail;
  }

  /** The parser reads a canonical text back, whatever follows it. */
  ghost predicate Trips(t: Text, v: Value, depth: int) {
    forall tail: Text :: Terminated(tail) ==> ParseValue(t + tail, depth) == Expected(v, depth, tail)
  }

  function Expected(v: Value, depth: int, tail: Text): Parsed<Value> {
    if InDomain(v, depth) then Done(Norm(v), tail) else Fail
  }

  function ItemsText(items: seq<Value>, android: bool): Text { JoinItems(CanonicalItems(items, android)) }

  lemma {:induction false} ItemsTextSplits(items: seq<Value>, android: bool)
    requires items != []
    ensures ItemsText(items, android) == if |items| == 1 then Canonical(items[0], android)
                                         else Canonical(items[0], android) + [COMMA] + ItemsText(items[1..], android)
  {
  }

  /** One value of an array and what follows it. */
  lemma {:induction false} ItemParses(text: Text, value: Value, depth: int, after: Text)
    requires ParseValue(text + after, depth) == Expected(value, depth, after)
    requires after != [] && after[0] in {COMMA, CLOSE_ARRAY}
    ensures ParseItems(text + after, depth)
         == if !InDomain(value, depth) then Fail
            else if after[0] == CLOSE_ARRAY then Done([Norm(value)], after[1..])
            else match ParseItems(Skip(after[1..]), depth)
              case Fail => Fail
              case Done(items, rest) => Done([Norm(value)] + items, rest)
  {
  }

  lemma {:induction false} ItemsParse(items: seq<Value>, depth: int, tail: Text, android: bool)
    requires items != [] && AreValues(items)
    ensures ParseItems(ItemsText(items, android) + [CLOSE_ARRAY] + tail, depth)
         == if ItemsInDomain(items, depth) then Done(NormItems(items), tail) else Fail
    decreases items, 0
  {
    hide ParseValue, ParseItems, Canonical, ItemsText, InDomain, Norm, Expected;
    ItemsTextSplits(items, android);
    var first := Canonical(items[0], android);
    if |items| == 1 {
      var after := [CLOSE_ARRAY] + tail;
      ValueParses(items[0], depth, after, android);
      ItemParses(first, items[0], depth, after);
      assert ItemsText(items, android) + [CLOSE_ARRAY] + tail == first + after;
      assert after[1..] == tail;
      assert items[1..] == [] && NormItems(items) == [Norm(items[0])];
    } else {
      var more := ItemsText(items[1..], android) + [CLOSE_ARRAY] + tail;
      var after := [COMMA] + more;
      ValueParses(items[0], depth, after, android);
      ItemParses(first, items[0], depth, after);
      assert ItemsText(items, android) + [CLOSE_ARRAY] + tail == first + after;
      assert after[1..] == more;
      ItemsStart(items[1..], android);
      assert more[0] == ItemsText(items[1..], android)[0];
      assert Skip(more) == more;
      ItemsParse(items[1..], depth, tail, android);
    }
  }

  /** A member with its text and its value, so that both can be sorted together. */
  type Both = (Text, (Text, Value))

  function BothOf(members: seq<(Text, Value)>, android: bool): (list: seq<Both>)
    ensures |list| == |members|
    ensures forall i :: 0 <= i < |members| ==> list[i] == (members[i].0, (Canonical(members[i].1, android), members[i].1))
  {
    seq(|members|, i requires 0 <= i < |members| => (members[i].0, (Canonical(members[i].1, android), members[i].1)))
  }

  const TextPart: ((Text, Value)) -> Text := (p: (Text, Value)) => p.0
  const NormPart: ((Text, Value)) -> Value := (p: (Text, Value)) => Norm(p.1)

  ghost predicate AllInDomain(list: seq<Both>, depth: int) {
    forall i :: 0 <= i < |list| ==> WellFormedText(list[i].0) && InDomain(list[i].1.1, depth)
  }

  lemma {:induction false} MemberReads(key: Text, text: Text, value: Value, depth: int, keys: set<Text>, after: Text, android: bool)
    requires key !in keys && Trips(text, value, depth) && Terminated(after)
    ensures ParseMember(Quote(key, android) + [COLON] + text + after, depth, keys)
         == if WellFormedText(key) && InDomain(value, depth) then Done((key, Norm(value)), after) else Fail
  {
    hide ParseValue, ParseString, InDomain, WellFormedText, Quote, Norm, Trips;
    var colon := [COLON] + text + after;
    var s := Quote(key, android) + [COLON] + text + after;
    assert s == Quote(key, android) + colon;
    QuoteParses(key, android, colon);
    assert Skip(colon) == colon && colon[1..] == text + after;
    TripsAt(text, value, depth, after);
  }

  /** One member: key, colon, value, and what follows it. */
  lemma {:induction false} MemberParses(key: Text, text: Text, value: Value, depth: int, keys: set<Text>, after: Text, android: bool)
    requires key !in keys && Trips(text, value, depth) && after != [] && after[0] in {COMMA, CLOSE_OBJECT}
    ensures ParseMembers(Quote(key, android) + [COLON] + text + after, depth, keys)
         == if !WellFormedText(key) || !InDomain(value, depth) then Fail
            else if after[0] == CLOSE_OBJECT then Done([(key, Norm(value))], after[1..])
            else match ParseMembers(Skip(after[1..]), depth, keys + {key})
              case Fail => Fail
              case Done(members, rest) => Done([(key, Norm(value))] + members, rest)
  {
    hide ParseMember, InDomain, WellFormedText, Quote, Norm, Trips;
    MemberReads(key, text, value, depth, keys, after, android);
    assert Skip(after) == after;
  }

  lemma {:induction false} MembersParse(list: seq<Both>, depth: int, keys: set<Text>, tail: Text, android: bool)
    requires list != [] && UniqueKeys(list) && forall i :: 0 <= i < |list| ==> list[i].0 !in keys
    requires forall i :: 0 <= i < |list| ==> Trips(list[i].1.0, list[i].1.1, depth)
    ensures ParseMembers(JoinMembers(MapSecond(list, TextPart), android) + [CLOSE_OBJECT] + tail, depth, keys)
         == if AllInDomain(list, depth) then Done(MapSecond(list, NormPart), tail) else Fail
    decreases |list|
  {
    hide ParseMembers, InDomain, WellFormedText, Quote, Norm, Trips, AllInDomain;
    var key, text, value := list[0].0, list[0].1.0, list[0].1.1;
    var texts := MapSecond(list, TextPart);
    assert texts[1..] == MapSecond(list[1..], TextPart);
    AllSplits(list, depth);
    assert MapSecond(list, NormPart) == [(key, Norm(value))] + MapSecond(list[1..], NormPart);
    if |list| == 1 {
      var after := [CLOSE_OBJECT] + tail;
      assert JoinMembers(texts, android) + [CLOSE_OBJECT] + tail == Quote(key, android) + [COLON] + text + after;
      MemberParses(key, text, value, depth, keys, after, android);
      assert after[1..] == tail && MapSecond(list, NormPart) == [(key, Norm(value))];
      NoneLeft(list[1..], depth);
    } else {
      var more := JoinMembers(MapSecond(list[1..], TextPart), android) + [CLOSE_OBJECT] + tail;
      var after := [COMMA] + more;
      assert JoinMembers(texts, android) + [CLOSE_OBJECT] + tail == Quote(key, android) + [COLON] + text + after;
      MemberParses(key, text, value, depth, keys, after, android);
      QuoteStart(MapSecond(list[1..], TextPart), android);
      assert more[0] == QUOTE && Skip(more) == more && after[1..] == more;
      MembersParse(list[1..], depth, keys + {key}, tail, android);
    }
  }

  lemma {:induction false} NoneLeft(list: seq<Both>, depth: int)
    requires list == []
    ensures AllInDomain(list, depth)
  {
  }

  lemma {:induction false} AllSplits(list: seq<Both>, depth: int)
    requires list != []
    ensures AllInDomain(list, depth) <==>
            WellFormedText(list[0].0) && InDomain(list[0].1.1, depth) && AllInDomain(list[1..], depth)
  {
  }

  lemma {:induction false} QuoteStart(members: seq<(Text, Text)>, android: bool)
    requires members != []
    ensures JoinMembers(members, android) != [] && JoinMembers(members, android)[0] == QUOTE
  {
  }

  lemma {:induction false} TripsAt(t: Text, v: Value, depth: int, tail: Text)
    requires Trips(t, v, depth) && Terminated(tail)
    ensures ParseValue(t + tail, depth) == Expected(v, depth, tail)
  {
  }

  lemma {:induction false} MemberTrips(m: (Text, Value), depth: int, android: bool)
    requires IsMember(m)
    ensures Trips(Canonical(m.1, android), m.1, depth)
    decreases m, 1
  {
    hide ParseValue, Canonical, Expected;
    forall tail: Text | Terminated(tail)
      ensures ParseValue(Canonical(m.1, android) + tail, depth) == Expected(m.1, depth, tail)
    {
      ValueParses(m.1, depth, tail, android);
    }
  }

  lemma {:induction false} MembersTrip(members: seq<(Text, Value)>, depth: int, android: bool)
    requires AreMembers(members)
    ensures forall i :: 0 <= i < |members| ==> Trips(Canonical(members[i].1, android), members[i].1, depth)
    decreases members, 0
  {
    hide Trips;
    if members != [] {
      MemberTrips(members[0], depth, android);
      MembersTrip(members[1..], depth, android);
      assert forall i :: 1 <= i < |members| ==> members[i] == members[1..][i - 1];
    }
  }

  lemma {:induction false} DomainOfMembers(members: seq<(Text, Value)>, depth: int, android: bool)
    ensures MembersInDomain(members, depth) <==> AllInDomain(BothOf(members, android), depth)
    decreases |members|
  {
    hide WellFormedText, InDomain, Canonical;
    if members != [] {
      DomainOfMembers(members[1..], depth, android);
      var list := BothOf(members, android);
      assert list[1..] == BothOf(members[1..], android);
      AllSplits(list, depth);
    }
  }

  lemma {:induction false} PartsAt(members: seq<(Text, Value)>, android: bool, i: nat)
    requires i < |members|
    ensures CanonicalMembers(members, android)[i] == (members[i].0, Canonical(members[i].1, android))
    ensures NormMembers(members)[i] == (members[i].0, Norm(members[i].1))
    decreases |members|
  {
    hide Canonical, Norm;
    if i > 0 {
      PartsAt(members[1..], android, i - 1);
    }
  }

  lemma {:induction false} PartsOf(members: seq<(Text, Value)>, android: bool)
    ensures CanonicalMembers(members, android) == MapSecond(BothOf(members, android), TextPart)
    ensures NormMembers(members) == MapSecond(BothOf(members, android), NormPart)
  {
    hide Canonical, Norm, CanonicalMembers, NormMembers;
    var list := BothOf(members, android);
    forall i | 0 <= i < |members|
      ensures CanonicalMembers(members, android)[i] == MapSecond(list, TextPart)[i]
      ensures NormMembers(members)[i] == MapSecond(list, NormPart)[i]
    {
      PartsAt(members, android, i);
    }
  }

  /** What the object case needs of the sorted members. */
  lemma {:induction false} SortedMembers(members: seq<(Text, Value)>, depth: int, tail: Text, android: bool)
    requires members != [] && UniqueKeys(members)
    requires forall i :: 0 <= i < |members| ==> Trips(Canonical(members[i].1, android), members[i].1, depth)
    ensures ParseMembers(MembersText(members, android) + [CLOSE_OBJECT] + tail, depth, {})
         == if MembersInDomain(members, depth) then Done(SortByKey(NormMembers(members)), tail) else Fail
  {
    hide Trips, ParseMembers, Canonical, Norm, InDomain, WellFormedText, Before;
    var list := BothOf(members, android);
    var sorted := SortByKey(list);
    PartsOf(members, android);
    MapSort(list, TextPart);
    MapSort(list, NormPart);
    SortMembers(list);
    forall i | 0 <= i < |sorted| ensures Trips(sorted[i].1.0, sorted[i].1.1, depth) {
      assert sorted[i] in list;
    }
    MembersParse(sorted, depth, {}, tail, android);
    DomainOfMembers(members, depth, android);
    SameDomain(list, sorted, depth);
  }

  lemma {:induction false} SameDomain(a: seq<Both>, b: seq<Both>, depth: int)
    requires forall x :: x in a <==> x in b
    ensures AllInDomain(a, depth) <==> AllInDomain(b, depth)
  {
    hide WellFormedText, InDomain;
    forall i | 0 <= i < |a| ensures a[i] in b {
      assert a[i] in a;
    }
    forall i | 0 <= i < |b| ensures b[i] in a {
      assert b[i] in b;
    }
  }

  lemma {:induction false} ParseArray(s: Text, depth: int)
    requires s != [] && s[0] == OPEN_ARRAY && depth <= MAX_DEPTH
    ensures var u := Skip(s[1..]);
            ParseValue(s, depth)
            == if Starts(u, CLOSE_ARRAY) then Done(Array([]), u[1..])
               else match ParseItems(u, depth + 1) case Fail => Fail case Done(items, rest) => Done(Array(items), rest)
  {
  }

  lemma {:induction false} ParseObject(s: Text, depth: int)
    requires s != [] && s[0] == OPEN_OBJECT && depth <= MAX_DEPTH
    ensures var u := Skip(s[1..]);
            ParseValue(s, depth)
            == if Starts(u, CLOSE_OBJECT) then Done(Object([]), u[1..])
               else match ParseMembers(u, depth + 1, {}) case Fail => Fail case Done(members, rest) => Done(Object(members), rest)
  {
  }

  lemma {:induction false} ArrayParses(items: seq<Value>, depth: int, tail: Text, android: bool)
    requires depth <= MAX_DEPTH && AreValues(items)
    requires items != [] ==>
      ParseItems(ItemsText(items, android) + [CLOSE_ARRAY] + tail, depth + 1)
      == if ItemsInDomain(items, depth + 1) then Done(NormItems(items), tail) else Fail
    ensures ParseValue(Canonical(Array(items), android) + tail, depth) == Expected(Array(items), depth, tail)
  {
    hide ParseItems, ItemsInDomain, NormItems, ItemsText, ParseValue, Canonical, AreValues;
    ArrayText(items, android);
    var s := Canonical(Array(items), android) + tail;
    var inner := ItemsText(items, android) + [CLOSE_ARRAY] + tail;
    assert s[0] == OPEN_ARRAY && s[1..] == inner;
    ParseArray(s, depth);
    if items == [] {
      EmptyArray(depth + 1);
      assert inner[0] == CLOSE_ARRAY && inner[1..] == tail && Skip(inner) == inner;
    } else {
      ItemsStart(items, android);
      assert inner[0] == ItemsText(items, android)[0];
      assert Skip(inner) == inner;
    }
  }

  lemma {:induction false} ItemsStart(items: seq<Value>, android: bool)
    requires items != []
    ensures var t := ItemsText(items, android); t != [] && !IsSpace(t[0]) && t[0] != CLOSE_ARRAY
  {
    hide Canonical, ItemsText;
    ItemsTextSplits(items, android);
    CanonicalStart(items[0], android);
  }

  lemma {:induction false} ArrayText(items: seq<Value>, android: bool)
    ensures Canonical(Array(items), android) == [OPEN_ARRAY] + ItemsText(items, android) + [CLOSE_ARRAY]
    ensures items == [] ==> ItemsText(items, android) == []
  {
  }

  lemma {:induction false} EmptyArray(depth: int)
    ensures ItemsInDomain([], depth) && NormItems([]) == []
    ensures MembersInDomain([], depth) && SortByKey(NormMembers([])) == []
  {
  }

  function MembersText(members: seq<(Text, Value)>, android: bool): Text {
    JoinMembers(SortByKey(CanonicalMembers(members, android)), android)
  }

  lemma {:induction false} ObjectParses(members: seq<(Text, Value)>, depth: int, tail: Text, android: bool)
    requires depth <= MAX_DEPTH
    requires members != [] ==>
      ParseMembers(MembersText(members, android) + [CLOSE_OBJECT] + tail, depth + 1, {})
      == if MembersInDomain(members, depth + 1) then Done(SortByKey(NormMembers(members)), tail) else Fail
    ensures ParseValue(Canonical(Object(members), android) + tail, depth) == Expected(Object(members), depth, tail)
  {
    hide ParseMembers, MembersInDomain, NormMembers, SortByKey, MembersText, Canonical, ParseValue;
    ObjectText(members, android);
    var s := Canonical(Object(members), android) + tail;
    var inner := MembersText(members, android) + [CLOSE_OBJECT] + tail;
    assert s[0] == OPEN_OBJECT && s[1..] == inner;
    ParseObject(s, depth);
    if members == [] {
      EmptyArray(depth + 1);
      EmptyObject(android);
      assert inner[0] == CLOSE_OBJECT && inner[1..] == tail && Skip(inner) == inner;
    } else {
      MembersStart(members, android);
      assert inner[0] == QUOTE && Skip(inner) == inner;
    }
  }

  lemma {:induction false} MembersStart(members: seq<(Text, Value)>, android: bool)
    requires members != []
    ensures MembersText(members, android) != [] && MembersText(members, android)[0] == QUOTE
  {
  }

  lemma {:induction false} EmptyObject(android: bool)
    ensures MembersText([], android) == []
  {
  }

  lemma {:induction false} AtomParses(v: Value, depth: int, tail: Text, android: bool)
    requires v.Null? || v.Bool? || v.Number? || v.String?
    requires Terminated(tail) && depth <= MAX_DEPTH
    ensures ParseValue(Canonical(v, android) + tail, depth) == Expected(v, depth, tail)
  {
    hide ParseString, ParseLiteral;
    var s := Canonical(v, android) + tail;
    CanonicalStart(v, android);
    assert s[0] == Canonical(v, android)[0] && Skip(s) == s;
    match v
    case String(text) => QuoteParses(text, android, tail);
    case _ =>
      LiteralStart(v, tail);
      LiteralParses(v, tail);
  }

  /**
   The strict parser reads the canonical text of a value back as the value with its keys
   sorted, and refuses it exactly when the value is outside its domain.
   */
  lemma {:induction false} ValueParses(v: Value, depth: int, tail: Text, android: bool)
    requires IsValue(v) && Terminated(tail)
    ensures ParseValue(Canonical(v, android) + tail, depth) == Expected(v, depth, tail)
    decreases v, 2
  {
    hide ParseItems, ParseMembers, ParseString, ParseLiteral, SortByKey, Canonical, Trips, UniqueKeys;
    if depth > MAX_DEPTH {
      return;
    }
    match v
    case Array(items) =>
      if items != [] { ItemsParse(items, depth + 1, tail, android); }
      ArrayParses(items, depth, tail, android);
    case Object(members) =>
      if members != [] {
        MembersTrip(members, depth + 1, android);
        SortedMembers(members, depth + 1, tail, android);
      }
      ObjectParses(members, depth, tail, android);
    case _ => AtomParses(v, depth, tail, android);
  }

  lemma {:induction false} LiteralStart(v: Value, tail: Text)
    requires v.Null? || v.Bool? || v.Number?
    ensures var s := Canonical(v, false) + tail; s[0] != QUOTE && s[0] != OPEN_ARRAY && s[0] != OPEN_OBJECT
    ensures Canonical(v, true) == Canonical(v, false)
  {
    if v.Number? { DecimalDigits(if v.n < 0 then -v.n else v.n); }
  }

  // ----- What follows -----

  /** parseStrictJson(canonical(v)) succeeds exactly on the domain and gives v back. */
  lemma {:induction false} PrinterAndParserInvert(v: Value, android: bool)
    requires IsValue(v)
    ensures ParseStrict(Canonical(v, android)) == if InDomain(v, 0) then Done(Norm(v), []) else Fail
  {
    ValueParses(v, 0, [], android);
    assert Canonical(v, android) + [] == Canonical(v, android);
  }

  /** The keys of every object stand in ascending order, code unit by code unit. */
  ghost predicate Ascends(v: Value)
    decreases v
  {
    match v
    case Array(items) => forall i :: 0 <= i < |items| ==> Ascends(items[i])
    case Object(members) =>
      && (forall i, k :: 0 <= i < k < |members| ==> Precedes(members[i].0, members[k].0))
      && forall i :: 0 <= i < |members| ==> Ascends(members[i].1)
    case _ => true
  }

  lemma {:induction false} NormAscends(v: Value)
    requires IsValue(v)
    ensures Ascends(Norm(v))
    decreases v, 2
  {
    match v
    case Array(items) => ItemsAscend(items);
    case Object(members) =>
      MembersAscend(members);
      var norms := NormMembers(members);
      KeysOfNorms(members);
      SortSorts(norms);
      SortMembers(norms);
      var sorted := SortByKey(norms);
      forall i, k | 0 <= i < k < |sorted| ensures Precedes(sorted[i].0, sorted[k].0) { BeforeExactly(sorted[i].0, sorted[k].0); }
      forall i | 0 <= i < |sorted| ensures Ascends(sorted[i].1) {
        assert sorted[i] in sorted;
        var n :| 0 <= n < |norms| && norms[n] == sorted[i];
      }
    case _ =>
  }

  lemma {:induction false} ItemsAscend(items: seq<Value>)
    requires AreValues(items)
    ensures forall i :: 0 <= i < |items| ==> Ascends(NormItems(items)[i])
    decreases items, 0
  {
    hide Norm, Ascends, IsValue;
    if items != [] {
      NormAscends(items[0]);
      ItemsAscend(items[1..]);
    }
  }

  lemma {:induction false} MembersAscend(members: seq<(Text, Value)>)
    requires AreMembers(members)
    ensures forall i :: 0 <= i < |members| ==> Ascends(NormMembers(members)[i].1)
    decreases members, 0
  {
    hide Norm, Ascends, IsValue;
    if members != [] {
      MemberAscends(members[0]);
      MembersAscend(members[1..]);
    }
  }

  lemma {:induction false} MemberAscends(m: (Text, Value))
    requires IsMember(m)
    ensures Ascends(NormMember(m).1)
    decreases m, 1
  {
    NormAscends(m.1);
  }

  lemma {:induction false} KeysOfNorms(members: seq<(Text, Value)>)
    requires UniqueKeys(members)
    ensures UniqueKeys(NormMembers(members))
  {
    hide Norm;
    NormKeys(members);
  }

  lemma {:induction false} NormKeys(members: seq<(Text, Value)>)
    ensures forall i :: 0 <= i < |members| ==> NormMembers(members)[i].0 == members[i].0
  {
    hide Norm;
    if members != [] { NormKeys(members[1..]); }
  }

  /** In the canonical text, read in its order, the keys of every object ascend. */
  lemma {:induction false} CanonicalKeysAscend(v: Value, android: bool)
    requires IsValue(v) && InDomain(v, 0)
    ensures ParseStrict(Canonical(v, android)).Done? && Ascends(ParseStrict(Canonical(v, android)).value)
  {
    PrinterAndParserInvert(v, android);
    NormAscends(v);
  }

  /** Two values of the domain with one canonical text are the same value, key order apart. */
  lemma {:induction false} CanonicalIsInjective(a: Value, b: Value, android: bool)
    requires IsValue(a) && IsValue(b) && InDomain(a, 0) && InDomain(b, 0)
    requires Canonical(a, android) == Canonical(b, android)
    ensures Norm(a) == Norm(b)
  {
    PrinterAndParserInvert(a, android);
    PrinterAndParserInvert(b, android);
  }

  // ----- Key order -----

  lemma {:induction false} InsertSorted<T>(x: (Text, T), xs: seq<(Text, T)>)
    requires SortedByKey(xs) && x.0 !in Keys(xs)
    ensures SortedByKey(Insert(x, xs))
  {
    hide Before;
    if xs == [] || Before(x.0, xs[0].0) {
      var longer := [x] + xs;
      forall i, k | 0 <= i < k < |longer| ensures Before(longer[i].0, longer[k].0) {
        if i == 0 && k > 1 { BeforeIsTransitive(x.0, xs[0].0, xs[k - 1].0); }
      }
    } else {
      assert xs[0].0 in Keys(xs);
      BeforeIsTotal(x.0, xs[0].0);
      KeysSplit(xs);
      InsertSorted(x, xs[1..]);
      InsertUnique(x, xs[1..]);
      var rest := Insert(x, xs[1..]);
      forall k | 0 <= k < |rest| ensures Before(xs[0].0, rest[k].0) {
        assert rest[k].0 in Keys(rest);
        if rest[k].0 != x.0 {
          var m :| 0 <= m < |xs[1..]| && xs[1..][m].0 == rest[k].0;
          assert xs[m + 1].0 == rest[k].0;
        }
      }
    }
  }

  lemma {:induction false} SortSorts<T>(xs: seq<(Text, T)>)
    requires UniqueKeys(xs)
    ensures SortedByKey(SortByKey(xs))
  {
    if xs != [] {
      KeysSplit(xs);
      SortSorts(xs[1..]);
      SortMembers(xs[1..]);
      InsertSorted(xs[0], SortByKey(xs[1..]));
    }
  }

  lemma {:induction false} ObjectText(members: seq<(Text, Value)>, android: bool)
    ensures Canonical(Object(members), android) == [OPEN_OBJECT] + MembersText(members, android) + [CLOSE_OBJECT]
  {
  }

  /** Sorted lists with the same members are equal. */
  lemma {:induction false} SortedIsUnique<T>(a: seq<(Text, T)>, b: seq<(Text, T)>)
    requires SortedByKey(a) && SortedByKey(b) && |a| == |b| && forall x :: x in a <==> x in b
    ensures a == b
  {
    hide Before;
    if a != [] {
      assert a[0] in b && b[0] in a;
      var i :| 0 <= i < |b| && b[i] == a[0];
      var k :| 0 <= k < |a| && a[k] == b[0];
      BeforeIsTotal(a[0].0, b[0].0);
      FirstIsLeast(b, i);
      FirstIsLeast(a, k);
      assert a[0] == b[0];
      RestOfSorted(a, b);
      RestOfSorted(b, a);
      SortedIsUnique(a[1..], b[1..]);
      assert a == [a[0]] + a[1..] && b == [b[0]] + b[1..];
    }
  }

  lemma {:induction false} FirstIsLeast<T>(xs: seq<(Text, T)>, i: nat)
    requires SortedByKey(xs) && i < |xs|
    ensures xs[i] == xs[0] || Before(xs[0].0, xs[i].0)
  {
  }

  lemma {:induction false} RestOfSorted<T>(a: seq<(Text, T)>, b: seq<(Text, T)>)
    requires SortedByKey(a) && a != [] && b != [] && a[0] == b[0] && forall x :: x in a ==> x in b
    ensures forall x :: x in a[1..] ==> x in b[1..]
    ensures SortedByKey(a[1..])
  {
    hide Before;
    forall x | x in a[1..] ensures x in b[1..] {
      var i :| 0 <= i < |a[1..]| && a[1..][i] == x;
      assert a[i + 1] == x && Before(a[0].0, a[i + 1].0);
      BeforeIsTotal(a[0].0, a[0].0);
      assert x in b && x != b[0];
      assert b == [b[0]] + b[1..];
    }
    forall i, k | 0 <= i < k < |a[1..]| ensures Before(a[1..][i].0, a[1..][k].0) {
      assert Before(a[i + 1].0, a[k + 1].0);
    }
  }

  /** Sorting again changes nothing. */
  lemma {:induction false} SortTwice<T>(xs: seq<(Text, T)>)
    requires UniqueKeys(xs)
    ensures SortByKey(SortByKey(xs)) == SortByKey(xs)
  {
    hide UniqueKeys, SortedByKey, SortByKey;
    var once := SortByKey(xs);
    SortMembers(xs);
    SortMembers(once);
    SortSorts(xs);
    SortSorts(once);
    SortedIsUnique(SortByKey(once), once);
  }

  /** The order in which keys were put is exactly what the normal form of an object forgets. */
  lemma {:induction false} NormForgetsKeyOrder(a: seq<(Text, Value)>, b: seq<(Text, Value)>)
    requires UniqueKeys(a) && UniqueKeys(b) && |a| == |b| && forall m :: m in a <==> m in b
    ensures Norm(Object(a)) == Norm(Object(b))
  {
    hide UniqueKeys, SortByKey, SortedByKey, Norm;
    var x, y := NormMembers(a), NormMembers(b);
    SameNorms(a, b);
    SameNorms(b, a);
    SortMembers(x);
    SortMembers(y);
    SortSorts(x);
    SortSorts(y);
    SortedIsUnique(SortByKey(x), SortByKey(y));
    ObjectNorm(a);
    ObjectNorm(b);
  }

  lemma {:induction false} ObjectNorm(members: seq<(Text, Value)>)
    ensures Norm(Object(members)) == Object(SortByKey(NormMembers(members)))
  {
  }

  lemma {:induction false} SameNorms(a: seq<(Text, Value)>, b: seq<(Text, Value)>)
    requires UniqueKeys(a) && forall m :: m in a ==> m in b
    ensures UniqueKeys(NormMembers(a))
    ensures forall m :: m in NormMembers(a) ==> m in NormMembers(b)
  {
    hide Norm;
    PartsOf(a, false);
    PartsOf(b, false);
    var x, y := NormMembers(a), NormMembers(b);
    forall m | m in x ensures m in y {
      var i :| 0 <= i < |x| && x[i] == m;
      assert a[i] in b;
      var k :| 0 <= k < |b| && b[k] == a[i];
      assert y[k] == m;
    }
  }

  function TextOf(android: bool): Value -> Text { (v: Value) => Canonical(v, android) }

  lemma {:induction false} TextsOf(members: seq<(Text, Value)>, android: bool)
    ensures CanonicalMembers(members, android) == MapSecond(members, TextOf(android))
  {
    hide Canonical;
    forall i | 0 <= i < |members|
      ensures CanonicalMembers(members, android)[i] == MapSecond(members, TextOf(android))[i]
    {
      PartsAt(members, android, i);
    }
  }

  /** A normal form prints as the value does, at every depth. */
  lemma {:induction false} NormPrintsAlike(v: Value, android: bool)
    requires IsValue(v)
    ensures Canonical(Norm(v), android) == Canonical(v, android)
    decreases v, 2
  {
    hide CanonicalItems, CanonicalMembers, NormItems, NormMembers, SortByKey, UniqueKeys, JoinMembers, JoinItems;
    match v
    case Array(items) => NormItemsPrintAlike(items, android);
    case Object(members) =>
      NormMembersPrintAlike(members, android);
      SortedNormsPrintAlike(members, android);
    case _ =>
  }

  lemma {:induction false} NormItemsPrintAlike(items: seq<Value>, android: bool)
    requires AreValues(items)
    ensures CanonicalItems(NormItems(items), android) == CanonicalItems(items, android)
    decreases items, 0
  {
    hide Canonical, Norm;
    if items != [] {
      NormPrintsAlike(items[0], android);
      NormItemsPrintAlike(items[1..], android);
      assert NormItems(items)[1..] == NormItems(items[1..]);
    }
  }

  lemma {:induction false} NormMembersPrintAlike(members: seq<(Text, Value)>, android: bool)
    requires AreMembers(members)
    ensures CanonicalMembers(NormMembers(members), android) == CanonicalMembers(members, android)
    decreases members, 0
  {
    hide Canonical, Norm;
    if members != [] {
      NormMemberPrintsAlike(members[0], android);
      NormMembersPrintAlike(members[1..], android);
      assert NormMembers(members)[1..] == NormMembers(members[1..]);
    }
  }

  lemma {:induction false} NormMemberPrintsAlike(m: (Text, Value), android: bool)
    requires IsMember(m)
    ensures Canonical(Norm(m.1), android) == Canonical(m.1, android)
    decreases m, 1
  {
    hide Canonical, Norm;
    NormPrintsAlike(m.1, android);
  }

  lemma {:induction false} SortedNormsPrintAlike(members: seq<(Text, Value)>, android: bool)
    requires UniqueKeys(members)
    requires CanonicalMembers(NormMembers(members), android) == CanonicalMembers(members, android)
    ensures SortByKey(CanonicalMembers(SortByKey(NormMembers(members)), android))
         == SortByKey(CanonicalMembers(members, android))
  {
    hide Canonical, Norm, SortByKey, CanonicalMembers, NormMembers;
    var norms := NormMembers(members);
    TextsOf(norms, android);
    TextsOf(SortByKey(norms), android);
    MapSort(norms, TextOf(android));
    PartsOf(members, android);
    SortTwice(CanonicalMembers(members, android));
  }

  /** Values that differ in the order of their keys, at any depth, have one canonical text. */
  lemma {:induction false} KeyOrderDoesNotMatter(a: Value, b: Value, android: bool)
    requires IsValue(a) && IsValue(b) && Norm(a) == Norm(b)
    ensures Canonical(a, android) == Canonical(b, android)
  {
    NormPrintsAlike(a, android);
    NormPrintsAlike(b, android);
  }

  // ----- The android profile -----

  /** `canonical.replaceAll('/', '\\/')` */
  function EscapeSlashes(t: Text): Text {
    if t == [] then [] else (if t[0] == SLASH then [BACKSLASH, SLASH] else [t[0]]) + EscapeSlashes(t[1..])
  }

  lemma {:induction false} SlashesConcat(a: Text, b: Text)
    ensures EscapeSlashes(a + b) == EscapeSlashes(a) + EscapeSlashes(b)
  {
    if a == [] {
      assert a + b == b;
    } else {
      assert (a + b)[1..] == a[1..] + b;
      SlashesConcat(a[1..], b);
      var first := if a[0] == SLASH then [BACKSLASH, SLASH] else [a[0]];
      assert first + (EscapeSlashes(a[1..]) + EscapeSlashes(b)) == (first + EscapeSlashes(a[1..])) + EscapeSlashes(b);
    }
  }

  lemma {:induction false} NoSlash(t: Text)
    requires forall i :: 0 <= i < |t| ==> t[i] != SLASH
    ensures EscapeSlashes(t) == t
  {
    if t != [] {
      NoSlash(t[1..]);
      assert [t[0]] + t[1..] == t;
    }
  }

  lemma {:induction false} EscapeProfiles(u: Unit)
    ensures EscapeSlashes(Escape(u, false)) == Escape(u, true)
  {
    if u == SLASH {
      assert Escape(u, false)[1..] == [];
    } else {
      NoSlash(Escape(u, false));
    }
  }

  lemma {:induction false} EscapedProfiles(text: Text)
    ensures EscapeSlashes(Escaped(text, false)) == Escaped(text, true)
  {
    hide Escape, EscapeSlashes;
    if text != [] {
      EscapeProfiles(text[0]);
      EscapedProfiles(text[1..]);
      SlashesConcat(Escape(text[0], false), Escaped(text[1..], false));
    } else {
      NoSlash([]);
    }
  }

  lemma {:induction false} QuoteProfiles(text: Text)
    ensures EscapeSlashes(Quote(text, false)) == Quote(text, true)
  {
    hide Escaped, EscapeSlashes;
    EscapedProfiles(text);
    NoSlash([QUOTE]);
    SlashesConcat([QUOTE] + Escaped(text, false), [QUOTE]);
    SlashesConcat([QUOTE], Escaped(text, false));
  }

  lemma {:induction false} ItemsProfiles(plain: seq<Text>, escaped: seq<Text>)
    requires |plain| == |escaped| && forall i :: 0 <= i < |plain| ==> EscapeSlashes(plain[i]) == escaped[i]
    ensures EscapeSlashes(JoinItems(plain)) == JoinItems(escaped)
  {
    hide EscapeSlashes;
    if plain == [] {
      NoSlash([]);
    } else if |plain| > 1 {
      ItemsProfiles(plain[1..], escaped[1..]);
      NoSlash([COMMA]);
      SlashesConcat(plain[0] + [COMMA], JoinItems(plain[1..]));
      SlashesConcat(plain[0], [COMMA]);
    }
  }

  lemma {:induction false} MembersProfiles(plain: seq<(Text, Text)>, escaped: seq<(Text, Text)>)
    requires |plain| == |escaped|
    requires forall i :: 0 <= i < |plain| ==> plain[i].0 == escaped[i].0 && EscapeSlashes(plain[i].1) == escaped[i].1
    ensures EscapeSlashes(JoinMembers(plain, false)) == JoinMembers(escaped, true)
  {
    hide EscapeSlashes, Quote;
    if plain == [] {
      NoSlash([]);
    } else {
      var key, text := Quote(plain[0].0, false), plain[0].1;
      QuoteProfiles(plain[0].0);
      NoSlash([COLON]);
      SlashesConcat(key + [COLON], text);
      SlashesConcat(key, [COLON]);
      if |plain| > 1 {
        MembersProfiles(plain[1..], escaped[1..]);
        NoSlash([COMMA]);
        SlashesConcat(key + [COLON] + text + [COMMA], JoinMembers(plain[1..], false));
        SlashesConcat(key + [COLON] + text, [COMMA]);
      }
    }
  }

  /** The android text is the canonical text with every slash escaped. */
  lemma {:induction false} ProfilesAgree(v: Value)
    ensures EscapeSlashes(Canonical(v, false)) == Canonical(v, true)
    decreases v, 2
  {
    hide EscapeSlashes, SortByKey, JoinMembers, JoinItems, Quote;
    match v
    case String(text) => QuoteProfiles(text);
    case Array(items) =>
      ItemsAgree(items);
      ItemsProfiles(CanonicalItems(items, false), CanonicalItems(items, true));
      Bracketed(OPEN_ARRAY, JoinItems(CanonicalItems(items, false)), CLOSE_ARRAY);
    case Object(members) =>
      MembersAgree(members);
      SortedProfiles(members);
      MembersProfiles(SortByKey(CanonicalMembers(members, false)), SortByKey(CanonicalMembers(members, true)));
      Bracketed(OPEN_OBJECT, JoinMembers(SortByKey(CanonicalMembers(members, false)), false), CLOSE_OBJECT);
    case Number(n) =>
      DecimalDigits(if n < 0 then -n else n);
      NoSlash(NumberText(n));
    case Bool(b) => NoSlash(TRUE); NoSlash(FALSE);
    case Null => NoSlash(NULL);
  }

  lemma {:induction false} Bracketed(open: Unit, inner: Text, close: Unit)
    requires open != SLASH && close != SLASH
    ensures EscapeSlashes([open] + inner + [close]) == [open] + EscapeSlashes(inner) + [close]
  {
    hide EscapeSlashes;
    NoSlash([open]);
    NoSlash([close]);
    SlashesConcat([open] + inner, [close]);
    SlashesConcat([open], inner);
  }

  lemma {:induction false} ItemsAgree(items: seq<Value>)
    ensures forall i :: 0 <= i < |items| ==> EscapeSlashes(CanonicalItems(items, false)[i]) == CanonicalItems(items, true)[i]
    decreases items, 0
  {
    hide EscapeSlashes, Canonical;
    if items != [] {
      ProfilesAgree(items[0]);
      ItemsAgree(items[1..]);
    }
  }

  lemma {:induction false} MembersAgree(members: seq<(Text, Value)>)
    ensures forall i :: 0 <= i < |members| ==> EscapeSlashes(Canonical(members[i].1, false)) == Canonical(members[i].1, true)
    decreases members, 0
  {
    hide EscapeSlashes, Canonical;
    if members != [] {
      MemberAgrees(members[0]);
      MembersAgree(members[1..]);
      assert forall i :: 1 <= i < |members| ==> members[i] == members[1..][i - 1];
    }
  }

  lemma {:induction false} MemberAgrees(m: (Text, Value))
    ensures EscapeSlashes(Canonical(m.1, false)) == Canonical(m.1, true)
    decreases m, 1
  {
    ProfilesAgree(m.1);
  }

  /** Both profiles sort by the same, unescaped keys. */
  lemma {:induction false} SortedProfiles(members: seq<(Text, Value)>)
    requires forall i :: 0 <= i < |members| ==> EscapeSlashes(Canonical(members[i].1, false)) == Canonical(members[i].1, true)
    ensures var plain, escaped := SortByKey(CanonicalMembers(members, false)), SortByKey(CanonicalMembers(members, true));
            && |plain| == |escaped|
            && forall i :: 0 <= i < |plain| ==> plain[i].0 == escaped[i].0 && EscapeSlashes(plain[i].1) == escaped[i].1
  {
    hide EscapeSlashes, Canonical, SortByKey;
    PartsOf(members, false);
    PartsOf(members, true);
    var plain, escaped := CanonicalMembers(members, false), CanonicalMembers(members, true);
    assert escaped == MapSecond(plain, EscapeSlashes);
    MapSort(plain, EscapeSlashes);
  }

  /** So an android text parses to the same value as the plain one. */
  lemma {:induction false} AndroidTextParsesAlike(v: Value)
    requires IsValue(v)
    ensures ParseStrict(EscapeSlashes(Canonical(v, false))) == ParseStrict(Canonical(v, false))
  {
    ProfilesAgree(v);
    PrinterAndParserInvert(v, false);
    PrinterAndParserInvert(v, true);
  }
}
