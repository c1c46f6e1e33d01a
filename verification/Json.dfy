/**
 JSON values and their canonical text (native/android/SyncProtocol.kt:15-38,
 src/utils/ledgerCanonicalization.ts:5-8). Text is a sequence of UTF-16 code units.
 Numbers are integers, the only ones the journal uses.
 */
module Json {

  /** A code unit; the constructors below keep it between 0 and 0xFFFF. */
  type Unit = n: int | 0 <= n < 0x1_0000

  type Text = seq<Unit>

  datatype Value =
    | Null
    | Bool(b: bool)
    | Number(n: int)
    | String(text: Text)
    | Array(items: seq<Value>)
    | Object(members: seq<(Text, Value)>)

  const QUOTE: Unit := 0x22
  const BACKSLASH: Unit := 0x5C
  const SLASH: Unit := 0x2F
  const COMMA: Unit := 0x2C
  const COLON: Unit := 0x3A
  const MINUS: Unit := 0x2D
  const OPEN_ARRAY: Unit := 0x5B
  const CLOSE_ARRAY: Unit := 0x5D
  const OPEN_OBJECT: Unit := 0x7B
  const CLOSE_OBJECT: Unit := 0x7D
  const ZERO: Unit := 0x30

  // ----- Key order -----

  /** `sorted()`: code unit by code unit, a prefix first. */
  predicate Before(a: Text, b: Text) {
    if b == [] then false
    else if a == [] then true
    else if a[0] != b[0] then a[0] < b[0]
    else Before(a[1..], b[1..])
  }

  /** A proper prefix, or a smaller unit where the texts first differ. */
  ghost predicate Precedes(a: Text, b: Text) {
    (|a| < |b| && AgreeUpTo(a, b, |a|)) || exists p: nat :: SmallerAt(a, b, p)
  }

  predicate AgreeUpTo(a: Text, b: Text, n: nat)
    requires n <= |a| && n <= |b|
  {
    forall k :: 0 <= k < n ==> a[k] == b[k]
  }

  predicate SmallerAt(a: Text, b: Text, p: nat) { p < |a| && p < |b| && AgreeUpTo(a, b, p) && a[p] < b[p] }

  lemma {:induction false} BeforeExactly(a: Text, b: Text)
    ensures Before(a, b) <==> Precedes(a, b)
  {
    if a != [] && b != [] && a[0] == b[0] {
      var c, d := a[1..], b[1..];
      BeforeExactly(c, d);
      forall p: nat | p < |a| && p < |b| ensures AgreeUpTo(c, d, p) <==> AgreeUpTo(a, b, p + 1) {
        LaterAgree(a, b, p);
      }
      if |a| <= |b| { LaterAgree(a, b, |c|); }
      if p: nat :| SmallerAt(c, d, p) { assert SmallerAt(a, b, p + 1); }
      if p: nat :| SmallerAt(a, b, p) { assert SmallerAt(c, d, p - 1); }
    } else if a != [] && b != [] {
      if a[0] < b[0] { assert SmallerAt(a, b, 0); }
      assert forall p: nat :: SmallerAt(a, b, p) ==> p == 0;
    }
  }

  lemma {:induction false} LaterAgree(a: Text, b: Text, p: nat)
    requires p < |a| && p < |b| && a[0] == b[0]
    ensures AgreeUpTo(a[1..], b[1..], p) <==> AgreeUpTo(a, b, p + 1)
  {
    var c, d := a[1..], b[1..];
    if AgreeUpTo(c, d, p) {
      forall k | 0 <= k < p + 1 ensures a[k] == b[k] {
        assert k == 0 || (a[k] == c[k - 1] && b[k] == d[k - 1]);
      }
    }
    if AgreeUpTo(a, b, p + 1) {
      forall k | 0 <= k < p ensures c[k] == d[k] {
        assert c[k] == a[k + 1] && d[k] == b[k + 1];
      }
    }
  }

  lemma {:induction false} BeforeIsTotal(a: Text, b: Text)
    ensures a == b || Before(a, b) || Before(b, a)
    ensures !(Before(a, b) && Before(b, a))
    ensures !Before(a, a)
  {
    if a != [] && b != [] && a[0] == b[0] {
      BeforeIsTotal(a[1..], b[1..]);
      assert a == [a[0]] + a[1..] && b == [b[0]] + b[1..];
    }
    if a != [] && (b == [] || a[0] != b[0]) {
      BeforeIsTotal(a[1..], a[1..]);
    }
  }

  lemma {:induction false} BeforeIsTransitive(a: Text, b: Text, c: Text)
    requires Before(a, b) && Before(b, c)
    ensures Before(a, c)
  {
    if a != [] && a[0] == b[0] == c[0] {
      BeforeIsTransitive(a[1..], b[1..], c[1..]);
    }
  }

  function Insert<T>(x: (Text, T), xs: seq<(Text, T)>): seq<(Text, T)> {
    if xs == [] || Before(x.0, xs[0].0) then [x] + xs else [xs[0]] + Insert(x, xs[1..])
  }

  function SortByKey<T>(xs: seq<(Text, T)>): seq<(Text, T)> {
    if xs == [] then [] else Insert(xs[0], SortByKey(xs[1..]))
  }

  predicate UniqueKeys<T>(xs: seq<(Text, T)>) {
    forall i, k :: 0 <= i < k < |xs| ==> xs[i].0 != xs[k].0
  }

  ghost predicate SortedByKey<T>(xs: seq<(Text, T)>) {
    forall i, k :: 0 <= i < k < |xs| ==> Before(xs[i].0, xs[k].0)
  }

  // ----- The printer -----

  function HexDigit(d: int): Unit
    requires 0 <= d < 16
  {
    if d < 10 then ZERO + d else 0x61 + d - 10
  }

  /** One code unit inside a string; the android profile also escapes the slash. */
  function Escape(u: Unit, android: bool): Text {
    if u == QUOTE then [BACKSLASH, QUOTE]
    else if u == BACKSLASH then [BACKSLASH, BACKSLASH]
    else if u == SLASH && android then [BACKSLASH, SLASH]
    else if u == 0x08 then [BACKSLASH, 0x62]
    else if u == 0x0C then [BACKSLASH, 0x66]
    else if u == 0x0A then [BACKSLASH, 0x6E]
    else if u == 0x0D then [BACKSLASH, 0x72]
    else if u == 0x09 then [BACKSLASH, 0x74]
    else if u < 32 then [BACKSLASH, 0x75, ZERO, ZERO, HexDigit(u / 16), HexDigit(u % 16)]
    else [u]
  }

  function Escaped(text: Text, android: bool): Text {
    if text == [] then [] else Escape(text[0], android) + Escaped(text[1..], android)
  }

  function Quote(text: Text, android: bool): Text { [QUOTE] + Escaped(text, android) + [QUOTE] }

  function DecimalText(n: nat): Text {
    if n < 10 then [ZERO + n] else DecimalText(n / 10) + [ZERO + n % 10]
  }

  function NumberText(n: int): Text { if n < 0 then [MINUS] + DecimalText(-n) else DecimalText(n) }

  const TRUE: Text := [0x74, 0x72, 0x75, 0x65]
  const FALSE: Text := [0x66, 0x61, 0x6C, 0x73, 0x65]
  const NULL: Text := [0x6E, 0x75, 0x6C, 0x6C]

  function Canonical(v: Value, android: bool): Text
    decreases v, 2
  {
    match v
    case Null => NULL
    case Bool(b) => if b then TRUE else FALSE
    case Number(n) => NumberText(n)
    case String(text) => Quote(text, android)
    case Array(items) => [OPEN_ARRAY] + JoinItems(CanonicalItems(items, android)) + [CLOSE_ARRAY]
    case Object(members) => [OPEN_OBJECT] + JoinMembers(SortByKey(CanonicalMembers(members, android)), android) + [CLOSE_OBJECT]
  }

  function CanonicalItems(items: seq<Value>, android: bool): (texts: seq<Text>)
    ensures |texts| == |items|
    decreases items, 0
  {
    if items == [] then [] else [Canonical(items[0], android)] + CanonicalItems(items[1..], android)
  }

  function CanonicalMembers(members: seq<(Text, Value)>, android: bool): (texts: seq<(Text, Text)>)
    ensures |texts| == |members|
    decreases members, 0
  {
    if members == [] then [] else [CanonicalMember(members[0], android)] + CanonicalMembers(members[1..], android)
  }

  function CanonicalMember(m: (Text, Value), android: bool): (Text, Text)
    decreases m, 1
  {
    (m.0, Canonical(m.1, android))
  }

  function JoinItems(texts: seq<Text>): Text {
    if texts == [] then [] else if |texts| == 1 then texts[0] else texts[0] + [COMMA] + JoinItems(texts[1..])
  }

  function JoinMembers(members: seq<(Text, Text)>, android: bool): Text {
    if members == [] then []
    else
      var first := Quote(members[0].0, android) + [COLON] + members[0].1;
      if |members| == 1 then first else first + [COMMA] + JoinMembers(members[1..], android)
  }

  // ----- The value a text stands for: key order does not matter -----

  function Norm(v: Value): Value
    decreases v, 2
  {
    match v
    case Array(items) => Array(NormItems(items))
    case Object(members) => Object(SortByKey(NormMembers(members)))
    case _ => v
  }

  function NormItems(items: seq<Value>): (norms: seq<Value>)
    ensures |norms| == |items|
    decreases items, 0
  {
    if items == [] then [] else [Norm(items[0])] + NormItems(items[1..])
  }

  function NormMembers(members: seq<(Text, Value)>): (norms: seq<(Text, Value)>)
    ensures |norms| == |members|
    decreases members, 0
  {
    if members == [] then [] else [NormMember(members[0])] + NormMembers(members[1..])
  }

  function NormMember(m: (Text, Value)): (Text, Value)
    decreases m, 1
  {
    (m.0, Norm(m.1))
  }

  // ----- The domain of the strict parser -----

  const MAX_DEPTH := 64
  const MAX_SAFE: int := 9007199254740991

  predicate HighSurrogate(u: Unit) { 0xD800 <= u <= 0xDBFF }

  predicate LowSurrogate(u: Unit) { 0xDC00 <= u <= 0xDFFF }

  /** No NUL and no surrogate outside a pair. */
  predicate WellFormedText(text: Text) {
    if text == [] then true
    else if text[0] == 0 || LowSurrogate(text[0]) then false
    else if HighSurrogate(text[0]) then |text| > 1 && LowSurrogate(text[1]) && WellFormedText(text[2..])
    else WellFormedText(text[1..])
  }

  /** Objects hold each key once, as every JSONObject does. */
  predicate IsValue(v: Value)
    decreases v, 2
  {
    match v
    case Array(items) => AreValues(items)
    case Object(members) => UniqueKeys(members) && AreMembers(members)
    case _ => true
  }

  predicate AreValues(items: seq<Value>)
    decreases items, 0
  {
    items == [] || (IsValue(items[0]) && AreValues(items[1..]))
  }

  predicate AreMembers(members: seq<(Text, Value)>)
    decreases members, 0
  {
    members == [] || (IsMember(members[0]) && AreMembers(members[1..]))
  }

  predicate IsMember(m: (Text, Value))
    decreases m, 1
  {
    IsValue(m.1)
  }

  predicate InDomain(v: Value, depth: int)
    decreases v, 2
  {
    && depth <= MAX_DEPTH
    && match v
       case Null => true
       case Bool(_) => true
       case Number(n) => -MAX_SAFE <= n <= MAX_SAFE
       case String(text) => WellFormedText(text)
       case Array(items) => ItemsInDomain(items, depth + 1)
       case Object(members) => MembersInDomain(members, depth + 1)
  }

  predicate ItemsInDomain(items: seq<Value>, depth: int)
    decreases items, 0
  {
    items == [] || (InDomain(items[0], depth) && ItemsInDomain(items[1..], depth))
  }

  predicate MembersInDomain(members: seq<(Text, Value)>, depth: int)
    decreases members, 0
  {
    members == [] || (MemberInDomain(members[0], depth) && MembersInDomain(members[1..], depth))
  }

  predicate MemberInDomain(m: (Text, Value), depth: int)
    decreases m, 1
  {
    WellFormedText(m.0) && InDomain(m.1, depth)
  }
}
