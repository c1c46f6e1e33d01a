/**
 The strict parser (server/src/json.ts), which follows sections 4, 6 and 7 of RFC 8259 and
 adds its own refusals: duplicate keys, NUL, lone surrogates, numbers that are not safe
 integers, nesting deeper than 64. The functions read a text and return what is left; the
 class is the code's cursor over one text.
 */
module JsonParser {
  import opened Json
  import Numbers = JsonNumbers

  datatype Parsed<T> = Fail | Done(value: T, rest: Text)

  predicate IsSpace(u: Unit) { u in {0x20, 0x09, 0x0D, 0x0A} }

  function Skip(s: Text): (rest: Text)
    ensures |rest| <= |s| && (rest != [] ==> !IsSpace(rest[0]))
    ensures s != [] && !IsSpace(s[0]) ==> rest == s
  {
    if s != [] && IsSpace(s[0]) then Skip(s[1..]) else s
  }

  predicate Starts(s: Text, u: Unit) { s != [] && s[0] == u }

  // ----- Strings -----

  function HexValue(u: Unit): int {
    if 0x30 <= u <= 0x39 then u - 0x30
    else if 0x41 <= u <= 0x46 then u - 0x41 + 10
    else if 0x61 <= u <= 0x66 then u - 0x61 + 10
    else -1
  }

  predicate FourHex(s: Text) { |s| >= 4 && forall i :: 0 <= i < 4 ==> HexValue(s[i]) >= 0 }

  function HexUnit(s: Text): Unit
    requires FourHex(s)
  {
    assert HexValue(s[0]) < 16 && HexValue(s[1]) < 16 && HexValue(s[2]) < 16 && HexValue(s[3]) < 16;
    HexValue(s[0]) * 4096 + HexValue(s[1]) * 256 + HexValue(s[2]) * 16 + HexValue(s[3])
  }

  /** One escape, after its backslash. */
  function Unescape(s: Text): (r: Parsed<Unit>)
    ensures r.Done? ==> |r.rest| < |s|
  {
    if s == [] then Fail
    else if s[0] == QUOTE || s[0] == BACKSLASH || s[0] == SLASH then Done(s[0], s[1..])
    else if s[0] == 0x62 then Done(0x08, s[1..])
    else if s[0] == 0x66 then Done(0x0C, s[1..])
    else if s[0] == 0x6E then Done(0x0A, s[1..])
    else if s[0] == 0x72 then Done(0x0D, s[1..])
    else if s[0] == 0x74 then Done(0x09, s[1..])
    else if s[0] == 0x75 && FourHex(s[1..]) then Done(HexUnit(s[1..]), s[5..])
    else Fail
  }

  /** The characters of a string up to and including its closing quote. */
  function ParseChars(s: Text): (r: Parsed<Text>)
    ensures r.Done? ==> |r.rest| < |s|
  {
    if s == [] then Fail
    else if s[0] == QUOTE then Done([], s[1..])
    else if s[0] == BACKSLASH then
      match Unescape(s[1..])
      case Fail => Fail
      case Done(u, rest) => Prepend(u, ParseChars(rest))
    else if s[0] < 0x20 then Fail
    else Prepend(s[0], ParseChars(s[1..]))
  }

  function Prepend(u: Unit, r: Parsed<Text>): Parsed<Text> {
    match r case Fail => Fail case Done(text, rest) => Done([u] + text, rest)
  }

  /** A string from its opening quote on; its decoded text must be well formed. */
  function ParseString(s: Text): (r: Parsed<Text>)
    ensures r.Done? ==> |r.rest| < |s|
  {
    if !Starts(s, QUOTE) then Fail
    else match ParseChars(s[1..])
      case Fail => Fail
      case Done(text, rest) => if WellFormedText(text) then Done(text, rest) else Fail
  }

  // ----- Numbers -----

  predicate IsDigit(u: Unit) { 0x30 <= u <= 0x39 }

  function CountDigits(s: Text): (n: nat)
    ensures n <= |s|
    ensures forall i :: 0 <= i < n ==> IsDigit(s[i])
    ensures n < |s| ==> !IsDigit(s[n])
  {
    if s != [] && IsDigit(s[0]) then 1 + CountDigits(s[1..]) else 0
  }

  predicate AllDigits(s: Text) { forall i :: 0 <= i < |s| ==> IsDigit(s[i]) }

  function DigitsOf(s: Text): (d: Numbers.Digits)
    ensures |d| == |s| && (AllDigits(s) ==> Numbers.AreDigits(d))
  {
    seq(|s|, i requires 0 <= i < |s| => s[i] - ZERO)
  }

  /** `0|[1-9]\d*` */
  function ScanWhole(s: Text): (r: Parsed<Numbers.Digits>)
    ensures r.Done? ==> |r.rest| < |s| && r.value != [] && Numbers.AreDigits(r.value)
  {
    if s == [] || !IsDigit(s[0]) then Fail
    else
      var n := if s[0] == ZERO then 1 else CountDigits(s);
      assert AllDigits(s[..n]);
      Done(DigitsOf(s[..n]), s[n..])
  }

  /** `(?:\.\d+)?`: a point without digits is no fraction. */
  function ScanFraction(s: Text): (r: (Numbers.Digits, Text))
    ensures |r.1| <= |s| && Numbers.AreDigits(r.0)
  {
    var n := if Starts(s, 0x2E) then CountDigits(s[1..]) else 0;
    if n == 0 then ([], s)
    else
      assert AllDigits(s[1..][..n]);
      (DigitsOf(s[1..][..n]), s[1..][n..])
  }

  function SkipMinus(s: Text): (rest: Text)
    ensures |rest| <= |s|
  {
    if Starts(s, MINUS) then s[1..] else s
  }

  /** `-?(?:0|[1-9]\d*)(?:\.\d+)?(?:[eE][+-]?\d+)?`, the longest match. */
  function ScanNumber(s: Text): (r: Parsed<Numbers.Token>)
    ensures r.Done? ==> |r.rest| < |s| && Numbers.IsToken(r.value)
  {
    match ScanWhole(SkipMinus(s))
    case Fail => Fail
    case Done(whole, rest) =>
      var fraction := ScanFraction(rest);
      var exponent := ScanExponent(fraction.1);
      Done(Numbers.Token(Starts(s, MINUS), whole, fraction.0, exponent.0), exponent.1)
  }

  /** The exponent and what is left; an incomplete exponent is no exponent. */
  function ScanExponent(s: Text): (r: (int, Text))
    ensures |r.1| <= |s|
  {
    if !(Starts(s, 0x65) || Starts(s, 0x45)) then (0, s)
    else
      var signed := |s| > 1 && s[1] in {0x2B, MINUS};
      var from := if signed then 2 else 1;
      var n := CountDigits(s[from..]);
      if n == 0 then (0, s)
      else
        assert forall i :: 0 <= i < n ==> IsDigit(s[from..][..n][i]);
        var v: int := Numbers.Value(DigitsOf(s[from..][..n]));
        (if signed && s[1] == MINUS then -v else v, s[from + n..])
  }

  /** A number is accepted when its exact value is a safe integer: see Numbers.AcceptedExactly. */
  function ParseNumber(s: Text): (r: Parsed<Value>)
    ensures r.Done? ==> |r.rest| < |s|
  {
    match ScanNumber(s)
    case Fail => Fail
    case Done(token, rest) =>
      if Numbers.IsWhole(token) && -MAX_SAFE <= Numbers.WholeValue(token) <= MAX_SAFE
      then Done(Number(Numbers.WholeValue(token)), rest) else Fail
  }

  // ----- Values -----

  function ParseLiteral(s: Text): (r: Parsed<Value>)
    ensures r.Done? ==> |r.rest| < |s|
  {
    if TRUE <= s then Done(Bool(true), s[4..])
    else if FALSE <= s then Done(Bool(false), s[5..])
    else if NULL <= s then Done(Null, s[4..])
    else ParseNumber(s)
  }

  function ParseValue(s: Text, depth: int): (r: Parsed<Value>)
    ensures r.Done? ==> |r.rest| < |s|
    decreases |s|, 1
  {
    var t := Skip(s);
    if depth > MAX_DEPTH || t == [] then Fail
    else if t[0] == QUOTE then
      match ParseString(t) case Fail => Fail case Done(text, rest) => Done(String(text), rest)
    else if t[0] == OPEN_ARRAY then
      var u := Skip(t[1..]);
      if Starts(u, CLOSE_ARRAY) then Done(Array([]), u[1..])
      else match ParseItems(u, depth + 1) case Fail => Fail case Done(items, rest) => Done(Array(items), rest)
    else if t[0] == OPEN_OBJECT then
      var u := Skip(t[1..]);
      if Starts(u, CLOSE_OBJECT) then Done(Object([]), u[1..])
      else match ParseMembers(u, depth + 1, {}) case Fail => Fail case Done(members, rest) => Done(Object(members), rest)
    else ParseLiteral(t)
  }

  /** The values of an array up to and including its closing bracket. */
  function ParseItems(s: Text, depth: int): (r: Parsed<seq<Value>>)
    ensures r.Done? ==> |r.rest| < |s|
    decreases |s|, 2
  {
    match ParseValue(s, depth)
    case Fail => Fail
    case Done(v, rest) =>
      var t := Skip(rest);
      if Starts(t, CLOSE_ARRAY) then Done([v], t[1..])
      else if Starts(t, COMMA) then
        match ParseItems(Skip(t[1..]), depth) case Fail => Fail case Done(items, rest) => Done([v] + items, rest)
      else Fail
  }

  /** One member: a key not met before, a colon, a value. */
  function ParseMember(s: Text, depth: int, keys: set<Text>): (r: Parsed<(Text, Value)>)
    ensures r.Done? ==> |r.rest| < |s|
    decreases |s|, 2
  {
    match ParseString(s)
    case Fail => Fail
    case Done(key, rest) =>
      var t := Skip(rest);
      if key in keys || !Starts(t, COLON) then Fail
      else match ParseValue(t[1..], depth) case Fail => Fail case Done(v, rest) => Done((key, v), rest)
  }

  /** The members of an object up to and including its closing brace; no key twice. */
  function ParseMembers(s: Text, depth: int, keys: set<Text>): (r: Parsed<seq<(Text, Value)>>)
    ensures r.Done? ==> |r.rest| < |s|
    decreases |s|, 3
  {
    match ParseMember(s, depth, keys)
    case Fail => Fail
    case Done(m, rest) =>
      var u := Skip(rest);
      if Starts(u, CLOSE_OBJECT) then Done([m], u[1..])
      else if Starts(u, COMMA) then
        match ParseMembers(Skip(u[1..]), depth, keys + {m.0})
        case Fail => Fail
        case Done(members, rest) => Done([m] + members, rest)
      else Fail
  }

  function ParseStrict(raw: Text): Parsed<Value> {
    match ParseValue(raw, 0)
    case Fail => Fail
    case Done(v, rest) => if Skip(rest) == [] then Done(v, []) else Fail
  }
}
