/**
 The strict parser as the code runs it (server/src/json.ts:5-101): one cursor over one
 text, advanced by loops. Each method is proved to read what the parsing functions read.
 */
module JsonCursor {
  import opened Json
  import opened JsonParser
  import Grammar = JsonGrammar
  import Numbers = JsonNumbers

  // ----- Finding the end of a string -----

  datatype End = NoEnd | EndAt(n: nat)

  function Later(k: nat, e: End): End { match e case NoEnd => NoEnd case EndAt(n) => EndAt(k + n) }

  /** Where the scan stops: behind the first quote that no backslash precedes. */
  function ScanEnd(s: Text): (e: End)
    ensures e.EndAt? ==> 0 < e.n <= |s|
  {
    if s == [] then NoEnd
    else if s[0] == QUOTE then EndAt(1)
    else if s[0] == BACKSLASH then if |s| < 2 then NoEnd else Later(2, ScanEnd(s[2..]))
    else Later(1, ScanEnd(s[1..]))
  }

  lemma {:induction false} ScanStep(s: Text, at: nat)
    requires at < |s|
    ensures ScanEnd(s[at..])
         == if s[at] == QUOTE then EndAt(1)
            else if s[at] != BACKSLASH then Later(1, ScanEnd(s[at + 1..]))
            else if at + 2 <= |s| then Later(2, ScanEnd(s[at + 2..])) else NoEnd
  {
    var t := s[at..];
    assert t[1..] == s[at + 1..];
    if at + 2 <= |s| { assert t[2..] == s[at + 2..]; }
  }

  lemma {:induction false} ScanNothing()
    ensures ScanEnd([]) == NoEnd
  {
  }

  lemma {:induction false} HexIsPlain(s: Text)
    requires FourHex(s)
    ensures ScanEnd(s) == Later(4, ScanEnd(s[4..]))
  {
    var a, b, c := s[1..], s[2..], s[3..];
    assert a[1..] == b && b[1..] == c && c[1..] == s[4..];
    assert s[0] != QUOTE && a[0] != QUOTE && b[0] != QUOTE && c[0] != QUOTE;
    assert s[0] != BACKSLASH && a[0] != BACKSLASH && b[0] != BACKSLASH && c[0] != BACKSLASH;
    assert ScanEnd(s) == Later(1, ScanEnd(a)) && ScanEnd(a) == Later(1, ScanEnd(b));
    assert ScanEnd(b) == Later(1, ScanEnd(c)) && ScanEnd(c) == Later(1, ScanEnd(s[4..]));
  }

  lemma {:induction false} HexInPart(t: Text, e: nat)
    requires 2 <= e <= |t| + 1
    ensures t[..e - 1][0] == t[0] && (FourHex(t[..e - 1][1..]) ==> FourHex(t[1..]))
  {
    assert forall i :: 0 <= i < |t[..e - 1][1..]| ==> t[..e - 1][1..][i] == t[1..][i];
  }

  /** An escape read from a text is read alike from the part up to the end of the string. */
  lemma {:induction false} UnescapeWithin(s: Text, e: nat)
    requires ScanEnd(s) == EndAt(e) && s != [] && s[0] == BACKSLASH
    ensures match Unescape(s[1..])
            case Fail => Unescape(s[..e][1..]).Fail?
            case Done(u, rest) =>
              && |s| - |rest| < e && ScanEnd(rest) == EndAt(e - (|s| - |rest|)) && s[|s| - |rest|..] == rest
              && Unescape(s[..e][1..]) == Done(u, rest[..e - (|s| - |rest|)])
  {
    var t := s[1..];
    assert s[2..] == t[1..];
    assert s[..e][1..] == t[..e - 1];
    match Unescape(t)
    case Fail =>
      if t[0] == 0x75 {
        HexInPart(t, e);
      }
    case Done(u, rest) =>
      if t[0] == 0x75 {
        HexIsPlain(t[1..]);
        assert t[1..][4..] == rest == s[6..];
        assert t[..e - 1][1..] == t[1..][..e - 2];
        assert forall i :: 0 <= i < 4 ==> t[1..][..e - 2][i] == t[1..][i];
        assert t[..e - 1][5..] == rest[..e - 6];
      } else {
        assert rest == s[2..] && t[..e - 1][1..] == rest[..e - 2];
      }
  }

  /** Decoding the slice up to the end found by the scan is decoding the text. */
  lemma {:induction false} ScanThenDecode(s: Text)
    ensures ParseChars(s).Done? ==> ScanEnd(s).EndAt?
    ensures ScanEnd(s).EndAt? ==> DecodesAlike(s, ScanEnd(s).n)
    decreases |s|
  {
    if s == [] || s[0] == QUOTE {
      if s != [] { assert s[..1][0] == QUOTE && s[..1][1..] == []; }
    } else if s[0] == BACKSLASH {
      match Unescape(s[1..])
      case Fail =>
        if ScanEnd(s).EndAt? { UnescapeWithin(s, ScanEnd(s).n); assert s[..ScanEnd(s).n][0] == BACKSLASH; }
      case Done(u, rest) =>
        ScanThenDecode(rest);
        EscapeScans(s, rest);
        if ScanEnd(s).EndAt? {
          var e := ScanEnd(s).n;
          UnescapeWithin(s, e);
          var k := |s| - |rest|;
          assert s[..e][0] == BACKSLASH;
          assert rest[e - k..] == s[e..];
        }
    } else {
      ScanThenDecode(s[1..]);
      if ScanEnd(s).EndAt? {
        var e := ScanEnd(s).n;
        assert s[..e][0] == s[0] && s[..e][1..] == s[1..][..e - 1];
        assert s[1..][e - 1..] == s[e..];
      }
    }
  }

  ghost predicate DecodesAlike(s: Text, e: nat)
    requires e <= |s|
  {
    match ParseChars(s[..e])
    case Fail => ParseChars(s).Fail?
    case Done(text, rest) => rest == [] && ParseChars(s) == Done(text, s[e..])
  }

  lemma {:induction false} EscapeScans(s: Text, rest: Text)
    requires s != [] && s[0] == BACKSLASH && Unescape(s[1..]).Done? && rest == Unescape(s[1..]).rest
    ensures ScanEnd(s) == Later(|s| - |rest|, ScanEnd(rest))
  {
    var t := s[1..];
    assert s[2..] == t[1..];
    if t[0] == 0x75 {
      HexIsPlain(t[1..]);
      assert t[1..][4..] == rest;
    }
  }

  // ----- The cursor -----

  function PrependItems(items: seq<Value>, r: Parsed<seq<Value>>): Parsed<seq<Value>> {
    match r case Fail => Fail case Done(more, rest) => Done(items + more, rest)
  }

  function PrependMembers(members: seq<(Text, Value)>, r: Parsed<seq<(Text, Value)>>): Parsed<seq<(Text, Value)>> {
    match r case Fail => Fail case Done(more, rest) => Done(members + more, rest)
  }

  class Cursor {
    const raw: Text
    /** Number(): the rounding of the JavaScript engine. */
    const round: real -> real
    var at: nat

    ghost predicate Valid()
      reads this
    {
      at <= |raw| && Numbers.Faithful(round)
    }

    constructor (text: Text, rounding: real -> real)
      requires Numbers.Faithful(rounding)
      ensures Valid() && raw == text && round == rounding && at == 0
    {
      raw, round, at := text, rounding, 0;
    }

    method Whitespace()
      requires Valid()
      modifies `at
      ensures Valid() && old(at) <= at && raw[at..] == Skip(raw[old(at)..])
    {
      while at < |raw| && IsSpace(raw[at])
        invariant old(at) <= at <= |raw| && Skip(raw[at..]) == Skip(raw[old(at)..])
      {
        assert raw[at..][1..] == raw[at + 1..];
        at := at + 1;
      }
    }

    predicate Sees(u: Unit)
      requires at <= |raw|
      reads this
    {
      at < |raw| && raw[at] == u
    }

    /** The scan: the cursor moves behind the closing quote, or the text ends first. */
    method ScanString() returns (closed: bool)
      requires Valid() && at < |raw| && raw[at] == QUOTE
      modifies `at
      ensures Valid() && old(at) < at
      ensures ScanEnd(raw[old(at) + 1..]) == if closed then EndAt(at - (old(at) + 1)) else NoEnd
    {
      hide ScanEnd;
      var start := at;
      at := at + 1;
      while at < |raw|
        invariant start < at <= |raw|
        invariant ScanEnd(raw[start + 1..]) == Later(at - (start + 1), ScanEnd(raw[at..]))
      {
        ScanStep(raw, at);
        var c := raw[at];
        at := at + 1;
        if c == BACKSLASH {
          if at == |raw| { return false; }
          at := at + 1;
        } else if c == QUOTE {
          return true;
        }
      }
      ScanNothing();
      assert raw[at..] == [];
      return false;
    }

    /** The scan to the closing quote, the decoding of the slice and the checks on its units. */
    method ReadString() returns (result: Parsed<Text>)
      requires Valid() && at < |raw|
      modifies `at
      ensures Valid()
      ensures result == ParseString(raw[old(at)..])
      ensures result.Done? ==> old(at) < at && raw[at..] == result.rest
    {
      hide ParseChars, WellFormedText, ScanEnd;
      var start := at;
      if raw[at] != QUOTE { return Fail; }
      ScanThenDecode(raw[start + 1..]);
      var closed := ScanString();
      assert raw[start..][1..] == raw[start + 1..];
      if !closed { return Fail; }
      ghost var e := at - (start + 1);
      assert raw[start + 1..][..e] == raw[start + 1..at] && raw[start + 1..][e..] == raw[at..];
      match ParseChars(raw[start + 1..at])
      case Fail => return Fail;
      case Done(text, _) =>
        var fine := CheckUnits(text);
        if !fine { return Fail; }
        return Done(text, raw[at..]);
    }

    static method CheckUnits(text: Text) returns (ok: bool)
      ensures ok == WellFormedText(text)
    {
      var i := 0;
      while i < |text|
        invariant 0 <= i <= |text| && WellFormedText(text) == WellFormedText(text[i..])
      {
        var unit := text[i];
        assert text[i..][1..] == text[i + 1..];
        if unit == 0 { return false; }
        if 0xD800 <= unit <= 0xDBFF {
          i := i + 1;
          if !(i < |text| && 0xDC00 <= text[i] <= 0xDFFF) { return false; }
          assert text[i - 1..][1] == text[i] && text[i - 1..][2..] == text[i + 1..];
        } else if 0xDC00 <= unit <= 0xDFFF {
          return false;
        }
        i := i + 1;
      }
      return true;
    }

    /** A literal or a number token: the whole text of it is consumed. */
    method ReadToken() returns (result: Parsed<Value>)
      requires Valid()
      modifies `at
      ensures Valid()
      ensures result == ParseLiteral(raw[old(at)..])
      ensures result.Done? ==> old(at) < at && raw[at..] == result.rest
    {
      hide ScanNumber;
      var s := raw[at..];
      if TRUE <= s { at := at + 4; assert s[4..] == raw[at..]; return Done(Bool(true), raw[at..]); }
      if FALSE <= s { at := at + 5; assert s[5..] == raw[at..]; return Done(Bool(false), raw[at..]); }
      if NULL <= s { at := at + 4; assert s[4..] == raw[at..]; return Done(Null, raw[at..]); }
      match ScanNumber(s)
      case Fail => return Fail;
      case Done(token, rest) =>
        Numbers.AcceptedExactly(token, round);
        NumberByTest(token, round);
        if !Numbers.Accepts(token, round) { return Fail; }
        RestIsSuffix(s, rest);
        at := at + (|s| - |rest|);
        return Done(Number(round(Numbers.Exact(token)).Floor), raw[at..]);
    }

    /** `value(depth)`. */
    method ReadValue(depth: nat) returns (result: Parsed<Value>)
      requires Valid()
      modifies `at
      ensures Valid()
      ensures result == ParseValue(raw[old(at)..], depth)
      ensures result.Done? ==> old(at) < at && raw[at..] == result.rest
      decreases |raw| - at, 0
    {
      hide ParseValue, ParseItems, ParseMembers, ParseString, ParseLiteral, Skip;
      ghost var s := raw[at..];
      NoValue(s, depth);
      if depth > MAX_DEPTH { return Fail; }
      Whitespace();
      if at == |raw| { return Fail; }
      assert raw[at..] == [raw[at]] + raw[at + 1..];
      if raw[at] == QUOTE {
        StringValue(s, depth);
        var text := ReadString();
        return match text case Fail => Fail case Done(t, rest) => Done(String(t), rest);
      }
      ghost var from := at;
      if raw[at] == OPEN_ARRAY {
        Grammar.ArrayStep(s, depth, raw[from + 1..]);
        at := at + 1;
        Whitespace();
        SeesIs(raw, at, CLOSE_ARRAY);
        if Sees(CLOSE_ARRAY) {
          at := at + 1;
          return Done(Array([]), raw[at..]);
        }
        var items := ReadItems(depth);
        return match items case Fail => Fail case Done(vs, rest) => Done(Array(vs), rest);
      }
      if raw[at] == OPEN_OBJECT {
        Grammar.ObjectStep(s, depth, raw[from + 1..]);
        at := at + 1;
        Whitespace();
        SeesIs(raw, at, CLOSE_OBJECT);
        if Sees(CLOSE_OBJECT) {
          at := at + 1;
          return Done(Object([]), raw[at..]);
        }
        var members := ReadMembers(depth);
        return match members case Fail => Fail case Done(ms, rest) => Done(Object(ms), rest);
      }
      TokenValue(s, depth);
      result := ReadToken();
    }

    /** The loop of an array, from its first value on. */
    method ReadItems(depth: nat) returns (result: Parsed<seq<Value>>)
      requires Valid()
      modifies `at
      ensures Valid()
      ensures result == ParseItems(raw[old(at)..], depth + 1)
      ensures result.Done? ==> old(at) < at && raw[at..] == result.rest
      decreases |raw| - at, 2
    {
      hide ParseValue, ParseItems, Starts, Skip;
      var items: seq<Value> := [];
      ghost var first := at;
      PrependNothing(ParseItems(raw[first..], depth + 1));
      while true
        invariant Valid() && first <= at
        invariant ParseItems(raw[first..], depth + 1) == PrependItems(items, ParseItems(raw[at..], depth + 1))
        decreases |raw| - at
      {
        ItemsUnfold(raw[at..], depth + 1);
        var v := ReadValue(depth + 1);
        if v.Fail? { return Fail; }
        Whitespace();
        SeesIs(raw, at, CLOSE_ARRAY);
        SeesIs(raw, at, COMMA);
        if Sees(CLOSE_ARRAY) {
          at := at + 1;
          return Done(items + [v.value], raw[at..]);
        }
        if !Sees(COMMA) { return Fail; }
        at := at + 1;
        Whitespace();
        PrependOne(items, v.value, ParseItems(raw[at..], depth + 1));
        items := items + [v.value];
      }
    }

    /** One turn of an object: a key not met before, a colon, a value. */
    method ReadMember(depth: nat, keys: set<Text>) returns (result: Parsed<(Text, Value)>)
      requires Valid()
      modifies `at
      ensures Valid()
      ensures result == ParseMember(raw[old(at)..], depth + 1, keys)
      ensures result.Done? ==> old(at) < at && raw[at..] == result.rest
      decreases |raw| - at, 1
    {
      hide ParseValue, ParseString, Starts, Skip;
      NoStringHere(raw[at..]);
      SeesIs(raw, at, QUOTE);
      if !Sees(QUOTE) { return Fail; }
      var key := ReadString();
      if key.Fail? { return Fail; }
      if key.value in keys { return Fail; }
      Whitespace();
      SeesIs(raw, at, COLON);
      if !Sees(COLON) { return Fail; }
      at := at + 1;
      var v := ReadValue(depth + 1);
      return match v case Fail => Fail case Done(value, rest) => Done((key.value, value), rest);
    }

    /** The loop of an object: the keys met so far are remembered. */
    method ReadMembers(depth: nat) returns (result: Parsed<seq<(Text, Value)>>)
      requires Valid()
      modifies `at
      ensures Valid()
      ensures result == ParseMembers(raw[old(at)..], depth + 1, {})
      ensures result.Done? ==> old(at) < at && raw[at..] == result.rest
      decreases |raw| - at, 2
    {
      hide ParseMember, ParseMembers, Starts, Skip, PrependMembers;
      var members: seq<(Text, Value)> := [];
      var keys: set<Text> := {};
      ghost var first := at;
      PrependNoMembers(ParseMembers(raw[first..], depth + 1, {}));
      while true
        invariant Valid() && first <= at
        invariant ParseMembers(raw[first..], depth + 1, {}) == PrependMembers(members, ParseMembers(raw[at..], depth + 1, keys))
        decreases |raw| - at
      {
        ghost var s := raw[at..];
        NoneBehind(members);
        NoMembers(s, depth + 1, keys);
        var m := ReadMember(depth, keys);
        if m.Fail? { return Fail; }
        ghost var rest := raw[at..];
        Whitespace();
        MembersTurn(s, depth + 1, keys, m.value, rest, raw[at..]);
        SeesIs(raw, at, CLOSE_OBJECT);
        SeesIs(raw, at, COMMA);
        if Sees(CLOSE_OBJECT) {
          at := at + 1;
          LastBehind(members, m.value, raw[at..]);
          return Done(members + [m.value], raw[at..]);
        }
        if !Sees(COMMA) { return Fail; }
        at := at + 1;
        Whitespace();
        PrependTwice(members, m.value, ParseMembers(raw[at..], depth + 1, keys + {m.value.0}));
        members, keys := members + [m.value], keys + {m.value.0};
      }
    }
  }

  /** parseStrictJson. */
  method ParseStrictJson(raw: Text, round: real -> real) returns (result: Parsed<Value>)
    requires Numbers.Faithful(round)
    ensures forall v :: result == Done(v, []) <==> Grammar.Spells(raw, v)
    ensures result == ParseStrict(raw)
  {
    hide ParseValue, Grammar.Spells;
    forall v ensures ParseStrict(raw) == Done(v, []) <==> Grammar.Spells(raw, v) { Grammar.ReadsExactlyTheGrammar(raw, v); }
    var cursor := new Cursor(raw, round);
    assert raw[0..] == raw;
    result := cursor.ReadValue(0);
    if result.Fail? { return Fail; }
    cursor.Whitespace();
    if cursor.at != |raw| { return Fail; }
    return Done(result.value, []);
  }

  /** What the cursor sees is what the rest of the text starts with. */
  lemma {:induction false} SeesIs(raw: Text, at: nat, u: Unit)
    requires at <= |raw|
    ensures Starts(raw[at..], u) <==> at < |raw| && raw[at] == u
    ensures at < |raw| ==> raw[at..][1..] == raw[at + 1..]
  {
  }

  lemma {:induction false} NoValue(s: Text, depth: int)
    ensures depth > MAX_DEPTH || Skip(s) == [] ==> ParseValue(s, depth).Fail?
  {
    hide ParseItems, ParseMembers, ParseString, ParseLiteral, Skip;
  }

  lemma {:induction false} StringValue(s: Text, depth: int)
    requires depth <= MAX_DEPTH && Starts(Skip(s), QUOTE)
    ensures ParseValue(s, depth) == match ParseString(Skip(s)) case Fail => Fail case Done(text, rest) => Done(String(text), rest)
  {
    hide ParseItems, ParseMembers, ParseString, ParseLiteral, Skip;
  }

  lemma {:induction false} TokenValue(s: Text, depth: int)
    requires depth <= MAX_DEPTH && Skip(s) != [] && Skip(s)[0] !in [QUOTE, OPEN_ARRAY, OPEN_OBJECT]
    ensures ParseValue(s, depth) == ParseLiteral(Skip(s))
  {
    hide ParseItems, ParseMembers, ParseString, ParseLiteral, Skip;
  }

  lemma {:induction false} ItemsUnfold(s: Text, depth: int)
    ensures ParseItems(s, depth) ==
      match ParseValue(s, depth)
      case Fail => Fail
      case Done(v, rest) =>
        var t := Skip(rest);
        if Starts(t, CLOSE_ARRAY) then Done([v], t[1..])
        else if Starts(t, COMMA) then
          match ParseItems(Skip(t[1..]), depth) case Fail => Fail case Done(items, rest) => Done([v] + items, rest)
        else Fail
  {
  }

  lemma {:induction false} NoMembers(s: Text, depth: int, keys: set<Text>)
    ensures ParseMember(s, depth, keys).Fail? ==> ParseMembers(s, depth, keys).Fail?
  {
    hide ParseMember, Skip;
  }

  /** What follows a member decides. */
  lemma {:induction false} MembersTurn(s: Text, depth: int, keys: set<Text>, m: (Text, Value), rest: Text, u: Text)
    requires ParseMember(s, depth, keys) == Done(m, rest) && Skip(rest) == u
    ensures Starts(u, CLOSE_OBJECT) ==> ParseMembers(s, depth, keys) == Done([m], u[1..])
    ensures Starts(u, COMMA) ==> ParseMembers(s, depth, keys) == PrependMembers([m], ParseMembers(Skip(u[1..]), depth, keys + {m.0}))
    ensures !Starts(u, CLOSE_OBJECT) && !Starts(u, COMMA) ==> ParseMembers(s, depth, keys).Fail?
  {
    hide ParseMember, Skip;
  }

  lemma {:induction false} NoStringHere(s: Text)
    ensures !Starts(s, QUOTE) ==> ParseString(s).Fail?
  {
  }

  lemma {:induction false} PrependNothing(r: Parsed<seq<Value>>)
    ensures PrependItems([], r) == r
  {
    if r.Done? { assert [] + r.value == r.value; }
  }

  lemma {:induction false} PrependNoMembers(r: Parsed<seq<(Text, Value)>>)
    ensures PrependMembers([], r) == r
  {
    if r.Done? { assert [] + r.value == r.value; }
  }

  lemma {:induction false} PrependOne(items: seq<Value>, v: Value, r: Parsed<seq<Value>>)
    ensures PrependItems(items, match r case Fail => Fail case Done(more, rest) => Done([v] + more, rest)) == PrependItems(items + [v], r)
  {
    if r.Done? { assert items + ([v] + r.value) == (items + [v]) + r.value; }
  }

  lemma {:induction false} NoneBehind(members: seq<(Text, Value)>)
    ensures PrependMembers(members, Fail) == Fail
  {
  }

  lemma {:induction false} LastBehind(members: seq<(Text, Value)>, m: (Text, Value), rest: Text)
    ensures PrependMembers(members, Done([m], rest)) == Done(members + [m], rest)
  {
  }

  lemma {:induction false} PrependTwice(members: seq<(Text, Value)>, m: (Text, Value), r: Parsed<seq<(Text, Value)>>)
    ensures PrependMembers(members, PrependMembers([m], r)) == PrependMembers(members + [m], r)
  {
    if r.Done? { assert members + ([m] + r.value) == (members + [m]) + r.value; }
  }

  predicate Suffix(a: Text, b: Text) { |a| <= |b| && b[|b| - |a|..] == a }

  lemma {:induction false} DropMore(a: Text, b: Text, c: Text)
    requires Suffix(a, b) && Suffix(b, c)
    ensures Suffix(a, c)
  {
  }

  /** What is left after a token is a suffix of the text. */
  lemma {:induction false} RestIsSuffix(s: Text, rest: Text)
    requires ScanNumber(s).Done? && ScanNumber(s).rest == rest
    ensures |rest| < |s| && s[|s| - |rest|..] == rest
  {
    hide Numbers.AreDigits, Suffix, ScanExponent, ScanWhole, ScanFraction, SkipMinus;
    var s1 := SkipMinus(s);
    var s2 := ScanWhole(s1).rest;
    var s3 := ScanFraction(s2).1;
    SignIsSuffix(s);
    WholeIsSuffix(s1);
    FractionIsSuffix(s2);
    ExponentIsSuffix(s3);
    DropMore(s2, s1, s);
    DropMore(s3, s2, s);
    DropMore(rest, s3, s);
    SuffixIs(rest, s);
  }

  lemma {:induction false} SignIsSuffix(s: Text)
    ensures Suffix(SkipMinus(s), s)
  {
  }

  lemma {:induction false} WholeIsSuffix(s: Text)
    requires ScanWhole(s).Done?
    ensures Suffix(ScanWhole(s).rest, s)
  {
  }

  lemma {:induction false} FractionIsSuffix(s: Text)
    ensures Suffix(ScanFraction(s).1, s)
  {
  }

  lemma {:induction false} SuffixIs(a: Text, b: Text)
    requires Suffix(a, b)
    ensures |a| <= |b| && b[|b| - |a|..] == a
  {
  }

  lemma {:induction false} ExponentIsSuffix(s: Text)
    ensures Suffix(ScanExponent(s).1, s)
  {
  }

  /** The number test of the code decides what the parsing function decides on exact values. */
  lemma {:induction false} NumberByTest(token: Numbers.Token, round: real -> real)
    requires Numbers.IsToken(token) && Numbers.Faithful(round)
    ensures Numbers.Accepts(token, round) <==> Numbers.IsWhole(token) && -MAX_SAFE <= Numbers.WholeValue(token) <= MAX_SAFE
    ensures Numbers.Accepts(token, round) ==> round(Numbers.Exact(token)).Floor == Numbers.WholeValue(token)
  {
    hide Numbers.Accepts, Numbers.Exact, Numbers.IsWhole, Numbers.WholeValue, Numbers.Faithful;
    Numbers.AcceptedExactly(token, round);
    if Numbers.IsWhole(token) && -MAX_SAFE <= Numbers.WholeValue(token) <= MAX_SAFE {
      Numbers.WholeIsExact(token);
      assert Numbers.IsSafe(Numbers.Exact(token), Numbers.WholeValue(token));
    }
  }
}
