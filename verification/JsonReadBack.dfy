/** A reader for JSON text after sections 2 to 7 of RFC 8259. Numbers with a fraction or an exponent
    are refused: the values of the model have integers only. */
module JsonReader {
  import opened CanonicalJson

  datatype Parsed<T> = Fail | Ok(value: T, rest: Text)

  predicate IsSpace(u: Unit) { u == 0x20 || u == 0x09 || u == 0x0A || u == 0x0D }

  function SkipSpace(t: Text): (r: Text)
    ensures |r| <= |t|
    decreases |t|
  {
    if t != [] && IsSpace(t[0]) then SkipSpace(t[1..]) else t
  }

  // ----- Section 7: strings -----

  /** The value of a hexadecimal digit of either case; 16 for anything else. */
  function HexValue(u: Unit): (v: nat)
    ensures v <= 16
  {
    if 0x30 <= u <= 0x39 then u - 0x30
    else if 0x61 <= u <= 0x66 then u - 0x61 + 10
    else if 0x41 <= u <= 0x46 then u - 0x41 + 10
    else 16
  }

  function FromHex(a: nat, b: nat, c: nat, d: nat): (v: nat)
    requires a < 16 && b < 16 && c < 16 && d < 16
    ensures v < 0x1_0000
  {
    a * 4096 + b * 256 + c * 16 + d
  }

  /** One `char` of a string. */
  function ParseChar(t: Text): (p: Parsed<Unit>)
    ensures p.Ok? ==> |p.rest| < |t|
  {
    if t == [] || t[0] == 0x22 || t[0] < 0x20 then Fail
    else if t[0] != 0x5C then Ok(t[0], t[1..])
    else if |t| < 2 then Fail
    else
      var e := t[1];
      if e == 0x22 || e == 0x5C || e == 0x2F then Ok(e, t[2..])
      else if e == 0x62 then Ok(0x08, t[2..])
      else if e == 0x66 then Ok(0x0C, t[2..])
      else if e == 0x6E then Ok(0x0A, t[2..])
      else if e == 0x72 then Ok(0x0D, t[2..])
      else if e == 0x74 then Ok(0x09, t[2..])
      else if e != 0x75 || |t| < 6 then Fail
      else
        var a, b, c, d := HexValue(t[2]), HexValue(t[3]), HexValue(t[4]), HexValue(t[5]);
        if a < 16 && b < 16 && c < 16 && d < 16 then Ok(FromHex(a, b, c, d), t[6..]) else Fail
  }

  /** The characters up to the closing quotation mark. */
  function ParseChars(t: Text): (p: Parsed<Text>)
    ensures p.Ok? ==> |p.rest| < |t|
    decreases |t|
  {
    if t == [] then Fail
    else if t[0] == 0x22 then Ok([], t[1..])
    else
      var u := ParseChar(t);
      if u.Fail? then Fail
      else
        var rest := ParseChars(u.rest);
        if rest.Fail? then Fail else Ok([u.value] + rest.value, rest.rest)
  }

  function ParseString(t: Text): (p: Parsed<Text>)
    ensures p.Ok? ==> |p.rest| < |t|
  {
    if t == [] || t[0] != 0x22 then Fail else ParseChars(t[1..])
  }

  // ----- Section 6: numbers -----

  predicate IsDigit(u: Unit) { 0x30 <= u <= 0x39 }

  function ParseDigits(t: Text, acc: nat): (p: Parsed<nat>)
    ensures p.Ok? && |p.rest| <= |t|
    decreases |t|
  {
    if t != [] && IsDigit(t[0]) then ParseDigits(t[1..], acc * 10 + (t[0] - 0x30)) else Ok(acc, t)
  }

  /** `int`: a zero, or digits that do not start with a zero. */
  function ParseNat(t: Text): (p: Parsed<nat>)
    ensures p.Ok? ==> |p.rest| < |t|
  {
    if t == [] || !IsDigit(t[0]) then Fail
    else if t[0] == 0x30 then Ok(0, t[1..])
    else ParseDigits(t[1..], t[0] - 0x30)
  }

  function ParseNumber(t: Text): (p: Parsed<Json>)
    ensures p.Ok? ==> |p.rest| < |t|
  {
    var negative := t != [] && t[0] == 0x2D;
    var n := ParseNat(if negative then t[1..] else t);
    if n.Fail? || (n.rest != [] && (n.rest[0] == 0x2E || n.rest[0] == 0x65 || n.rest[0] == 0x45)) then Fail
    else Ok(Num(if negative then 0 - n.value else n.value), n.rest)
  }

  // ----- Sections 3 to 5: values, objects, arrays -----

  function ParseLiteral(t: Text, word: Text, v: Json): (p: Parsed<Json>)
    requires word != []
    ensures p.Ok? ==> |p.rest| < |t|
  {
    if word <= t then Ok(v, t[|word|..]) else Fail
  }

  function ParseValue(t0: Text): (p: Parsed<Json>)
    ensures p.Ok? ==> |p.rest| < |t0|
    decreases |t0|, 1
  {
    var t := SkipSpace(t0);
    if t == [] then Fail
    else if t[0] == 0x6E then ParseLiteral(t, [0x6E, 0x75, 0x6C, 0x6C], Null)
    else if t[0] == 0x74 then ParseLiteral(t, [0x74, 0x72, 0x75, 0x65], Bool(true))
    else if t[0] == 0x66 then ParseLiteral(t, [0x66, 0x61, 0x6C, 0x73, 0x65], Bool(false))
    else if t[0] == 0x22 then
      var s := ParseString(t);
      if s.Fail? then Fail else Ok(Str(s.value), s.rest)
    else if t[0] == 0x5B then
      var u := SkipSpace(t[1..]);
      if u != [] && u[0] == 0x5D then Ok(Arr([]), u[1..])
      else
        var items := ParseItems(t[1..]);
        if items.Fail? then Fail else Ok(Arr(items.value), items.rest)
    else if t[0] == 0x7B then
      var u := SkipSpace(t[1..]);
      if u != [] && u[0] == 0x7D then Ok(Obj([]), u[1..])
      else
        var members := ParseMembers(t[1..]);
        if members.Fail? then Fail else Ok(Obj(members.value), members.rest)
    else ParseNumber(t)
  }

  /** One or more values between commas, up to the closing bracket. */
  function ParseItems(t: Text): (p: Parsed<seq<Json>>)
    ensures p.Ok? ==> |p.rest| < |t|
    decreases |t|, 2
  {
    var v := ParseValue(t);
    if v.Fail? then Fail
    else
      var u := SkipSpace(v.rest);
      if u == [] then Fail
      else if u[0] == 0x5D then Ok([v.value], u[1..])
      else if u[0] != 0x2C then Fail
      else
        var rest := ParseItems(u[1..]);
        if rest.Fail? then Fail else Ok([v.value] + rest.value, rest.rest)
  }

  function ParseMember(t: Text): (p: Parsed<Member>)
    ensures p.Ok? ==> |p.rest| < |t|
    decreases |t|, 2
  {
    var key := ParseString(SkipSpace(t));
    if key.Fail? then Fail
    else
      var u := SkipSpace(key.rest);
      if u == [] || u[0] != 0x3A then Fail
      else
        var v := ParseValue(u[1..]);
        if v.Fail? then Fail else Ok(Member(key.value, v.value), v.rest)
  }

  /** One or more members between commas, up to the closing brace. */
  function ParseMembers(t: Text): (p: Parsed<seq<Member>>)
    ensures p.Ok? ==> |p.rest| < |t|
    decreases |t|, 3
  {
    var m := ParseMember(t);
    if m.Fail? then Fail
    else
      var u := SkipSpace(m.rest);
      if u == [] then Fail
      else if u[0] == 0x7D then Ok([m.value], u[1..])
      else if u[0] != 0x2C then Fail
      else
        var rest := ParseMembers(u[1..]);
        if rest.Fail? then Fail else Ok([m.value] + rest.value, rest.rest)
  }

  /** A whole JSON text. */
  function ParseJson(t: Text): Parsed<Json> {
    var v := ParseValue(t);
    if v.Ok? && SkipSpace(v.rest) == [] then Ok(v.value, []) else Fail
  }
}

/** Reading back what the printers print. */
module JsonReadBack {
  import opened CanonicalJson
  import opened JsonReader
  import Utf8

  /** The value with every object's members in the order of their keys. */
  function Normalize(order: KeyOrder, v: Json): Json
    decreases v, 1, 0
  {
    match v
    case Arr(items) => Arr(NormalizeItems(order, items, v))
    case Obj(members) =>
      var sorted := Sort(order, members);
      assert forall i :: 0 <= i < |sorted| ==> sorted[i] in multiset(members);
      Obj(NormalizeMembers(order, sorted, v))
    case _ => v
  }

  function NormalizeItems(order: KeyOrder, items: seq<Json>, ghost owner: Json): (r: seq<Json>)
    requires forall i :: 0 <= i < |items| ==> items[i] < owner
    ensures |r| == |items| && forall i :: 0 <= i < |items| ==> r[i] == Normalize(order, items[i])
    decreases owner, 0, |items|
  {
    if items == [] then [] else [Normalize(order, items[0])] + NormalizeItems(order, items[1..], owner)
  }

  function NormalizeMembers(order: KeyOrder, ms: seq<Member>, ghost owner: Json): (r: seq<Member>)
    requires forall i :: 0 <= i < |ms| ==> ms[i].value < owner
    ensures |r| == |ms| && forall i :: 0 <= i < |ms| ==> r[i] == Member(ms[i].key, Normalize(order, ms[i].value))
    decreases owner, 0, |ms|
  {
    if ms == [] then []
    else [Member(ms[0].key, Normalize(order, ms[0].value))] + NormalizeMembers(order, ms[1..], owner)
  }

  // ----- Strings: the two-stage escaping works unit by unit -----

  function EscapeUnit(u: Unit): Text {
    if ShortEscape(u) != [] then ShortEscape(u)
    else if u < 0x20 || u >= 0x7F then UnicodeEscape(u)
    else [u]
  }

  function EscapeUnits(s: Text): Text
    decreases |s|
  {
    if s == [] then [] else EscapeUnit(s[0]) + EscapeUnits(s[1..])
  }

  lemma {:induction false} EscapeNonAsciiAppend(a: Text, b: Text)
    ensures EscapeNonAscii(a + b) == EscapeNonAscii(a) + EscapeNonAscii(b)
    decreases |a|
  {
    if a == [] {
      assert a + b == b;
    } else {
      assert (a + b)[1..] == a[1..] + b;
      EscapeNonAsciiAppend(a[1..], b);
    }
  }

  lemma {:induction false} EscapeNonAsciiKeeps(t: Text)
    requires forall i :: 0 <= i < |t| ==> t[i] < 0x7F
    ensures EscapeNonAscii(t) == t
    decreases |t|
  {
    if t != [] {
      EscapeNonAsciiKeeps(t[1..]);
      assert t == [t[0]] + t[1..];
    }
  }

  /** Escaping one code point and then its non-ASCII units escapes each of its units. */
  lemma {:induction false} PointIsUnits(s: Text)
    requires s != []
    ensures var w := Utf8.Width(Utf8.CodePointAt(s, 0));
      w <= |s| && EscapeNonAscii(StringifyPoint(s)) == EscapeUnits(s[..w])
  {
    var c := Utf8.CodePointAt(s, 0);
    if c > 0xFFFF {
      var h, l := s[0], s[1];
      assert s[..2] == [h, l] && [h, l][1..] == [l] && [l][1..] == [];
      assert EscapeUnits([l]) == EscapeUnit(l) + [] == EscapeUnit(l);
      assert EscapeNonAscii([l]) == UnicodeEscape(l) + [] == UnicodeEscape(l);
    } else {
      assert s[..1] == [c];
      assert EscapeUnits([c]) == EscapeUnit(c) + [] == EscapeUnit(c);
      if StringifyPoint(s) == [c] {
        assert [c][1..] == [];
        assert EscapeNonAscii([c]) == (if c >= 0x7F then UnicodeEscape(c) else [c]);
      } else {
        EscapeNonAsciiKeeps(StringifyPoint(s));
      }
    }
  }

  lemma {:induction false} EscapeUnitsAppend(a: Text, b: Text)
    ensures EscapeUnits(a + b) == EscapeUnits(a) + EscapeUnits(b)
    decreases |a|
  {
    if a == [] {
      assert a + b == b;
    } else {
      assert (a + b)[1..] == a[1..] + b;
      EscapeUnitsAppend(a[1..], b);
    }
  }

  lemma {:induction false} BodyIsUnits(s: Text)
    ensures EscapeNonAscii(StringifyBody(s)) == EscapeUnits(s)
    decreases |s|
  {
    hide StringifyPoint, EscapeUnit, UnicodeEscape;
    if s != [] {
      var w := Utf8.Width(Utf8.CodePointAt(s, 0));
      PointIsUnits(s);
      EscapeNonAsciiAppend(StringifyPoint(s), StringifyBody(s[w..]));
      BodyIsUnits(s[w..]);
      EscapeUnitsAppend(s[..w], s[w..]);
      assert s == s[..w] + s[w..];
    }
  }

  lemma {:induction false} StringIsUnits(s: Text)
    ensures AsciiJsonString(s) == [QUOTE] + EscapeUnits(s) + [QUOTE]
  {
    EscapeNonAsciiAppend([QUOTE] + StringifyBody(s), [QUOTE]);
    EscapeNonAsciiAppend([QUOTE], StringifyBody(s));
    EscapeNonAsciiKeeps([QUOTE]);
    BodyIsUnits(s);
  }

  lemma {:induction false} HexReadsBack(u: Unit)
    ensures FromHex(u / 4096, u / 256 % 16, u / 16 % 16, u % 16) == u
  {
    assert u / 16 / 16 == u / 256 && u / 256 / 16 == u / 4096;
  }

  lemma {:induction false} HexDigitReadsBack(d: nat)
    requires d < 16
    ensures HexValue(HexDigit(d)) == d
  {
  }

  lemma {:induction false} EscapeReadsBack(u: Unit, rest: Text)
    ensures ParseChar(UnicodeEscape(u) + rest) == Ok(u, rest)
  {
    hide HexDigit, HexValue;
    var t := UnicodeEscape(u) + rest;
    HexReadsBack(u);
    HexDigitReadsBack(u / 4096);
    HexDigitReadsBack(u / 256 % 16);
    HexDigitReadsBack(u / 16 % 16);
    HexDigitReadsBack(u % 16);
    assert t[6..] == rest;
  }

  lemma {:induction false} CharReadsBack(u: Unit, rest: Text)
    ensures ParseChar(EscapeUnit(u) + rest) == Ok(u, rest)
    ensures EscapeUnit(u)[0] != QUOTE
  {
    var t := EscapeUnit(u) + rest;
    if ShortEscape(u) != [] {
      assert t[2..] == rest;
    } else if u < 0x20 || u >= 0x7F {
      EscapeReadsBack(u, rest);
    } else {
      assert t[1..] == rest;
    }
  }

  lemma {:induction false} CharsReadBack(s: Text, rest: Text)
    ensures ParseChars(EscapeUnits(s) + [QUOTE] + rest) == Ok(s, rest)
    decreases |s|
  {
    hide EscapeUnit, ParseChar;
    if s == [] {
      assert ([QUOTE] + rest)[1..] == rest;
      assert EscapeUnits(s) + [QUOTE] + rest == [QUOTE] + rest;
    } else {
      var tail := EscapeUnits(s[1..]) + [QUOTE] + rest;
      assert EscapeUnits(s) + [QUOTE] + rest == EscapeUnit(s[0]) + tail;
      CharReadsBack(s[0], tail);
      CharsReadBack(s[1..], rest);
      assert s == [s[0]] + s[1..];
    }
  }

  lemma {:induction false} StringReadsBack(s: Text, rest: Text)
    ensures ParseString(AsciiJsonString(s) + rest) == Ok(s, rest)
    ensures AsciiJsonString(s)[0] == QUOTE
  {
    hide EscapeUnits, ParseChars, AsciiJsonString;
    StringIsUnits(s);
    CharsReadBack(s, rest);
    var t := [QUOTE] + EscapeUnits(s) + [QUOTE] + rest;
    assert t[1..] == EscapeUnits(s) + [QUOTE] + rest;
  }

  // ----- Numbers -----

  /** What may follow a value inside a text: nothing, or one of `,` `]` `}`. */
  predicate Stops(rest: Text) {
    rest == [] || rest[0] == COMMA || rest[0] == CLOSE_ARRAY || rest[0] == CLOSE_OBJECT
  }

  lemma {:induction false} DigitsReadBack(n: nat, rest: Text)
    ensures ParseDigits(Digits(n) + rest, 0) == ParseDigits(rest, n)
  {
    if n < 10 {
      assert (Digits(n) + rest)[1..] == rest;
    } else {
      DigitsReadBack(n / 10, [ZERO + n % 10] + rest);
      assert Digits(n) + rest == Digits(n / 10) + ([ZERO + n % 10] + rest);
      assert ([ZERO + n % 10] + rest)[1..] == rest;
    }
  }

  lemma {:induction false} DigitsStart(n: nat)
    ensures Digits(n) != [] && IsDigit(Digits(n)[0]) && (Digits(n)[0] == ZERO <==> n == 0)
    ensures n == 0 ==> Digits(n) == [ZERO]
  {
    if n >= 10 {
      DigitsStart(n / 10);
    }
  }

  lemma {:induction false} NatReadsBack(n: nat, rest: Text)
    requires Stops(rest)
    ensures ParseNat(Digits(n) + rest) == Ok(n, rest)
  {
    hide Digits;
    var t := Digits(n) + rest;
    DigitsStart(n);
    DigitsReadBack(n, rest);
    if n == 0 {
      assert t[1..] == rest;
    } else {
      assert ParseDigits(t, 0) == ParseDigits(t[1..], t[0] - ZERO);
    }
  }

  lemma {:induction false} NumberReadsBack(n: int, rest: Text)
    requires Stops(rest)
    ensures ParseNumber(IntText(n) + rest) == Ok(Num(n), rest)
    ensures IntText(n)[0] == MINUS || IsDigit(IntText(n)[0])
  {
    hide Digits, ParseNat;
    var m := if n < 0 then -n else n;
    DigitsStart(m);
    NatReadsBack(m, rest);
    if n < 0 {
      assert ([MINUS] + Digits(m) + rest)[1..] == Digits(m) + rest;
    }
  }

  // ----- Values -----

  /** The first unit of a printed value tells its kind and is neither space nor a closing bracket. */
  predicate Starts(u: Unit) {
    !IsSpace(u) && u != CLOSE_ARRAY && u != CLOSE_OBJECT
  }

  lemma {:induction false} PrintStarts(order: KeyOrder, v: Json)
    ensures Print(order, v) != [] && Starts(Print(order, v)[0])
  {
    hide AsciiJsonString, IntText;
    match v
    case Num(n) => NumberReadsBack(n, []);
    case Str(s) => StringReadsBack(s, []);
    case _ =>
  }

  lemma {:induction false} NoSpace(t: Text)
    requires t != [] && !IsSpace(t[0])
    ensures SkipSpace(t) == t
  {
  }

  /** Reading a printed value gives the value with sorted objects, and stops right after it. */
  lemma {:induction false} ValueReadsBack(order: KeyOrder, v: Json, rest: Text)
    requires Stops(rest)
    ensures ParseValue(Print(order, v) + rest) == Ok(Normalize(order, v), rest)
    decreases v, 1, 0
  {
    match v
    case Null => LiteralReadsBack(NULL, Null, rest);
    case Bool(b) => LiteralReadsBack(if b then TRUE else FALSE, v, rest);
    case Num(n) => NumReadsBack(n, rest);
    case Str(s) => StrReadsBack(s, rest);
    case Arr(items) =>
      if items != [] {
        ItemsReadBack(order, items, v, rest);
      }
      ArrReadsBack(order, items, v, rest);
    case Obj(members) =>
      var sorted := Sort(order, members);
      assert forall i :: 0 <= i < |sorted| ==> sorted[i] in multiset(members);
      if members != [] {
        MembersReadBack(order, sorted, v, rest);
      }
      ObjReadsBack(order, sorted, v, rest);
  }

  lemma {:induction false} LiteralReadsBack(word: Text, v: Json, rest: Text)
    requires (word == NULL && v == Null) || (word == TRUE && v == Bool(true)) || (word == FALSE && v == Bool(false))
    ensures ParseValue(word + rest) == Ok(v, rest)
  {
    var t := word + rest;
    NoSpace(t);
    assert t[..|word|] == word && t[|word|..] == rest;
  }

  lemma {:induction false} NumReadsBack(n: int, rest: Text)
    requires Stops(rest)
    ensures ParseValue(IntText(n) + rest) == Ok(Num(n), rest)
  {
    hide IntText, ParseNumber;
    NumberReadsBack(n, rest);
    NoSpace(IntText(n) + rest);
  }

  lemma {:induction false} StrReadsBack(s: Text, rest: Text)
    ensures ParseValue(AsciiJsonString(s) + rest) == Ok(Str(s), rest)
  {
    hide AsciiJsonString, ParseString;
    StringReadsBack(s, rest);
    NoSpace(AsciiJsonString(s) + rest);
  }

  lemma {:induction false} ArrReadsBack(order: KeyOrder, items: seq<Json>, owner: Json, rest: Text)
    requires forall i :: 0 <= i < |items| ==> items[i] < owner
    requires items != [] ==>
      ParseItems(PrintItems(order, items, owner) + [CLOSE_ARRAY] + rest) == Ok(NormalizeItems(order, items, owner), rest)
    ensures ParseValue([OPEN_ARRAY] + PrintItems(order, items, owner) + [CLOSE_ARRAY] + rest)
         == Ok(Arr(NormalizeItems(order, items, owner)), rest)
  {
    hide ParseItems, Print, Normalize;
    var body := PrintItems(order, items, owner) + [CLOSE_ARRAY] + rest;
    var t := [OPEN_ARRAY] + PrintItems(order, items, owner) + [CLOSE_ARRAY] + rest;
    NoSpace(t);
    assert t[1..] == body;
    if items == [] {
      assert body[1..] == rest;
      NoSpace(body);
    } else {
      PrintStarts(order, items[0]);
      NoSpace(body);
    }
  }

  lemma {:induction false} ParseItemsStep(t: Text, v: Json, tail: Text)
    ensures ParseValue(t) == Ok(v, [CLOSE_ARRAY] + tail) ==> ParseItems(t) == Ok([v], tail)
    ensures ParseValue(t) == Ok(v, [COMMA] + tail) && ParseItems(tail).Ok?
        ==> ParseItems(t) == Ok([v] + ParseItems(tail).value, ParseItems(tail).rest)
  {
    hide ParseValue;
    NoSpace([CLOSE_ARRAY] + tail);
    NoSpace([COMMA] + tail);
    assert ([CLOSE_ARRAY] + tail)[1..] == tail && ([COMMA] + tail)[1..] == tail;
  }

  /** The items before more items, and the last one. */
  lemma {:induction false} ItemsUnfold(order: KeyOrder, items: seq<Json>, owner: Json)
    requires items != [] && forall i :: 0 <= i < |items| ==> items[i] < owner
    ensures |items| == 1 ==>
      PrintItems(order, items, owner) == Print(order, items[0]) && NormalizeItems(order, items, owner) == [Normalize(order, items[0])]
    ensures |items| > 1 ==>
      && PrintItems(order, items, owner) == Print(order, items[0]) + [COMMA] + PrintItems(order, items[1..], owner)
      && NormalizeItems(order, items, owner) == [Normalize(order, items[0])] + NormalizeItems(order, items[1..], owner)
  {
    hide Print, Normalize;
  }

  lemma {:induction false} ItemsReadBack(order: KeyOrder, items: seq<Json>, owner: Json, rest: Text)
    requires items != [] && forall i :: 0 <= i < |items| ==> items[i] < owner
    ensures ParseItems(PrintItems(order, items, owner) + [CLOSE_ARRAY] + rest) == Ok(NormalizeItems(order, items, owner), rest)
    decreases owner, 0, |items|
  {
    hide ParseValue, ParseItems, Print, Normalize, PrintItems, NormalizeItems;
    var first := Print(order, items[0]);
    var t := PrintItems(order, items, owner) + [CLOSE_ARRAY] + rest;
    ItemsUnfold(order, items, owner);
    if |items| == 1 {
      ValueReadsBack(order, items[0], [CLOSE_ARRAY] + rest);
      assert t == first + ([CLOSE_ARRAY] + rest);
      ParseItemsStep(t, Normalize(order, items[0]), rest);
    } else {
      var tail := PrintItems(order, items[1..], owner) + [CLOSE_ARRAY] + rest;
      ValueReadsBack(order, items[0], [COMMA] + tail);
      ItemsReadBack(order, items[1..], owner, rest);
      assert t == first + ([COMMA] + tail);
      ParseItemsStep(t, Normalize(order, items[0]), tail);
    }
  }

  lemma {:induction false} ObjReadsBack(order: KeyOrder, ms: seq<Member>, owner: Json, rest: Text)
    requires forall i :: 0 <= i < |ms| ==> ms[i].value < owner
    requires ms != [] ==>
      ParseMembers(PrintMembers(order, ms, owner) + [CLOSE_OBJECT] + rest) == Ok(NormalizeMembers(order, ms, owner), rest)
    ensures ParseValue([OPEN_OBJECT] + PrintMembers(order, ms, owner) + [CLOSE_OBJECT] + rest)
         == Ok(Obj(NormalizeMembers(order, ms, owner)), rest)
  {
    hide ParseMembers, Print, Normalize, AsciiJsonString;
    var body := PrintMembers(order, ms, owner) + [CLOSE_OBJECT] + rest;
    var t := [OPEN_OBJECT] + PrintMembers(order, ms, owner) + [CLOSE_OBJECT] + rest;
    NoSpace(t);
    assert t[1..] == body;
    if ms == [] {
      assert body[1..] == rest;
      NoSpace(body);
    } else {
      StringReadsBack(ms[0].key, []);
      NoSpace(body);
    }
  }

  lemma {:induction false} MemberReadsBack(order: KeyOrder, m: Member, rest: Text)
    requires ParseValue(Print(order, m.value) + rest) == Ok(Normalize(order, m.value), rest)
    ensures ParseMember(AsciiJsonString(m.key) + [COLON] + Print(order, m.value) + rest)
         == Ok(Member(m.key, Normalize(order, m.value)), rest)
  {
    hide ParseValue, Print, Normalize, AsciiJsonString, ParseString;
    var value := Print(order, m.value) + rest;
    var t := AsciiJsonString(m.key) + [COLON] + Print(order, m.value) + rest;
    var after := [COLON] + value;
    assert t == AsciiJsonString(m.key) + after;
    StringReadsBack(m.key, after);
    NoSpace(t);
    assert after[1..] == value;
  }

  lemma {:induction false} ParseMembersStep(t: Text, m: Member, tail: Text)
    ensures ParseMember(t) == Ok(m, [CLOSE_OBJECT] + tail) ==> ParseMembers(t) == Ok([m], tail)
    ensures ParseMember(t) == Ok(m, [COMMA] + tail) && ParseMembers(tail).Ok?
        ==> ParseMembers(t) == Ok([m] + ParseMembers(tail).value, ParseMembers(tail).rest)
  {
    hide ParseMember;
    NoSpace([CLOSE_OBJECT] + tail);
    NoSpace([COMMA] + tail);
    assert ([CLOSE_OBJECT] + tail)[1..] == tail && ([COMMA] + tail)[1..] == tail;
  }

  lemma {:induction false} MembersUnfold(order: KeyOrder, ms: seq<Member>, owner: Json)
    requires ms != [] && forall i :: 0 <= i < |ms| ==> ms[i].value < owner
    ensures var first := AsciiJsonString(ms[0].key) + [COLON] + Print(order, ms[0].value);
      var m := Member(ms[0].key, Normalize(order, ms[0].value));
      if |ms| == 1 then PrintMembers(order, ms, owner) == first && NormalizeMembers(order, ms, owner) == [m]
      else
        && PrintMembers(order, ms, owner) == first + [COMMA] + PrintMembers(order, ms[1..], owner)
        && NormalizeMembers(order, ms, owner) == [m] + NormalizeMembers(order, ms[1..], owner)
  {
    hide Print, Normalize, AsciiJsonString;
  }

  lemma {:induction false} MembersReadBack(order: KeyOrder, ms: seq<Member>, owner: Json, rest: Text)
    requires ms != [] && forall i :: 0 <= i < |ms| ==> ms[i].value < owner
    ensures ParseMembers(PrintMembers(order, ms, owner) + [CLOSE_OBJECT] + rest) == Ok(NormalizeMembers(order, ms, owner), rest)
    decreases owner, 0, |ms|
  {
    hide ParseMember, ParseMembers, ParseValue, Print, Normalize, AsciiJsonString, PrintMembers, NormalizeMembers;
    var first := AsciiJsonString(ms[0].key) + [COLON] + Print(order, ms[0].value);
    var t := PrintMembers(order, ms, owner) + [CLOSE_OBJECT] + rest;
    var m := Member(ms[0].key, Normalize(order, ms[0].value));
    MembersUnfold(order, ms, owner);
    if |ms| == 1 {
      ValueReadsBack(order, ms[0].value, [CLOSE_OBJECT] + rest);
      MemberReadsBack(order, ms[0], [CLOSE_OBJECT] + rest);
      assert t == first + ([CLOSE_OBJECT] + rest);
      ParseMembersStep(t, m, rest);
    } else {
      var tail := PrintMembers(order, ms[1..], owner) + [CLOSE_OBJECT] + rest;
      ValueReadsBack(order, ms[0].value, [COMMA] + tail);
      MemberReadsBack(order, ms[0], [COMMA] + tail);
      MembersReadBack(order, ms[1..], owner, rest);
      assert t == first + ([COMMA] + tail);
      ParseMembersStep(t, m, tail);
    }
  }

  /** Every value reads back, with the members of its objects in key order. */
  lemma {:induction false} ReadBack(order: KeyOrder, v: Json)
    ensures ParseJson(Print(order, v)) == Ok(Normalize(order, v), [])
  {
    ValueReadsBack(order, v, []);
    assert Print(order, v) + [] == Print(order, v);
  }
}
