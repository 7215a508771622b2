/** JSON values and the canonical printers of both ends.
    `canonicalJson` of the client sorts object keys by UTF-16 code units, `canonical_json` of the
    authority sorts them by code points; everything else of the two printers is the same. */
module CanonicalJson {
  import Utf8

  type Unit = Utf8.Unit
  type Text = seq<Unit>

  datatype Json =
    | Null
    | Bool(b: bool)
    | Num(n: int)
    | Str(s: Text)
    | Arr(items: seq<Json>)
    | Obj(members: seq<Member>)

  datatype Member = Member(key: Text, value: Json)

  const QUOTE: Unit := 0x22
  const BACKSLASH: Unit := 0x5C
  const COMMA: Unit := 0x2C
  const COLON: Unit := 0x3A
  const MINUS: Unit := 0x2D
  const ZERO: Unit := 0x30
  const OPEN_ARRAY: Unit := 0x5B
  const CLOSE_ARRAY: Unit := 0x5D
  const OPEN_OBJECT: Unit := 0x7B
  const CLOSE_OBJECT: Unit := 0x7D
  const LETTER_U: Unit := 0x75
  const NULL: Text := [0x6E, 0x75, 0x6C, 0x6C]
  const TRUE: Text := [0x74, 0x72, 0x75, 0x65]
  const FALSE: Text := [0x66, 0x61, 0x6C, 0x73, 0x65]

  // ----- Strings -----

  function HexDigit(d: nat): Unit
    requires d < 16
  {
    if d < 10 then 0x30 + d else 0x61 + (d - 10)
  }

  /** `\uXXXX`, lower case, padded to four digits. */
  function UnicodeEscape(u: Unit): Text {
    [BACKSLASH, LETTER_U, HexDigit(u / 4096), HexDigit(u / 256 % 16), HexDigit(u / 16 % 16), HexDigit(u % 16)]
  }

  /** The escapes with a letter of their own. */
  function ShortEscape(u: Unit): Text {
    if u == QUOTE || u == BACKSLASH then [BACKSLASH, u]
    else if u == 0x08 then [BACKSLASH, 0x62]
    else if u == 0x09 then [BACKSLASH, 0x74]
    else if u == 0x0A then [BACKSLASH, 0x6E]
    else if u == 0x0C then [BACKSLASH, 0x66]
    else if u == 0x0D then [BACKSLASH, 0x72]
    else []
  }

  /** What `JSON.stringify` makes of one code point: control characters and lone surrogates are escaped. */
  function StringifyPoint(s: Text): Text
    requires s != []
  {
    var c := Utf8.CodePointAt(s, 0);
    if c > 0xFFFF then s[..2]
    else if ShortEscape(c) != [] then ShortEscape(c)
    else if c < 0x20 || Utf8.IsHigh(c) || Utf8.IsLow(c) then UnicodeEscape(c)
    else [c]
  }

  function StringifyBody(s: Text): Text
    decreases |s|
  {
    if s == [] then [] else StringifyPoint(s) + StringifyBody(s[Utf8.Width(Utf8.CodePointAt(s, 0))..])
  }

  function Stringify(s: Text): Text {
    [QUOTE] + StringifyBody(s) + [QUOTE]
  }

  /** Escapes every unit from U+007F on, and leaves the others. */
  function EscapeNonAscii(t: Text): Text
    decreases |t|
  {
    if t == [] then []
    else (if t[0] >= 0x7F then UnicodeEscape(t[0]) else [t[0]]) + EscapeNonAscii(t[1..])
  }

  function AsciiJsonString(s: Text): Text {
    EscapeNonAscii(Stringify(s))
  }

  // ----- Numbers -----

  function Digits(n: nat): Text {
    if n < 10 then [ZERO + n] else Digits(n / 10) + [ZERO + n % 10]
  }

  function IntText(n: int): Text {
    if n < 0 then [MINUS] + Digits(-n) else Digits(n)
  }

  // ----- Key orders and sorting -----

  datatype KeyOrder = CodeUnits | CodePoints

  /** `a < b` on strings in the client: code unit by code unit. */
  predicate UnitLess(a: Text, b: Text)
    decreases |a|
  {
    b != [] && (a == [] || a[0] < b[0] || (a[0] == b[0] && UnitLess(a[1..], b[1..])))
  }

  /** `a < b` on strings in the authority: code point by code point. */
  predicate PointLess(a: Text, b: Text)
    decreases |a|
  {
    b != [] && (a == [] ||
      (var ca, cb := Utf8.CodePointAt(a, 0), Utf8.CodePointAt(b, 0);
       ca < cb || (ca == cb && PointLess(a[Utf8.Width(ca)..], b[Utf8.Width(cb)..]))))
  }

  predicate Less(order: KeyOrder, a: Text, b: Text) {
    match order
    case CodeUnits => UnitLess(a, b)
    case CodePoints => PointLess(a, b)
  }

  function Insert(order: KeyOrder, m: Member, ms: seq<Member>): (r: seq<Member>)
    ensures multiset(r) == multiset(ms) + multiset{m}
    decreases |ms|
  {
    if ms == [] then [m]
    else if Less(order, ms[0].key, m.key) then
      assert ms == [ms[0]] + ms[1..];
      [ms[0]] + Insert(order, m, ms[1..])
    else [m] + ms
  }

  /** The object's entries in the order of their keys. */
  function Sort(order: KeyOrder, ms: seq<Member>): (r: seq<Member>)
    ensures multiset(r) == multiset(ms) && |r| == |ms|
    decreases |ms|
  {
    if ms == [] then []
    else
      assert ms == [ms[0]] + ms[1..];
      var r := Insert(order, ms[0], Sort(order, ms[1..]));
      assert |multiset(r)| == |multiset(ms)|;
      r
  }

  // ----- The printer -----

  function Print(order: KeyOrder, v: Json): Text
    decreases v, 1, 0
  {
    match v
    case Null => NULL
    case Bool(b) => if b then TRUE else FALSE
    case Num(n) => IntText(n)
    case Str(s) => AsciiJsonString(s)
    case Arr(items) => [OPEN_ARRAY] + PrintItems(order, items, v) + [CLOSE_ARRAY]
    case Obj(members) =>
      var sorted := Sort(order, members);
      assert forall i :: 0 <= i < |sorted| ==> sorted[i] in multiset(members);
      [OPEN_OBJECT] + PrintMembers(order, sorted, v) + [CLOSE_OBJECT]
  }

  /** The items, joined with commas. */
  function PrintItems(order: KeyOrder, items: seq<Json>, ghost owner: Json): Text
    requires forall i :: 0 <= i < |items| ==> items[i] < owner
    decreases owner, 0, |items|
  {
    if items == [] then []
    else if |items| == 1 then Print(order, items[0])
    else Print(order, items[0]) + [COMMA] + PrintItems(order, items[1..], owner)
  }

  /** `key:value`, joined with commas. */
  function PrintMembers(order: KeyOrder, ms: seq<Member>, ghost owner: Json): Text
    requires forall i :: 0 <= i < |ms| ==> ms[i].value < owner
    decreases owner, 0, |ms|
  {
    if ms == [] then []
    else
      var first := AsciiJsonString(ms[0].key) + [COLON] + Print(order, ms[0].value);
      if |ms| == 1 then first else first + [COMMA] + PrintMembers(order, ms[1..], owner)
  }

  /** The client's printer. */
  function ClientJson(v: Json): Text { Print(CodeUnits, v) }

  /** The authority's printer. */
  function AuthorityJson(v: Json): Text { Print(CodePoints, v) }
}
