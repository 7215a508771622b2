/** The canonical text of a value, character by character. */
module JsonText {
  import opened CanonicalJson
  import opened JsonReadBack
  import opened JsonCanonical
  import Utf8

  /** The code units of an ASCII text. */
  ghost function Units(s: string): seq<int> {
    seq(|s|, i requires 0 <= i < |s| => s[i] as int)
  }

  // ----- Strings -----

  /** The digit of a number below sixteen, letters in lower case. */
  predicate IsHexDigit(u: int, d: int) {
    (0 <= d < 10 && u == '0' as int + d) || (10 <= d < 16 && u == 'a' as int + d - 10)
  }

  /** A code unit in a string: as it is if it is printable ASCII, after a backslash for quotation marks and backslashes, in its short
      form where it has one, and otherwise with four hexadecimal digits. */
  ghost predicate IsEscape(u: int, e: seq<int>) {
    if u == '"' as int then e == Units("\\\"")
    else if u == '\\' as int then e == Units("\\\\")
    else if u == 8 then e == Units("\\b")
    else if u == 9 then e == Units("\\t")
    else if u == 10 then e == Units("\\n")
    else if u == 12 then e == Units("\\f")
    else if u == 13 then e == Units("\\r")
    else if ' ' as int <= u <= '~' as int then e == [u]
    else IsUnicodeEscape(u, e)
  }

  ghost predicate IsUnicodeEscape(u: int, e: seq<int>) {
    && |e| == 6 && e[..2] == Units("\\u")
    && IsHexDigit(e[2], u / 4096) && IsHexDigit(e[3], u / 256 % 16) && IsHexDigit(e[4], u / 16 % 16) && IsHexDigit(e[5], u % 16)
  }

  /** The units between the quotation marks, each with its escape. */
  ghost predicate AreEscapes(s: seq<int>, t: seq<int>)
    decreases |s|
  {
    if s == [] then t == [] else exists n :: 0 <= n <= |t| && IsEscape(s[0], t[..n]) && AreEscapes(s[1..], t[n..])
  }

  lemma {:induction false} EscapeIs(u: Unit)
    ensures IsEscape(u, EscapeUnit(u))
  {
    assert Units("\\\"") == [0x5C, 0x22] && Units("\\\\") == [0x5C, 0x5C] && Units("\\u") == [0x5C, 0x75];
    assert Units("\\b") == [0x5C, 0x62] && Units("\\t") == [0x5C, 0x74] && Units("\\n") == [0x5C, 0x6E]
      && Units("\\f") == [0x5C, 0x66] && Units("\\r") == [0x5C, 0x72];
    assert UnicodeEscape(u)[..2] == [0x5C, 0x75];
  }

  lemma {:induction false} EscapesAre(s: Text)
    ensures AreEscapes(s, EscapeUnits(s))
    decreases |s|
  {
    hide IsEscape, EscapeUnit;
    if s != [] {
      var e, rest := EscapeUnit(s[0]), EscapeUnits(s[1..]);
      EscapeIs(s[0]);
      EscapesAre(s[1..]);
      assert (e + rest)[..|e|] == e && (e + rest)[|e|..] == rest;
    }
  }

  /** A string is its escaped units between quotation marks. */
  lemma {:induction false} StringExactly(s: Text)
    ensures var t := AsciiJsonString(s);
      |t| >= 2 && t[0] == t[|t| - 1] == '"' as int && AreEscapes(s, t[1..|t| - 1])
  {
    hide AsciiJsonString, EscapeUnits;
    StringIsUnits(s);
    EscapesAre(s);
    assert ([QUOTE] + EscapeUnits(s) + [QUOTE])[1..|EscapeUnits(s)| + 1] == EscapeUnits(s);
  }

  // ----- Numbers -----

  /** The number that decimal digits write. */
  function Decimal(t: seq<int>): int {
    if t == [] then 0 else 10 * Decimal(t[..|t| - 1]) + (t[|t| - 1] - '0' as int)
  }

  /** Digits, the first of them no zero unless it is the only one. */
  predicate IsDecimal(t: seq<int>, n: nat) {
    && t != [] && (forall i :: 0 <= i < |t| ==> '0' as int <= t[i] <= '9' as int)
    && (|t| > 1 ==> t[0] != '0' as int) && Decimal(t) == n
  }

  lemma {:induction false} DigitsAre(n: nat)
    ensures IsDecimal(Digits(n), n) && (n > 0 ==> Digits(n)[0] != '0' as int)
  {
    if n >= 10 {
      DigitsAre(n / 10);
      var t := Digits(n);
      assert t[..|t| - 1] == Digits(n / 10);
    }
  }

  lemma {:induction false} NumberExactly(n: int)
    ensures if n >= 0 then IsDecimal(IntText(n), n) else IntText(n)[..1] == Units("-") && IsDecimal(IntText(n)[1..], -n)
  {
    if n >= 0 {
      DigitsAre(n);
    } else {
      DigitsAre(-n);
      assert IntText(n)[1..] == Digits(-n);
      assert Units("-") == [0x2D];
    }
  }

  // ----- Values -----

  /** The texts with commas between them. */
  ghost function Joined(parts: seq<Text>): seq<int>
    decreases |parts|
  {
    if parts == [] then []
    else if |parts| == 1 then parts[0]
    else Joined(parts[..|parts| - 1]) + Units(",") + parts[|parts| - 1]
  }

  lemma {:induction false} JoinedFirst(first: Text, parts: seq<Text>)
    requires parts != []
    ensures Joined([first] + parts) == first + Units(",") + Joined(parts)
    decreases |parts|
  {
    var all := [first] + parts;
    assert all[..|all| - 1] == [first] + parts[..|parts| - 1];
    if |parts| == 1 {
      assert all[..1] == [first];
    } else {
      JoinedFirst(first, parts[..|parts| - 1]);
      var middle, last := Joined(parts[..|parts| - 1]), parts[|parts| - 1];
      assert (first + Units(",") + middle) + Units(",") + last == first + Units(",") + (middle + Units(",") + last);
    }
  }

  function ItemTexts(order: KeyOrder, items: seq<Json>): seq<Text> {
    seq(|items|, i requires 0 <= i < |items| => Print(order, items[i]))
  }

  function MemberTexts(order: KeyOrder, ms: seq<Member>): seq<Text> {
    seq(|ms|, i requires 0 <= i < |ms| => AsciiJsonString(ms[i].key) + [0x3A] + Print(order, ms[i].value))
  }

  lemma {:induction false} ItemsJoined(order: KeyOrder, items: seq<Json>, owner: Json)
    requires forall i :: 0 <= i < |items| ==> items[i] < owner
    ensures PrintItems(order, items, owner) == Joined(ItemTexts(order, items))
    decreases |items|
  {
    hide Print;
    assert Units(",") == [0x2C];
    var parts := ItemTexts(order, items);
    if |items| > 1 {
      ItemsJoined(order, items[1..], owner);
      JoinedFirst(parts[0], ItemTexts(order, items[1..]));
      assert parts == [parts[0]] + ItemTexts(order, items[1..]);
    }
  }

  lemma {:induction false} MembersJoined(order: KeyOrder, ms: seq<Member>, owner: Json)
    requires forall i :: 0 <= i < |ms| ==> ms[i].value < owner
    ensures PrintMembers(order, ms, owner) == Joined(MemberTexts(order, ms))
    decreases |ms|
  {
    hide Print, AsciiJsonString;
    assert Units(",") == [0x2C];
    var parts := MemberTexts(order, ms);
    if |ms| > 1 {
      MembersJoined(order, ms[1..], owner);
      JoinedFirst(parts[0], MemberTexts(order, ms[1..]));
      assert parts == [parts[0]] + MemberTexts(order, ms[1..]);
    }
  }

  /** The text of a value: no white space, items and members between commas, members as a key, a colon and a value, in the
      order of their keys. */
  lemma {:induction false} PrintsExactly(order: KeyOrder, v: Json)
    ensures match v
      case Null => Print(order, v) == Units("null")
      case Bool(b) => Print(order, v) == Units(if b then "true" else "false")
      case Num(n) => Print(order, v) == IntText(n)
      case Str(s) => Print(order, v) == AsciiJsonString(s)
      case Arr(items) => Print(order, v) == Units("[") + Joined(ItemTexts(order, items)) + Units("]")
      case Obj(members) => Print(order, v) == Units("{") + Joined(MemberTexts(order, Sort(order, members))) + Units("}")
  {
    hide AsciiJsonString, IntText, Sort;
    assert Units("null") == [0x6E, 0x75, 0x6C, 0x6C] && Units("true") == [0x74, 0x72, 0x75, 0x65]
      && Units("false") == [0x66, 0x61, 0x6C, 0x73, 0x65];
    assert Units("[") == [0x5B] && Units("]") == [0x5D] && Units("{") == [0x7B] && Units("}") == [0x7D];
    match v
    case Arr(items) => ItemsJoined(order, items, v);
    case Obj(members) =>
      SortKeeps(order, members);
      var sorted := Sort(order, members);
      forall i | 0 <= i < |sorted|
        ensures sorted[i].value < v
      {
        assert sorted[i] in members;
      }
      MembersJoined(order, sorted, v);
    case _ =>
  }

  // ----- The orders of keys -----

  /** `a` comes first where they differ, or is a proper prefix. */
  predicate Before(a: seq<int>, b: seq<int>) {
    exists k :: 0 <= k <= |a| && k < |b| && a[..k] == b[..k] && (k == |a| || a[k] < b[k])
  }

  lemma {:induction false} BeforePast(x: int, a: seq<int>, b: seq<int>)
    ensures Before([x] + a, [x] + b) <==> Before(a, b)
  {
    if k :| 0 <= k <= |a| && k < |b| && a[..k] == b[..k] && (k == |a| || a[k] < b[k]) {
      assert ([x] + a)[..k + 1] == [x] + a[..k] && ([x] + b)[..k + 1] == [x] + b[..k];
    }
    if k :| 0 <= k <= |[x] + a| && k < |[x] + b| && ([x] + a)[..k] == ([x] + b)[..k] && (k == |[x] + a| || ([x] + a)[k] < ([x] + b)[k]) {
      assert a[..k - 1] == ([x] + a)[..k][1..] && b[..k - 1] == ([x] + b)[..k][1..];
    }
  }

  lemma {:induction false} BeforeHeads(a: seq<int>, b: seq<int>)
    requires a != [] && b != [] && a[0] != b[0]
    ensures Before(a, b) <==> a[0] < b[0]
  {
    assert a[..0] == b[..0];
    PrefixHeads(a, b);
  }

  lemma {:induction false} PrefixHeads(a: seq<int>, b: seq<int>)
    requires a != [] && b != []
    ensures forall k :: 0 < k <= |a| && k <= |b| && a[..k] == b[..k] ==> a[0] == b[0]
  {
    forall k | 0 < k <= |a| && k <= |b| && a[..k] == b[..k]
      ensures a[0] == b[0]
    {
      assert a[0] == a[..k][0] == b[..k][0];
    }
  }

  lemma {:induction false} EmptyBefore(a: seq<int>, b: seq<int>)
    requires a == [] || b == []
    ensures Before(a, b) <==> b != []
  {
    assert a[..0] == b[..0];
  }

  /** The client's order compares code units. */
  lemma {:induction false} UnitOrder(a: Text, b: Text)
    ensures Less(CodeUnits, a, b) <==> Before(a, b)
    decreases |a|
  {
    hide Before;
    if a == [] || b == [] {
      EmptyBefore(a, b);
    } else if a[0] != b[0] {
      BeforeHeads(a, b);
    } else {
      UnitOrder(a[1..], b[1..]);
      BeforePast(a[0], a[1..], b[1..]);
      assert a == [a[0]] + a[1..] && b == [a[0]] + b[1..];
    }
  }

  /** The code points of a text: a surrogate pair stands for one, any other unit for itself. */
  function Points(s: Text): seq<int>
    decreases |s|
  {
    if s == [] then []
    else if |s| > 1 && 0xD800 <= s[0] < 0xDC00 && 0xDC00 <= s[1] < 0xE000
    then [0x1_0000 + (s[0] - 0xD800) * 0x400 + (s[1] - 0xDC00)] + Points(s[2..])
    else [s[0]] + Points(s[1..])
  }

  lemma {:induction false} PointsStart(s: Text)
    requires s != []
    ensures var c := Utf8.CodePointAt(s, 0); Utf8.Width(c) <= |s| && Points(s) == [c] + Points(s[Utf8.Width(c)..])
  {
  }

  /** The authority's order compares code points. */
  lemma {:induction false} PointOrder(a: Text, b: Text)
    ensures Less(CodePoints, a, b) <==> Before(Points(a), Points(b))
    decreases |a|
  {
    hide Before, Points;
    if a == [] || b == [] {
      NoPoints(a);
      NoPoints(b);
      EmptyBefore(Points(a), Points(b));
    } else {
      PointsStart(a);
      PointsStart(b);
      var ca, cb := Utf8.CodePointAt(a, 0), Utf8.CodePointAt(b, 0);
      if ca != cb {
        BeforeHeads(Points(a), Points(b));
      } else {
        PointOrder(a[Utf8.Width(ca)..], b[Utf8.Width(cb)..]);
        BeforePast(ca, Points(a[Utf8.Width(ca)..]), Points(b[Utf8.Width(cb)..]));
      }
    }
  }

  lemma {:induction false} NoPoints(s: Text)
    ensures Points(s) == [] <==> s == []
  {
  }

  /** The members of an object with distinct keys are printed in the order of their keys: by code units at the client, by code
      points at the authority. */
  lemma {:induction false} KeysAscend(order: KeyOrder, members: seq<Member>)
    requires Distinct(members)
    ensures multiset(Sort(order, members)) == multiset(members)
    ensures var ms := Sort(order, members);
      forall i, j :: 0 <= i < j < |ms| ==>
        if order.CodeUnits? then Before(ms[i].key, ms[j].key) else Before(Points(ms[i].key), Points(ms[j].key))
  {
    hide Before, Points, Less;
    SortAscends(order, members);
    var ms := Sort(order, members);
    forall i, j | 0 <= i < j < |ms|
      ensures if order.CodeUnits? then Before(ms[i].key, ms[j].key) else Before(Points(ms[i].key), Points(ms[j].key))
    {
      UnitOrder(ms[i].key, ms[j].key);
      PointOrder(ms[i].key, ms[j].key);
      assert Less(order, ms[i].key, ms[j].key);
    }
  }
}
