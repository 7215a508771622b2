/** The transport's own UTF-8 codec, on strings of 16-bit code units.
    The masks, shifts and ors of the code act on disjoint bit fields, so they are written as
    division, remainder and sum: `x >> 6` is `x / 64`, `x & 0x3f` is `x % 64`, `0x80 | y` is `0x80 + y`. */
module Utf8 {
  import opened Options
  import opened Bits

  type Unit = u: int | 0 <= u < 0x1_0000
  type CodePoint = c: int | 0 <= c < 0x11_0000

  predicate IsHigh(u: int) { 0xD800 <= u < 0xDC00 }

  predicate IsLow(u: int) { 0xDC00 <= u < 0xE000 }

  function PairValue(high: int, low: int): int {
    (high - 0xD800) * 0x400 + (low - 0xDC00) + 0x1_0000
  }

  /** The code point at a position: a surrogate pair counts as one code point, a lone surrogate as itself. */
  function CodePointAt(s: seq<Unit>, i: nat): CodePoint
    requires i < |s|
  {
    if IsHigh(s[i]) && i + 1 < |s| && IsLow(s[i + 1])
    then PairValue(s[i], s[i + 1])
    else s[i]
  }

  /** The units of a code point; none above U+10FFFF, where the conversion throws. */
  function FromCodePoint(c: nat): Option<seq<Unit>> {
    if c < 0x1_0000 then Some([c])
    else if c < 0x11_0000 then Some([0xD800 + (c - 0x1_0000) / 0x400, 0xDC00 + (c - 0x1_0000) % 0x400])
    else None
  }

  function Width(c: CodePoint): nat { if c > 0xFFFF then 2 else 1 }

  function EncodeCode(c: CodePoint): seq<Byte> {
    if c < 0x80 then [c]
    else if c < 0x800 then [0xC0 + c / 64, 0x80 + c % 64]
    else if c < 0x1_0000 then [0xE0 + c / 4096, 0x80 + c / 64 % 64, 0x80 + c % 64]
    else [0xF0 + c / 0x4_0000, 0x80 + c / 4096 % 64, 0x80 + c / 64 % 64, 0x80 + c % 64]
  }

  function Encode(s: seq<Unit>): seq<Byte>
    decreases |s|
  {
    if s == [] then [] else EncodeCode(CodePointAt(s, 0)) + Encode(s[Width(CodePointAt(s, 0))..])
  }

  /** The low six bits of a byte; past the end of the bytes they are zero. */
  function Low6(b: seq<Byte>, i: nat): nat {
    if i < |b| then b[i] % 64 else 0
  }

  /** How many bytes the lead byte makes the decoder take. */
  function Taken(lead: Byte): nat {
    if lead < 0x80 then 1 else if lead < 0xE0 then 2 else if lead < 0xF0 then 3 else 4
  }

  /** The number the decoder makes of a lead byte and the masked bytes after it. */
  function CodeOf(lead: int, x: nat, y: nat, z: nat): nat
    requires 0 <= lead < 256
  {
    if lead < 0x80 then lead
    else if lead < 0xE0 then lead % 32 * 64 + x
    else if lead < 0xF0 then lead % 16 * 4096 + x * 64 + y
    else lead % 8 * 0x4_0000 + x * 4096 + y * 64 + z
  }

  function CodeAt(b: seq<Byte>, i: nat): nat
    requires i < |b|
  {
    CodeOf(b[i], Low6(b, i + 1), Low6(b, i + 2), Low6(b, i + 3))
  }

  /** What the decoder returns for the bytes from `i` on; `None` when it throws. */
  function DecodeFrom(b: seq<Byte>, i: nat): Option<seq<Unit>>
    decreases |b| - i
  {
    if i >= |b| then Some([])
    else
      var units := FromCodePoint(CodeAt(b, i));
      if units.None? then None
      else
        Prepend(units.value, DecodeFrom(b, i + Taken(b[i])))
  }

  function Prepend(units: seq<Unit>, rest: Option<seq<Unit>>): Option<seq<Unit>> {
    if rest.None? then None else Some(units + rest.value)
  }

  lemma {:induction false} PrependNothing(rest: Option<seq<Unit>>)
    ensures Prepend([], rest) == rest
  {
    if rest.Some? {
      assert [] + rest.value == rest.value;
    }
  }

  lemma {:induction false} PrependTwice(a: seq<Unit>, b: seq<Unit>, rest: Option<seq<Unit>>)
    ensures Prepend(a, Prepend(b, rest)) == Prepend(a + b, rest)
  {
    if rest.Some? {
      assert a + (b + rest.value) == (a + b) + rest.value;
    }
  }

  function Decode(b: seq<Byte>): Option<seq<Unit>> {
    DecodeFrom(b, 0)
  }

  // ----- The loops of the code -----

  /** The branches of the encoder's loop body. */
  method PushCode(before: seq<Byte>, code: int) returns (out: seq<Byte>)
    requires 0 <= code < 0x11_0000
    ensures out == before + EncodeCode(code) && Section3(code, out[|before|..])
  {
    EncodeCodeInSection3(code);
    hide Section3;
    if code < 0x80 {
      out := before + [code];
    } else if code < 0x800 {
      out := before + [0xC0 + code / 64, 0x80 + code % 64];
    } else if code < 0x1_0000 {
      out := before + [0xE0 + code / 4096, 0x80 + code / 64 % 64, 0x80 + code % 64];
    } else {
      out := before + [0xF0 + code / 0x4_0000, 0x80 + code / 4096 % 64, 0x80 + code / 64 % 64, 0x80 + code % 64];
    }
  }

  method Utf8Encode(value: seq<Unit>) returns (out: seq<Byte>)
    ensures out == Encode(value)
  {
    out := [];
    var i := 0;
    assert value[0..] == value;
    while i < |value|
      invariant 0 <= i <= |value|
      invariant out + Encode(value[i..]) == Encode(value)
    {
      hide *;
      var code: int := CodePointAt(value, i);
      EncodeNext(value, i, out);
      ghost var next := i + Width(code);
      if code > 0xFFFF {
        i := i + 1;
      }
      out := PushCode(out, code);
      i := i + 1;
      assert i == next by { WidthCases(code); }
    }
  }

  lemma {:induction false} WidthCases(c: CodePoint)
    ensures Width(c) == if c > 0xFFFF then 2 else 1
  {
  }

  lemma {:induction false} EncodeNext(value: seq<Unit>, i: nat, out: seq<Byte>)
    requires i < |value| && out + Encode(value[i..]) == Encode(value)
    ensures var c := CodePointAt(value, i);
      i + Width(c) <= |value| && (out + EncodeCode(c)) + Encode(value[i + Width(c)..]) == Encode(value)
  {
    hide EncodeCode;
    var c := CodePointAt(value, i);
    assert c == CodePointAt(value[i..], 0);
    assert value[i..][Width(c)..] == value[i + Width(c)..];
  }

  method Utf8Decode(bytes: seq<Byte>) returns (out: Option<seq<Unit>>)
    ensures out == Decode(bytes)
  {
    hide FromCodePoint;
    var text: seq<Unit> := [];
    var i := 0;
    PrependNothing(DecodeFrom(bytes, 0));
    while i < |bytes|
      invariant 0 <= i
      invariant Decode(bytes) == Prepend(text, DecodeFrom(bytes, i))
      decreases |bytes| - i
    {
      var b := bytes[i];
      ghost var start := i;
      assert CodeAt(bytes, i) == CodeOf(b, Low6(bytes, i + 1), Low6(bytes, i + 2), Low6(bytes, i + 3));
      var code: nat;
      if b < 0x80 {
        code := b; i := i + 1;
      } else if b < 0xE0 {
        code := b % 32 * 64 + Low6(bytes, i + 1); i := i + 2;
      } else if b < 0xF0 {
        code := b % 16 * 4096 + Low6(bytes, i + 1) * 64 + Low6(bytes, i + 2); i := i + 3;
      } else {
        code := b % 8 * 0x4_0000 + Low6(bytes, i + 1) * 4096 + Low6(bytes, i + 2) * 64 + Low6(bytes, i + 3); i := i + 4;
      }
      assert code == CodeAt(bytes, start) && i == start + Taken(bytes[start]);
      var units := FromCodePoint(code);
      if units.None? {
        return None;
      }
      PrependTwice(text, units.value, DecodeFrom(bytes, i));
      text := text + units.value;
    }
    assert text + [] == text;
    return Some(text);
  }

  // ----- Round trip on every string, lone surrogates included -----

  /** The base-64 digits of a number. */
  lemma {:induction false} Digits(c: nat)
    ensures c == c / 64 * 64 + c % 64
    ensures c == c / 4096 * 4096 + c / 64 % 64 * 64 + c % 64
    ensures c == c / 0x4_0000 * 0x4_0000 + c / 4096 % 64 * 4096 + c / 64 % 64 * 64 + c % 64
  {
    assert c / 64 / 64 == c / 4096;
    assert c / 4096 / 64 == c / 0x4_0000;
  }

  lemma {:induction false} CodeOfEncoded(c: CodePoint)
    ensures var e := EncodeCode(c);
      && CodeOf(e[0], Low6(e, 1), Low6(e, 2), Low6(e, 3)) == c
      && Taken(e[0]) == |e|
  {
    if 0x800 <= c < 0x1_0000 {
      CodeOfEncoded3(c);
    } else if c >= 0x1_0000 {
      CodeOfEncoded4(c);
    }
  }

  lemma {:induction false} CodeOfEncoded3(c: CodePoint)
    requires 0x800 <= c < 0x1_0000
    ensures var e := EncodeCode(c);
      && CodeOf(e[0], Low6(e, 1), Low6(e, 2), Low6(e, 3)) == c
      && Taken(e[0]) == |e|
  {
    var a, x, y := c / 4096, c / 64 % 64, c % 64;
    Digits(c);
    assert a < 16 && (0xE0 + a) % 16 == a && (0x80 + x) % 64 == x && (0x80 + y) % 64 == y;
  }

  lemma {:induction false} CodeOfEncoded4(c: CodePoint)
    requires 0x1_0000 <= c
    ensures var e := EncodeCode(c);
      && CodeOf(e[0], Low6(e, 1), Low6(e, 2), Low6(e, 3)) == c
      && Taken(e[0]) == |e|
  {
    var a, x, y, z := c / 0x4_0000, c / 4096 % 64, c / 64 % 64, c % 64;
    Digits(c);
    assert a < 8 && (0xF0 + a) % 8 == a && (0x80 + x) % 64 == x && (0x80 + y) % 64 == y && (0x80 + z) % 64 == z;
  }

  lemma {:induction false} CodeReadsBack(pre: seq<Byte>, c: CodePoint, rest: seq<Byte>)
    ensures var b := pre + EncodeCode(c) + rest;
      CodeAt(b, |pre|) == c && Taken(b[|pre|]) == |EncodeCode(c)|
  {
    var e := EncodeCode(c);
    CodeOfEncoded(c);
    CodeAtWindow(pre + e + rest, |pre|, e);
  }

  /** Only the bytes that the lead byte asks for matter. */
  lemma {:induction false} CodeAtWindow(b: seq<Byte>, p: nat, e: seq<Byte>)
    requires e != [] && Taken(e[0]) == |e| && p + |e| <= |b| && b[p..p + |e|] == e
    ensures CodeAt(b, p) == CodeOf(e[0], Low6(e, 1), Low6(e, 2), Low6(e, 3))
  {
    forall k: nat | k < |e|
      ensures b[p + k] == e[k]
    {
      assert b[p..p + |e|][k] == e[k];
    }
    assert b[p + 0] == e[0];
    assert forall k: nat :: k < |e| ==> Low6(b, p + k) == Low6(e, k);
  }

  lemma {:induction false} PairSplits(high: int, low: int)
    requires IsHigh(high) && IsLow(low)
    ensures var d := PairValue(high, low) - 0x1_0000;
      0 <= d < 0x10_0000 && d / 0x400 == high - 0xD800 && d % 0x400 == low - 0xDC00
  {
  }

  lemma {:induction false} FromCodePointAt(s: seq<Unit>)
    requires s != []
    ensures var c := CodePointAt(s, 0); Width(c) <= |s| && FromCodePoint(c) == Some(s[..Width(c)])
  {
    if IsHigh(s[0]) && 1 < |s| && IsLow(s[1]) {
      PairSplits(s[0], s[1]);
      assert s[..2] == [s[0], s[1]];
    } else {
      assert s[..1] == [s[0]];
    }
  }

  lemma {:induction false} DecodeEncoded(pre: seq<Byte>, s: seq<Unit>)
    ensures DecodeFrom(pre + Encode(s), |pre|) == Some(s)
    decreases |s|
  {
    hide EncodeCode, CodeAt, FromCodePoint;
    if s == [] {
    } else {
      var c := CodePointAt(s, 0);
      var rest := s[Width(c)..];
      FromCodePointAt(s);
      CodeReadsBack(pre, c, Encode(rest));
      var b := pre + EncodeCode(c) + Encode(rest);
      assert b == pre + Encode(s);
      DecodeEncoded(pre + EncodeCode(c), rest);
      assert s == s[..Width(c)] + rest;
    }
  }

  lemma {:induction false} RoundTrip(s: seq<Unit>)
    ensures Decode(Encode(s)) == Some(s)
  {
    DecodeEncoded([], s);
    assert [] + Encode(s) == Encode(s);
  }

  // ----- RFC 3629 -----

  predicate IsScalar(c: int) {
    0 <= c < 0x11_0000 && !IsHigh(c) && !IsLow(c)
  }

  predicate IsTail(b: int) { 0x80 <= b < 0xC0 }

  /** The number with the given base-64 digits. */
  function FromDigits(a: int, x: int, y: int, z: int): int {
    a * 0x4_0000 + x * 4096 + y * 64 + z
  }

  /** The table of section 3: for each range of character numbers the octet count, the fixed bits,
      and the number as the sum of the payloads. */
  predicate Section3(c: int, b: seq<Byte>) {
    if c < 0x80 then |b| == 1 && b[0] == c
    else if c < 0x800 then
      |b| == 2 && 0xC0 <= b[0] < 0xE0 && IsTail(b[1]) && c == FromDigits(0, 0, b[0] - 0xC0, b[1] - 0x80)
    else if c < 0x1_0000 then
      |b| == 3 && 0xE0 <= b[0] < 0xF0 && IsTail(b[1]) && IsTail(b[2])
      && c == FromDigits(0, b[0] - 0xE0, b[1] - 0x80, b[2] - 0x80)
    else
      |b| == 4 && 0xF0 <= b[0] < 0xF8 && IsTail(b[1]) && IsTail(b[2]) && IsTail(b[3])
      && c == FromDigits(b[0] - 0xF0, b[1] - 0x80, b[2] - 0x80, b[3] - 0x80)
  }

  /** `UTF8-char` of the grammar in section 4. */
  predicate Utf8Char(b: seq<Byte>) {
    || (|b| == 1 && b[0] <= 0x7F)
    || (|b| == 2 && 0xC2 <= b[0] <= 0xDF && IsTail(b[1]))
    || (|b| == 3 && IsTail(b[2]) &&
        ((b[0] == 0xE0 && 0xA0 <= b[1] <= 0xBF) || (0xE1 <= b[0] <= 0xEC && IsTail(b[1]))
          || (b[0] == 0xED && 0x80 <= b[1] <= 0x9F) || (0xEE <= b[0] <= 0xEF && IsTail(b[1]))))
    || (|b| == 4 && IsTail(b[2]) && IsTail(b[3]) &&
        ((b[0] == 0xF0 && 0x90 <= b[1] <= 0xBF) || (0xF1 <= b[0] <= 0xF3 && IsTail(b[1]))
          || (b[0] == 0xF4 && 0x80 <= b[1] <= 0x8F)))
  }

  /** `UTF8-octets`: any number of `UTF8-char`s. */
  predicate Utf8Octets(b: seq<Byte>)
    decreases |b|
  {
    b == [] || exists n :: 1 <= n <= 4 && n <= |b| && Utf8Char(b[..n]) && Utf8Octets(b[n..])
  }

  /** No lone surrogates. */
  predicate WellFormed(s: seq<Unit>)
    decreases |s|
  {
    s == [] || (var c := CodePointAt(s, 0); IsScalar(c) && WellFormed(s[Width(c)..]))
  }

  lemma {:induction false} DigitsUnique(c: int, a: int, x: int, y: int, z: int)
    requires 0 <= a && 0 <= x < 64 && 0 <= y < 64 && 0 <= z < 64 && c == FromDigits(a, x, y, z)
    ensures a == c / 0x4_0000 && x == c / 4096 % 64 && y == c / 64 % 64 && z == c % 64
  {
    assert c == 64 * (a * 4096 + x * 64 + y) + z;
    assert c / 64 == a * 4096 + x * 64 + y == 64 * (a * 64 + x) + y;
    assert c / 4096 == c / 64 / 64 == a * 64 + x;
    assert c / 0x4_0000 == c / 4096 / 64 == a;
  }

  /** The encoder's bytes for a code point are bytes that the table of section 3 allows for it. */
  lemma {:induction false} EncodeCodeInSection3(c: CodePoint)
    ensures Section3(c, EncodeCode(c))
  {
    Digits(c);
  }

  /** ... and the only ones. */
  lemma {:induction false} Section3IsEncodeCode(c: CodePoint, b: seq<Byte>)
    requires Section3(c, b)
    ensures b == EncodeCode(c)
  {
    if c < 0x80 {
    } else if c < 0x800 {
      DigitsUnique(c, 0, 0, b[0] - 0xC0, b[1] - 0x80);
    } else if c < 0x1_0000 {
      DigitsUnique(c, 0, b[0] - 0xE0, b[1] - 0x80, b[2] - 0x80);
    } else {
      DigitsUnique(c, b[0] - 0xF0, b[1] - 0x80, b[2] - 0x80, b[3] - 0x80);
    }
  }

  /** The grammar of section 4 accepts exactly the encodings of scalar values. */
  lemma {:induction false} EncodeCodeIsChar(c: CodePoint)
    ensures Utf8Char(EncodeCode(c)) <==> IsScalar(c)
  {
    Digits(c);
  }

  lemma {:induction false} ShortCharIsSection3(u: seq<Byte>)
    requires Utf8Char(u) && |u| <= 2
    ensures var c := CodeOf(u[0], Low6(u, 1), Low6(u, 2), Low6(u, 3));
      Taken(u[0]) == |u| && IsScalar(c) && Section3(c, u)
  {
  }

  lemma {:induction false} Char3IsSection3(u: seq<Byte>)
    requires Utf8Char(u) && |u| == 3
    ensures var c := CodeOf(u[0], Low6(u, 1), Low6(u, 2), Low6(u, 3));
      Taken(u[0]) == |u| && IsScalar(c) && Section3(c, u)
  {
  }

  lemma {:induction false} Char4IsSection3(u: seq<Byte>)
    requires Utf8Char(u) && |u| == 4
    ensures var c := CodeOf(u[0], Low6(u, 1), Low6(u, 2), Low6(u, 3));
      Taken(u[0]) == |u| && IsScalar(c) && Section3(c, u)
  {
  }

  /** A grammatical character has the octets that section 3 gives for the number the decoder reads. */
  lemma {:induction false} CharIsSection3(u: seq<Byte>)
    requires Utf8Char(u)
    ensures var c := CodeOf(u[0], Low6(u, 1), Low6(u, 2), Low6(u, 3));
      Taken(u[0]) == |u| && IsScalar(c) && Section3(c, u)
  {
    if |u| <= 2 {
      ShortCharIsSection3(u);
    } else if |u| == 3 {
      Char3IsSection3(u);
    } else {
      Char4IsSection3(u);
    }
  }

  lemma {:induction false} CharReadsBack(pre: seq<Byte>, n: nat, b: seq<Byte>)
    requires |pre| + n <= |b| && b[..|pre|] == pre && Utf8Char(b[|pre|..|pre| + n])
    ensures Taken(b[|pre|]) == n && IsScalar(CodeAt(b, |pre|))
    ensures EncodeCode(CodeAt(b, |pre|)) == b[|pre|..|pre| + n]
  {
    hide Utf8Char, Section3, EncodeCode, CodeOf;
    var u := b[|pre|..|pre| + n];
    CharIsSection3(u);
    assert u[0] == b[|pre|];
    CodeAtWindow(b, |pre|, u);
    Section3IsEncodeCode(CodeAt(b, |pre|), u);
  }

  /** Encoding a character prefixes its octets, which the grammar can only split off as that character. */
  lemma {:induction false} OctetsSplit(c: CodePoint, rest: seq<Byte>)
    ensures Utf8Octets(EncodeCode(c) + rest) <==> IsScalar(c) && Utf8Octets(rest)
  {
    var b := EncodeCode(c) + rest;
    var m := |EncodeCode(c)|;
    EncodeCodeIsChar(c);
    assert b[..m] == EncodeCode(c) && b[m..] == rest;
    CodeReadsBack([], c, rest);
    assert [] + EncodeCode(c) + rest == b;
    if Utf8Octets(b) {
      var n :| 1 <= n <= 4 && n <= |b| && Utf8Char(b[..n]) && Utf8Octets(b[n..]);
      assert b[0..n] == b[..n];
      CharReadsBack([], n, b);
      assert n == m;
    }
  }

  /** The output is UTF-8 in the sense of RFC 3629 exactly for strings without lone surrogates. */
  lemma {:induction false} EncodesUtf8(s: seq<Unit>)
    ensures Utf8Octets(Encode(s)) <==> WellFormed(s)
    decreases |s|
  {
    if s != [] {
      var c := CodePointAt(s, 0);
      EncodesUtf8(s[Width(c)..]);
      OctetsSplit(c, Encode(s[Width(c)..]));
    }
  }

  lemma {:induction false} CodePointBack(c: CodePoint, rest: seq<Unit>)
    requires IsScalar(c)
    ensures var units := FromCodePoint(c);
      units.Some? && |units.value| == Width(c) && CodePointAt(units.value + rest, 0) == c && (units.value + rest)[Width(c)..] == rest
  {
  }

  /** Decoding goes through a grammatical character to what follows it. */
  lemma {:induction false} DecodeChar(pre: seq<Byte>, n: nat, rest: seq<Byte>, units: seq<Unit>)
    requires n <= |rest| && Utf8Char(rest[..n])
    requires DecodeFrom(pre + rest[..n] + rest[n..], |pre + rest[..n]|) == Some(units)
    ensures var r := DecodeFrom(pre + rest, |pre|);
      && r.Some? && (WellFormed(units) ==> WellFormed(r.value)) && Encode(r.value) == rest[..n] + Encode(units)
  {
    hide Utf8Char, EncodeCode, CodeOf, FromCodePoint, CodePointAt;
    var whole, p := pre + rest, |pre|;
    assert pre + rest[..n] + rest[n..] == whole;
    assert whole[p..p + n] == rest[..n];
    CharReadsBack(pre, n, whole);
    var c := CodeAt(whole, p);
    CodePointBack(c, units);
  }

  lemma {:induction false} FirstChar(b: seq<Byte>) returns (n: nat)
    requires Utf8Octets(b) && b != []
    ensures 1 <= n <= |b| && Utf8Char(b[..n]) && Utf8Octets(b[n..])
  {
    hide Utf8Char;
    n :| 1 <= n <= 4 && n <= |b| && Utf8Char(b[..n]) && Utf8Octets(b[n..]);
  }

  lemma {:induction false} DecodeValid(pre: seq<Byte>, b: seq<Byte>)
    requires Utf8Octets(b)
    ensures var r := DecodeFrom(pre + b, |pre|); r.Some? && WellFormed(r.value) && Encode(r.value) == b
    decreases |b|
  {
    if b != [] {
      hide Utf8Char, Utf8Octets, Encode, WellFormed, DecodeFrom;
      var n := FirstChar(b);
      DecodeValid(pre + b[..n], b[n..]);
      DecodeChar(pre, n, b, DecodeFrom(pre + b[..n] + b[n..], |pre + b[..n]|).value);
      assert b == b[..n] + b[n..];
    }
  }

  /** Every UTF-8 byte string decodes, to a string without lone surrogates that encodes to the same bytes. */
  lemma {:induction false} DecodesUtf8(b: seq<Byte>)
    requires Utf8Octets(b)
    ensures Decode(b).Some? && WellFormed(Decode(b).value) && Encode(Decode(b).value) == b
  {
    DecodeValid([], b);
    assert [] + b == b;
  }
}
