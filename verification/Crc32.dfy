/** Iterating a step function, with values of any type. */
module Iteration {
  function Iter<T>(f: T -> T, x: T, n: nat): T
    decreases n
  {
    if n == 0 then x else Iter(f, f(x), n - 1)
  }

  /** If one step commutes with the projection, so do any number of steps. */
  lemma {:induction false} Simulate<S(!new), T>(step: S -> S, f: T -> T, proj: S -> T, s: S, n: nat)
    requires forall x: S :: proj(step(x)) == f(proj(x))
    ensures proj(Iter(step, s, n)) == Iter(f, proj(s), n)
    decreases n
  {
    if n > 0 {
      Simulate(step, f, proj, step(s), n - 1);
    }
  }

  lemma {:induction false} InjectiveIter<T(!new)>(f: T -> T, x: T, y: T, n: nat)
    requires forall a, b :: f(a) == f(b) ==> a == b
    requires Iter(f, x, n) == Iter(f, y, n)
    ensures x == y
    decreases n
  {
    if n > 0 {
      InjectiveIter(f, f(x), f(y), n - 1);
    }
  }
}

/** Unsigned numbers as bits, least significant bit first. */
module Bits {
  type Byte = b: int | 0 <= b < 256

  function Pow2(n: nat): (p: nat)
    ensures p > 0
  {
    if n == 0 then 1 else 2 * Pow2(n - 1)
  }

  function Zeros(n: nat): (r: seq<bool>)
    ensures |r| == n && forall i :: 0 <= i < n ==> !r[i]
  {
    if n == 0 then [] else [false] + Zeros(n - 1)
  }

  function BitsOf(v: nat, n: nat): (r: seq<bool>)
    ensures |r| == n
  {
    if n == 0 then [] else [v % 2 == 1] + BitsOf(v / 2, n - 1)
  }

  function NatOf(bits: seq<bool>): nat {
    if bits == [] then 0 else (if bits[0] then 1 else 0) + 2 * NatOf(bits[1..])
  }

  lemma {:induction false} NatOfBound(bits: seq<bool>)
    ensures NatOf(bits) < Pow2(|bits|)
  {
    if bits != [] {
      NatOfBound(bits[1..]);
    }
  }

  lemma {:induction false} NatOfBitsOf(v: nat, n: nat)
    requires v < Pow2(n)
    ensures NatOf(BitsOf(v, n)) == v
  {
    if n > 0 {
      NatOfBitsOf(v / 2, n - 1);
      assert BitsOf(v, n)[1..] == BitsOf(v / 2, n - 1);
    }
  }

  lemma {:induction false} BitsOfNatOf(bits: seq<bool>)
    ensures BitsOf(NatOf(bits), |bits|) == bits
  {
    if bits != [] {
      BitsOfNatOf(bits[1..]);
      assert NatOf(bits) / 2 == NatOf(bits[1..]);
      assert bits == [bits[0]] + bits[1..];
    }
  }

  lemma {:induction false} TopBitSet(v: nat, n: nat)
    requires n > 0 && Pow2(n - 1) <= v < Pow2(n)
    ensures BitsOf(v, n)[n - 1]
  {
    if n > 1 {
      TopBitSet(v / 2, n - 1);
    }
  }

  /** A number that fits in `n` bits has only zeros above them. */
  lemma {:induction false} HighBitsZero(v: nat, n: nat, m: nat)
    requires v < Pow2(n) && n <= m
    ensures BitsOf(v, m) == BitsOf(v, n) + Zeros(m - n)
  {
    if n > 0 {
      HighBitsZero(v / 2, n - 1, m - 1);
    } else if m > 0 {
      HighBitsZero(0, 0, m - 1);
    }
  }

  function Xor(a: seq<bool>, b: seq<bool>): (r: seq<bool>)
    requires |a| == |b|
    ensures |r| == |a|
  {
    seq(|a|, i requires 0 <= i < |a| => a[i] != b[i])
  }

  lemma {:induction false} XorCancels(a: seq<bool>, b: seq<bool>)
    requires |a| == |b|
    ensures Xor(Xor(a, b), b) == a
    ensures Xor(b, Xor(b, a)) == a
  {
  }

  /** `bits >>> n`, the width kept. */
  function ShiftRight(bits: seq<bool>, n: nat): (r: seq<bool>)
    requires n <= |bits|
    ensures |r| == |bits|
  {
    bits[n..] + Zeros(n)
  }

  lemma {:induction false} ShiftRightTwice(bits: seq<bool>, n: nat)
    requires n < |bits|
    ensures ShiftRight(ShiftRight(bits, n), 1) == ShiftRight(bits, n + 1)
  {
  }
}

/** The CRC of the panel's ZIP export.
    `BitSerial` is the reference: the reflected shift register of section 8 of RFC 1952,
    fed one message bit at a time. `TableEntry` is one entry of the 256-entry table that the
    panel builds; the lemmas show that looking the table up once per byte is the same run. */
module Crc32 {
  import opened Iteration
  import opened Bits

  type Word = w: seq<bool> | |w| == 32 witness Zeros(32)

  const POLY_NUMBER: nat := 0xEDB8_8320
  const POLY: Word := BitsOf(POLY_NUMBER, 32)
  const ALL_ONES: Word := BitsOf(0xFFFF_FFFF, 32)
  const ZERO: Word := Zeros(32)

  /** One iteration of the table-building loop. */
  function ShiftOnce(c: Word): Word {
    if c[0] then Xor(POLY, ShiftRight(c, 1)) else ShiftRight(c, 1)
  }

  function TableEntry(index: Word): Word {
    Iter(ShiftOnce, index, 8)
  }

  /** The register after one message bit. */
  function FeedBit(c: Word, bit: bool): Word {
    if c[0] != bit then Xor(POLY, ShiftRight(c, 1)) else ShiftRight(c, 1)
  }

  function ByteWord(d: Byte): Word {
    BitsOf(d, 32)
  }

  /** Feeds the lowest bit of `s.1` into the register `s.0` and moves on to the next bit. */
  function FeedLowBit(s: (Word, Word)): (Word, Word) {
    (FeedBit(s.0, s.1[0]), ShiftRight(s.1, 1))
  }

  /** The register after the eight bits of a byte, least significant first. */
  function FeedByte(c: Word, d: Byte): Word {
    Iter(FeedLowBit, (c, ByteWord(d)), 8).0
  }

  function BitSerial(c: Word, data: seq<Byte>): Word
    decreases |data|
  {
    if data == [] then c else BitSerial(FeedByte(c, data[0]), data[1..])
  }

  /** CRC-32: register preset to ones, result complemented. */
  function CrcBits(data: seq<Byte>): Word {
    Xor(BitSerial(ALL_ONES, data), ALL_ONES)
  }

  function Crc(data: seq<Byte>): (crc: nat)
    ensures crc < 0x1_0000_0000
  {
    NatOfBound(CrcBits(data));
    Pow32();
    NatOf(CrcBits(data))
  }

  lemma {:induction false} Pow32()
    ensures Pow2(8) == 256 && Pow2(31) == 0x8000_0000 && Pow2(32) == 0x1_0000_0000
  {
    assert Pow2(4) == 16 && Pow2(8) == 256;
    assert Pow2(12) == 4096 && Pow2(16) == 0x1_0000;
    assert Pow2(20) == 0x10_0000 && Pow2(24) == 0x100_0000;
    assert Pow2(28) == 0x1000_0000;
  }

  // ----- The shift is linear over exclusive or -----

  function XorPair(s: (Word, Word)): Word { Xor(s.0, s.1) }

  function ShiftBoth(s: (Word, Word)): (Word, Word) { (ShiftOnce(s.0), ShiftOnce(s.1)) }

  function First(s: (Word, Word)): Word { s.0 }

  function Second(s: (Word, Word)): Word { s.1 }

  function Halve(c: Word): Word { ShiftRight(c, 1) }

  /** A shift step with any polynomial. */
  function ShiftWith(c: Word, p: Word): Word {
    if c[0] then Xor(p, ShiftRight(c, 1)) else ShiftRight(c, 1)
  }

  lemma {:induction false} ShiftWithLinear(a: Word, b: Word, p: Word)
    ensures ShiftWith(Xor(a, b), p) == Xor(ShiftWith(a, p), ShiftWith(b, p))
  {
  }

  lemma {:induction false} ShiftOnceLinear(a: Word, b: Word)
    ensures ShiftOnce(Xor(a, b)) == Xor(ShiftOnce(a), ShiftOnce(b))
  {
    ShiftWithLinear(a, b, POLY);
  }

  /** The table entry of an exclusive or is the exclusive or of the table entries. */
  lemma {:induction false} TableEntryLinear(a: Word, b: Word)
    ensures TableEntry(Xor(a, b)) == Xor(TableEntry(a), TableEntry(b))
  {
    forall s: (Word, Word)
      ensures XorPair(ShiftBoth(s)) == ShiftOnce(XorPair(s))
    {
      ShiftOnceLinear(s.0, s.1);
    }
    Simulate(ShiftBoth, ShiftOnce, XorPair, (a, b), 8);
    Simulate(ShiftBoth, ShiftOnce, First, (a, b), 8);
    Simulate(ShiftBoth, ShiftOnce, Second, (a, b), 8);
  }

  // ----- One byte: eight message bits are one table look-up -----

  lemma {:induction false} FeedBitIsShift(c: Word, d: Word)
    ensures Xor(FeedBit(c, d[0]), ShiftRight(d, 1)) == ShiftOnce(Xor(c, d))
  {
  }

  lemma {:induction false} HalveIsShift(d: Word, n: nat)
    requires n <= 32
    ensures Iter(Halve, d, n) == ShiftRight(d, n)
  {
    if n == 0 {
    } else {
      IterLast(Halve, d, n - 1);
      HalveIsShift(d, n - 1);
      ShiftRightTwice(d, n - 1);
    }
  }

  lemma {:induction false} IterLast<T>(f: T -> T, x: T, n: nat)
    ensures Iter(f, x, n + 1) == f(Iter(f, x, n))
    decreases n
  {
    if n > 0 {
      IterLast(f, f(x), n - 1);
    }
  }

  /** With no low bit left to tap, the iterations only move the register. */
  lemma {:induction false} ZerosOnlyMove(h: Word, n: nat)
    requires n <= 32 && forall i :: 0 <= i < n ==> !h[i]
    ensures Iter(ShiftOnce, h, n) == ShiftRight(h, n)
  {
    if n == 0 {
    } else {
      IterLast(ShiftOnce, h, n - 1);
      ZerosOnlyMove(h, n - 1);
      ShiftRightTwice(h, n - 1);
    }
  }

  /** Feeding the bits of a byte is eight shifts of the register mixed with the byte. */
  lemma {:induction false} FeedByteIsShift(c: Word, d: Byte)
    ensures FeedByte(c, d) == TableEntry(Xor(c, ByteWord(d)))
  {
    forall s: (Word, Word)
      ensures XorPair(FeedLowBit(s)) == ShiftOnce(XorPair(s))
    {
      FeedBitIsShift(s.0, s.1);
    }
    var s := (c, ByteWord(d));
    Simulate(FeedLowBit, ShiftOnce, XorPair, s, 8);
    Simulate(FeedLowBit, Halve, Second, s, 8);
    HalveIsShift(ByteWord(d), 8);
    Pow32();
    HighBitsZero(d, 8, 32);
    var r := Iter(FeedLowBit, s, 8);
    assert r.1 == ZERO;
    assert Xor(r.0, ZERO) == r.0;
  }

  /** The low byte of a word, as an index into the table. */
  function LowByte(x: Word): Word {
    x[..8] + Zeros(24)
  }

  /** The panel's update of the register for one byte: the table's entry xor the register without its low byte. */
  function TableStep(c: Word, d: Byte): Word {
    Xor(TableEntry(LowByte(Xor(c, ByteWord(d)))), ShiftRight(c, 8))
  }

  /** One table look-up is the eight bit-serial steps. */
  lemma {:induction false} TableStepIsFeed(c: Word, d: Byte)
    ensures TableStep(c, d) == FeedByte(c, d)
  {
    var x := Xor(c, ByteWord(d));
    var high: Word := Zeros(8) + x[8..];
    FeedByteIsShift(c, d);
    assert Xor(LowByte(x), high) == x;
    TableEntryLinear(LowByte(x), high);
    ZerosOnlyMove(high, 8);
    Pow32();
    HighBitsZero(d, 8, 32);
    assert ShiftRight(high, 8) == ShiftRight(c, 8);
  }

  // ----- What the CRC is for -----

  lemma {:induction false} BitSerialAppend(c: Word, a: seq<Byte>, b: seq<Byte>)
    ensures BitSerial(c, a + b) == BitSerial(BitSerial(c, a), b)
    decreases |a|
  {
    if a == [] {
      assert a + b == b;
    } else {
      assert (a + b)[1..] == a[1..] + b;
      BitSerialAppend(FeedByte(c, a[0]), a[1..], b);
    }
  }

  lemma {:induction false} PolyTopBit()
    ensures POLY[31]
  {
    Pow32();
    TopBitSet(POLY_NUMBER, 32);
  }

  /** The top bit of the result tells whether `p` was mixed in. */
  lemma {:induction false} TopBitTells(a: Word, b: Word, p: Word)
    requires p[31]
    requires (if a[0] then Xor(p, ShiftRight(a, 1)) else ShiftRight(a, 1))
          == (if b[0] then Xor(p, ShiftRight(b, 1)) else ShiftRight(b, 1))
    ensures a == b
  {
    var sa, sb := ShiftRight(a, 1), ShiftRight(b, 1);
    assert !sa[31] && !sb[31];
    assert a[0] == b[0];
    if a[0] {
      XorCancels(sa, p);
      XorCancels(sb, p);
    }
    assert sa == sb;
    assert a == [a[0]] + sa[..31] && b == [b[0]] + sb[..31];
  }

  lemma {:induction false} ShiftOnceInjective(a: Word, b: Word)
    requires ShiftOnce(a) == ShiftOnce(b)
    ensures a == b
  {
    PolyTopBit();
    TopBitTells(a, b, POLY);
  }

  lemma {:induction false} TableEntryInjective(a: Word, b: Word)
    requires TableEntry(a) == TableEntry(b)
    ensures a == b
  {
    forall x: Word, y: Word | ShiftOnce(x) == ShiftOnce(y)
      ensures x == y
    {
      ShiftOnceInjective(x, y);
    }
    InjectiveIter(ShiftOnce, a, b, 8);
  }

  lemma {:induction false} FeedByteInjective(c: Word, e: Word, d: Byte)
    requires FeedByte(c, d) == FeedByte(e, d)
    ensures c == e
  {
    FeedByteIsShift(c, d);
    FeedByteIsShift(e, d);
    TableEntryInjective(Xor(c, ByteWord(d)), Xor(e, ByteWord(d)));
    XorCancels(c, ByteWord(d));
    XorCancels(e, ByteWord(d));
  }

  lemma {:induction false} FeedByteSeparates(c: Word, x: Byte, y: Byte)
    requires FeedByte(c, x) == FeedByte(c, y)
    ensures x == y
  {
    FeedByteIsShift(c, x);
    FeedByteIsShift(c, y);
    TableEntryInjective(Xor(c, ByteWord(x)), Xor(c, ByteWord(y)));
    XorCancels(ByteWord(x), c);
    XorCancels(ByteWord(y), c);
    Pow32();
    NatOfBitsOf(x, 32);
    NatOfBitsOf(y, 32);
  }

  lemma {:induction false} BitSerialInjective(c: Word, e: Word, data: seq<Byte>)
    requires BitSerial(c, data) == BitSerial(e, data)
    ensures c == e
    decreases |data|
  {
    if data == [] {
    } else {
      BitSerialInjective(FeedByte(c, data[0]), FeedByte(e, data[0]), data[1..]);
      FeedByteInjective(c, e, data[0]);
    }
  }

  lemma {:induction false} BitSerialThrough(pre: seq<Byte>, x: Byte, post: seq<Byte>)
    ensures BitSerial(ALL_ONES, pre + [x] + post) == BitSerial(FeedByte(BitSerial(ALL_ONES, pre), x), post)
  {
    var c := BitSerial(ALL_ONES, pre);
    BitSerialAppend(ALL_ONES, pre, [x]);
    BitSerialAppend(ALL_ONES, pre + [x], post);
    assert [x][1..] == [];
    assert BitSerial(c, [x]) == FeedByte(c, x);
  }

  /** Every change confined to one byte, at any position of any message, changes the CRC. */
  lemma {:induction false} OneByteErrorDetected(pre: seq<Byte>, x: Byte, y: Byte, post: seq<Byte>)
    requires x != y
    ensures Crc(pre + [x] + post) != Crc(pre + [y] + post)
  {
    var mx, my := pre + [x] + post, pre + [y] + post;
    if Crc(mx) == Crc(my) {
      BitsOfNatOf(CrcBits(mx));
      BitsOfNatOf(CrcBits(my));
      XorCancels(BitSerial(ALL_ONES, mx), ALL_ONES);
      XorCancels(BitSerial(ALL_ONES, my), ALL_ONES);
      BitSerialThrough(pre, x, post);
      BitSerialThrough(pre, y, post);
      var c := BitSerial(ALL_ONES, pre);
      BitSerialInjective(FeedByte(c, x), FeedByte(c, y), post);
      FeedByteSeparates(c, x, y);
    }
  }
}
