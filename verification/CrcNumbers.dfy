/** The checksum as plain arithmetic on numbers, with the constants of RFC 1952. */
module CrcNumbers {
  import opened Iteration
  import opened Bits
  import opened Crc32

  /** Exclusive or of the low `n` bits. */
  function XorNumber(a: nat, b: nat, n: nat): nat {
    if n == 0 then 0 else (if a % 2 != b % 2 then 1 else 0) + 2 * XorNumber(a / 2, b / 2, n - 1)
  }

  /** The register after one message bit: halved, and reduced by the polynomial if the bit that falls out differs from it. */
  function ShiftIn(c: nat, bit: nat): nat {
    if c % 2 != bit then XorNumber(0xEDB8_8320, c / 2, 32) else c / 2
  }

  /** ... after the low `n` bits of a number, the lowest first. */
  function ShiftInBits(c: nat, d: nat, n: nat): nat
    decreases n
  {
    if n == 0 then c else ShiftInBits(ShiftIn(c, d % 2), d / 2, n - 1)
  }

  function ShiftInBytes(c: nat, data: seq<Byte>): nat
    decreases |data|
  {
    if data == [] then c else ShiftInBits(ShiftInBytes(c, data[..|data| - 1]), data[|data| - 1], 8)
  }

  lemma {:induction false} XorIsNumber(a: nat, b: nat, n: nat)
    ensures Xor(BitsOf(a, n), BitsOf(b, n)) == BitsOf(XorNumber(a, b, n), n) && XorNumber(a, b, n) < Pow2(n)
  {
    if n > 0 {
      XorIsNumber(a / 2, b / 2, n - 1);
      var x := XorNumber(a, b, n);
      assert x / 2 == XorNumber(a / 2, b / 2, n - 1) && x % 2 == if a % 2 != b % 2 then 1 else 0;
      var r := Xor(BitsOf(a, n), BitsOf(b, n));
      assert r[0] == (a % 2 != b % 2);
      assert r[1..] == Xor(BitsOf(a / 2, n - 1), BitsOf(b / 2, n - 1));
      assert r == [r[0]] + r[1..];
    }
  }

  lemma {:induction false} HalveIsNumber(c: nat)
    requires c < Pow2(32)
    ensures ShiftRight(BitsOf(c, 32), 1) == BitsOf(c / 2, 32)
  {
    assert Pow2(32) == 2 * Pow2(31);
    HighBitsZero(c / 2, 31, 32);
    assert BitsOf(c, 32)[1..] == BitsOf(c / 2, 31);
  }

  lemma {:induction false} ShiftInIs(c: nat, bit: bool)
    requires c < Pow2(32)
    ensures FeedBit(BitsOf(c, 32), bit) == BitsOf(ShiftIn(c, if bit then 1 else 0), 32) && ShiftIn(c, if bit then 1 else 0) < Pow2(32)
  {
    hide XorNumber, Xor, ShiftRight;
    HalveIsNumber(c);
    XorIsNumber(POLY_NUMBER, c / 2, 32);
    assert BitsOf(c, 32)[0] == (c % 2 == 1);
  }

  lemma {:induction false} ShiftInBitsIs(s: (Word, Word), c: nat, d: nat, n: nat)
    requires c < Pow2(32) && d < Pow2(32) && s.0 == BitsOf(c, 32) && s.1 == BitsOf(d, 32)
    ensures Iter(FeedLowBit, s, n).0 == BitsOf(ShiftInBits(c, d, n), 32) && ShiftInBits(c, d, n) < Pow2(32)
    decreases n
  {
    hide FeedBit, ShiftRight, ShiftIn, BitsOf, Pow2;
    if n > 0 {
      LowBit(d);
      ShiftInIs(c, d % 2 == 1);
      HalveIsNumber(d);
      ShiftInBitsIs(FeedLowBit(s), ShiftIn(c, d % 2), d / 2, n - 1);
    }
  }

  lemma {:induction false} LowBit(d: nat)
    ensures BitsOf(d, 32)[0] == (d % 2 == 1)
  {
  }

  lemma {:induction false} ShiftInBytesIs(w: Word, c: nat, data: seq<Byte>)
    requires c < Pow2(32) && w == BitsOf(c, 32)
    ensures BitSerial(w, data) == BitsOf(ShiftInBytes(c, data), 32) && ShiftInBytes(c, data) < Pow2(32)
    decreases |data|
  {
    hide ShiftInBits, FeedByte, BitsOf, Pow2;
    if data != [] {
      var init, last := data[..|data| - 1], data[|data| - 1];
      ShiftInBytesIs(w, c, init);
      assert data == init + [last];
      BitSerialAppend(w, init, [last]);
      OneByte(BitSerial(w, init), ShiftInBytes(c, init), last);
    }
  }

  lemma {:induction false} OneByte(w: Word, c: nat, d: Byte)
    requires c < Pow2(32) && w == BitsOf(c, 32)
    ensures BitSerial(w, [d]) == BitsOf(ShiftInBits(c, d, 8), 32) && ShiftInBits(c, d, 8) < Pow2(32)
  {
    hide Iter, FeedLowBit, ShiftInBits, BitsOf;
    assert [d][1..] == [];
    Pow32();
    ShiftInBitsIs((w, ByteWord(d)), c, d, 8);
  }

  lemma {:induction false} ComplementIs(c: nat, n: nat)
    requires c < Pow2(n)
    ensures XorNumber(c, Pow2(n) - 1, n) == Pow2(n) - 1 - c
  {
    if n > 0 {
      assert (Pow2(n) - 1) / 2 == Pow2(n - 1) - 1 && (Pow2(n) - 1) % 2 == 1;
      ComplementIs(c / 2, n - 1);
    }
  }

  /** The checksum is what the arithmetic gives: register preset to ones, result complemented. */
  lemma {:induction false} CrcIsNumber(data: seq<Byte>)
    ensures Crc(data) == 0xFFFF_FFFF - ShiftInBytes(0xFFFF_FFFF, data)
  {
    hide ShiftInBytes, BitSerial, BitsOf, XorNumber;
    Pow32();
    ShiftInBytesIs(ALL_ONES, 0xFFFF_FFFF, data);
    var c := ShiftInBytes(0xFFFF_FFFF, data);
    XorIsNumber(c, 0xFFFF_FFFF, 32);
    ComplementIs(c, 32);
    NatOfBitsOf(0xFFFF_FFFF - c, 32);
  }
}
