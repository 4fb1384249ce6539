/**
 The ZIP checksum: table-driven as in crc32.c, and bit by bit as its standard defines it
 (section 8 of RFC 1952; section 4.4.7 of the PKWARE ZIP APPNOTE).
 */
module Crc32 {
  import opened Bits

  const WORD := 0x1_0000_0000

  /** uint32_t and uint8_t. */
  type Word = w: nat | w < WORD
  type Byte = b: nat | b < 256

  /** The reflected generator polynomial. */
  const POLYNOMIAL: Word := 0xedb88320
  const START: Word := 0xffffffff

  // ---------- the definition, bit by bit ----------

  lemma WordSize()
    ensures Pow2(32) == WORD && Pow2(31) == WORD / 2 && Pow2(8) == 256
  {
    assert Pow2(8) == 256;
    assert Pow2(16) == 256 * 256;
    assert Pow2(24) == 256 * 256 * 256;
    assert Pow2(31) == 128 * 256 * 256 * 256;
  }

  function XorWord(a: Word, b: Word): Word {
    WordSize();
    XorBound(a, b, 32);
    Xor(a, b)
  }

  /** One step of the shift register. */
  function Shift(v: Word): (r: Word)
    ensures r == Step(v, POLYNOMIAL)
  {
    if v % 2 == 1 then XorWord(v / 2, POLYNOMIAL) else v / 2
  }

  /** Feed the lowest `n` bits of `bits` into the register, least significant first. */
  function FeedBits(crc: Word, bits: Word, n: nat): Word
    decreases n, crc, bits
  {
    if n == 0 then crc else FeedBits(Shift(XorWord(crc, bits % 2)), bits / 2, n - 1)
  }

  function FeedByte(crc: Word, b: Byte): Word { FeedBits(crc, b, 8) }

  function FeedBytes(crc: Word, data: seq<Byte>): Word
    decreases |data|
  {
    if data == [] then crc else FeedBytes(FeedByte(crc, data[0]), data[1..])
  }

  function Finish(crc: Word): Word { WORD - 1 - crc }

  /** The checksum of a message. */
  function Crc(data: seq<Byte>): Word { Finish(FeedBytes(START, data)) }

  // ---------- the register as a linear map ----------

  function Shifts(v: Word, n: nat): Word
    decreases n, v
  {
    if n == 0 then v else Shifts(Shift(v), n - 1)
  }

  lemma ShiftLinear(x: Word, y: Word)
    ensures Shift(XorWord(x, y)) == XorWord(Shift(x), Shift(y))
  {
    StepLinear(x, y, POLYNOMIAL);
  }

  lemma {:induction false} ShiftsLinear(x: Word, y: Word, n: nat)
    ensures Shifts(XorWord(x, y), n) == XorWord(Shifts(x, n), Shifts(y, n))
    decreases n
  {
    if n > 0 {
      ShiftLinear(x, y);
      ShiftsLinear(Shift(x), Shift(y), n - 1);
    }
  }

  lemma {:induction false} ShiftsAdd(x: Word, m: nat, n: nat)
    ensures Shifts(Shifts(x, m), n) == Shifts(x, m + n)
    decreases m
  {
    if m > 0 { ShiftsAdd(Shift(x), m - 1, n); }
  }

  /** The polynomial sets the top bit, so the register shows whether it was added. */
  lemma {:induction false} TopBit(v: nat, p: nat, n: nat)
    requires v < Pow2(n) <= p < 2 * Pow2(n)
    ensures Xor(v, p) >= Pow2(n)
    decreases n
  {
    if n > 0 { TopBit(v / 2, p / 2, n - 1); }
  }

  lemma ShiftInjective(x: Word, y: Word)
    requires Shift(x) == Shift(y)
    ensures x == y
  {
    WordSize();
    TopBit(x / 2, POLYNOMIAL, 31);
    TopBit(y / 2, POLYNOMIAL, 31);
    XorCancels(x / 2, POLYNOMIAL);
    XorCancels(y / 2, POLYNOMIAL);
    assert x % 2 == y % 2;
    SameHalves(x, y);
  }

  lemma {:induction false} ShiftsInjective(x: Word, y: Word, n: nat)
    requires Shifts(x, n) == Shifts(y, n)
    ensures x == y
    decreases n
  {
    if n > 0 {
      ShiftsInjective(Shift(x), Shift(y), n - 1);
      ShiftInjective(x, y);
    }
  }

  /** A word whose low bits are zero only moves down. */
  lemma {:induction false} SlideDown(h: nat, n: nat)
    requires h * Pow2(n) < WORD
    ensures h < WORD && Shifts(h * Pow2(n), n) == h
    decreases n
  {
    if n > 0 {
      DoubleProduct(h, Pow2(n - 1));
      SlideDown(h, n - 1);
    }
  }

  lemma SlideByte(h: nat)
    requires 256 * h < WORD
    ensures Shifts(256 * h, 8) == h
  {
    WordSize();
    SlideDown(h, 8);
  }

  lemma FeedOneBit(crc: Word, bits: Word)
    ensures Shift(XorWord(crc, bits)) == XorWord(Shift(XorWord(crc, bits % 2)), bits / 2)
  {
    var low: Word, rest: Word := bits % 2, 2 * (bits / 2);
    JoinBit(bits / 2, low);
    XorAssociates(crc, low, rest);
    ShiftLinear(XorWord(crc, low), rest);
  }

  /** Feeding bits one at a time is adding them all at once and then shifting. */
  lemma {:induction false} FeedBitsIsShifts(crc: Word, bits: Word, n: nat)
    requires bits < Pow2(n)
    ensures FeedBits(crc, bits, n) == Shifts(XorWord(crc, bits), n)
    decreases n
  {
    if n > 0 {
      FeedOneBit(crc, bits);
      FeedBitsIsShifts(Shift(XorWord(crc, bits % 2)), bits / 2, n - 1);
    } else {
      XorZero(crc);
    }
  }

  lemma FeedByteIsShifts(crc: Word, b: Byte)
    ensures FeedByte(crc, b) == Shifts(XorWord(crc, b), 8)
  {
    WordSize();
    FeedBitsIsShifts(crc, b, 8);
  }

  // ---------- the table ----------

  predicate IsTable(table: seq<Word>) {
    |table| == 256 && forall i :: 0 <= i < 256 ==> table[i] == Shifts(i, 8)
  }

  /** One look-up does the work of eight shifts. */
  lemma LookupIsFeedByte(crc: Word, b: Byte)
    ensures XorWord(Shifts(XorWord(crc, b) % 256, 8), crc / 256) == FeedByte(crc, b)
  {
    var x := XorWord(crc, b);
    var low: Word, high: nat := x % 256, x / 256;
    HighByte(crc, b);
    JoinByte(high, low);
    SlideByte(high);
    ShiftsLinear(low, 256 * high, 8);
    FeedByteIsShifts(crc, b);
  }

  method InitTable(table: array<Word>)
    requires table.Length == 256
    modifies table
    ensures IsTable(table[..])
  {
    for i := 0 to 256
      invariant forall k :: 0 <= k < i ==> table[k] == Shifts(k, 8)
    {
      var val: Word := i;
      for j := 0 to 8
        invariant Shifts(val, 8 - j) == Shifts(i, 8)
      {
        val := if val % 2 == 1 then XorWord(val / 2, POLYNOMIAL) else val / 2;
      }
      table[i] := val;
    }
  }

  /** Updating with a block of memory through the table feeds its bytes, bit by bit. */
  method Update(table: array<Word>, crc: Word, data: seq<Byte>) returns (r: Word)
    requires IsTable(table[..])
    ensures r == FeedBytes(crc, data)
  {
    r := crc;
    for cur := 0 to |data|
      invariant FeedBytes(crc, data) == FeedBytes(r, data[cur..])
    {
      var b := data[cur];
      assert data[cur..][1..] == data[cur + 1..];
      LookupIsFeedByte(r, b);
      var index := XorWord(r, b) % 256;
      assert table[..][index] == Shifts(index, 8);
      r := XorWord(table[index], r / 256);
    }
  }

  // ---------- messages ----------

  /** A message can be fed in pieces. */
  lemma {:induction false} FeedConcat(crc: Word, a: seq<Byte>, b: seq<Byte>)
    ensures FeedBytes(crc, a + b) == FeedBytes(FeedBytes(crc, a), b)
    decreases |a|
  {
    if a == [] {
      assert a + b == b;
    } else {
      assert (a + b)[1..] == a[1..] + b;
      FeedConcat(FeedByte(crc, a[0]), a[1..], b);
    }
  }

  lemma FeedByteInjective(x: Word, y: Word, b: Byte)
    requires FeedByte(x, b) == FeedByte(y, b)
    ensures x == y
  {
    FeedByteIsShifts(x, b);
    FeedByteIsShifts(y, b);
    ShiftsInjective(XorWord(x, b), XorWord(y, b), 8);
    XorCancels(x, b);
    XorCancels(y, b);
  }

  /** Nothing that follows can undo a difference in the register. */
  lemma {:induction false} FeedInjective(x: Word, y: Word, data: seq<Byte>)
    requires FeedBytes(x, data) == FeedBytes(y, data)
    ensures x == y
    decreases |data|
  {
    if data != [] {
      FeedInjective(FeedByte(x, data[0]), FeedByte(y, data[0]), data[1..]);
      FeedByteInjective(x, y, data[0]);
    }
  }

  function XorByte(a: Byte, b: Byte): Byte {
    WordSize();
    XorBound(a, b, 8);
    Xor(a, b)
  }

  function XorBytes(a: seq<Byte>, b: seq<Byte>): seq<Byte>
    requires |a| == |b|
  {
    seq(|a|, i requires 0 <= i < |a| => XorByte(a[i], b[i]))
  }

  /** The checksum register is linear in the message and its start value together. */
  lemma {:induction false} FeedLinear(x: Word, y: Word, a: seq<Byte>, b: seq<Byte>)
    requires |a| == |b|
    ensures FeedBytes(XorWord(x, y), XorBytes(a, b)) == XorWord(FeedBytes(x, a), FeedBytes(y, b))
    decreases |a|
  {
    if a != [] {
      assert XorBytes(a, b)[1..] == XorBytes(a[1..], b[1..]);
      FeedByteIsShifts(x, a[0]);
      FeedByteIsShifts(y, b[0]);
      FeedByteIsShifts(XorWord(x, y), XorByte(a[0], b[0]));
      XorPairs(x, y, a[0], b[0]);
      ShiftsLinear(XorWord(x, a[0]), XorWord(y, b[0]), 8);
      FeedLinear(FeedByte(x, a[0]), FeedByte(y, b[0]), a[1..], b[1..]);
    }
  }

  /** Up to four bytes as a little-endian word. */
  function WordOf(b: seq<Byte>): (w: Word)
    requires |b| <= 4
    ensures |b| <= 3 ==> w < 0x100_0000
    ensures |b| <= 2 ==> w < 0x1_0000
    ensures |b| <= 1 ==> w < 0x100
  {
    if b == [] then 0 else b[0] + 256 * WordOf(b[1..])
  }

  lemma {:induction false} WordInjective(a: seq<Byte>, b: seq<Byte>)
    requires |a| == |b| <= 4 && WordOf(a) == WordOf(b)
    ensures a == b
    decreases |a|
  {
    if a != [] {
      WordInjective(a[1..], b[1..]);
      assert a == [a[0]] + a[1..] && b == [b[0]] + b[1..];
    }
  }

  /** Shifting out the low byte of what is added leaves the rest of it. */
  lemma PushByte(crc: Word, first: Byte, rest: nat)
    requires first + 256 * rest < WORD
    ensures rest < WORD && XorWord(Shifts(XorWord(crc, first), 8), rest) == Shifts(XorWord(crc, first + 256 * rest), 8)
  {
    var low: Word, high: Word := first, 256 * rest;
    JoinByte(rest, first);
    XorAssociates(crc, low, high);
    ShiftsLinear(XorWord(crc, low), high, 8);
    SlideByte(rest);
  }

  /** Up to four bytes act on the register as one word. */
  lemma {:induction false} FeedWord(crc: Word, b: seq<Byte>)
    requires |b| <= 4
    ensures FeedBytes(crc, b) == Shifts(XorWord(crc, WordOf(b)), 8 * |b|)
    decreases |b|
  {
    if b == [] {
      XorZero(crc);
    } else {
      var tail := b[1..];
      var n := 8 * |tail|;
      FeedByteIsShifts(crc, b[0]);
      FeedWord(FeedByte(crc, b[0]), tail);
      PushByte(crc, b[0], WordOf(tail));
      ShiftsAdd(XorWord(crc, WordOf(b)), 8, n);
      assert 8 + n == 8 * |b|;
    }
  }

  /** Replacing up to four consecutive bytes of a message always changes its checksum. */
  lemma WindowDetected(before: seq<Byte>, a: seq<Byte>, b: seq<Byte>, after: seq<Byte>)
    requires |a| == |b| <= 4
    ensures Crc(before + a + after) == Crc(before + b + after) <==> a == b
  {
    var c := FeedBytes(START, before);
    FeedConcat(START, before + a, after);
    FeedConcat(START, before + b, after);
    FeedConcat(START, before, a);
    FeedConcat(START, before, b);
    if Crc(before + a + after) == Crc(before + b + after) {
      FeedInjective(FeedBytes(c, a), FeedBytes(c, b), after);
      FeedWord(c, a);
      FeedWord(c, b);
      ShiftsInjective(XorWord(c, WordOf(a)), XorWord(c, WordOf(b)), 8 * |a|);
      XorCancels(WordOf(a), c);
      XorCancels(WordOf(b), c);
      WordInjective(a, b);
    }
  }

  // ---------- the constants ----------

  /** The generator is the polynomial of the standard, x^32 + x^26 + x^23 + x^22 + x^16 + x^12 + x^11 + x^10 +
      x^8 + x^7 + x^5 + x^4 + x^2 + x + 1, with the coefficient of x^k in bit 31 - k. */
  lemma PolynomialIsStandard()
    ensures POLYNOMIAL == Pow2(31 - 26) + Pow2(31 - 23) + Pow2(31 - 22) + Pow2(31 - 16) + Pow2(31 - 12) + Pow2(31 - 11)
                          + Pow2(31 - 10) + Pow2(31 - 8) + Pow2(31 - 7) + Pow2(31 - 5) + Pow2(31 - 4) + Pow2(31 - 2)
                          + Pow2(31 - 1) + Pow2(31 - 0)
  {
    LowPowers();
    HighPowers();
  }

  lemma LowPowers()
    ensures Pow2(5) == 0x20 && Pow2(8) == 0x100 && Pow2(9) == 0x200 && Pow2(15) == 0x8000
    ensures Pow2(19) == 0x8_0000 && Pow2(20) == 0x10_0000 && Pow2(21) == 0x20_0000
  {
    assert Pow2(8) == 0x100 && Pow2(15) == 0x8000;
  }

  lemma HighPowers()
    ensures Pow2(23) == 0x80_0000 && Pow2(24) == 0x100_0000 && Pow2(26) == 0x400_0000 && Pow2(27) == 0x800_0000
    ensures Pow2(29) == 0x2000_0000 && Pow2(30) == 0x4000_0000 && Pow2(31) == 0x8000_0000
  {
    LowPowers();
    assert Pow2(23) == 0x80_0000 && Pow2(26) == 0x400_0000;
  }

  /** The register starts with all bits set, and is inverted in the end: nothing has the checksum 0, and four bytes of
      ones, which bring the register to 0, have all bits set. */
  lemma StartAndFinish()
    ensures Crc([]) == 0 && Crc([255, 255, 255, 255]) == 0xffff_ffff
  {
    var ones: seq<Byte> := [255, 255, 255, 255];
    OnesWord(ones);
    FeedWord(START, ones);
    XorSelf(START);
    ShiftsOfZero(32);
  }

  lemma OnesWord(ones: seq<Byte>)
    requires ones == [255, 255, 255, 255]
    ensures WordOf(ones) == START
  {
    var one: seq<Byte>, two: seq<Byte>, three: seq<Byte> := [255], [255, 255], [255, 255, 255];
    assert one[1..] == [] && WordOf(one) == 255;
    assert two[1..] == one && WordOf(two) == 0xffff;
    assert three[1..] == two && WordOf(three) == 0xff_ffff;
    assert ones[1..] == three;
  }

  lemma {:induction false} ShiftsOfZero(n: nat)
    ensures Shifts(0, n) == 0
  {
    if n > 0 { ShiftsOfZero(n - 1); }
  }

  /** Two messages of one length that differ, but only inside four consecutive bytes, have different
      checksums. */
  lemma BurstDetected(m: seq<Byte>, n: seq<Byte>, at: nat)
    requires |m| == |n| && m != n
    requires forall i :: 0 <= i < |m| && !(at <= i < at + 4) ==> m[i] == n[i]
    ensures Crc(m) != Crc(n)
  {
    var end := if at + 4 <= |m| then at + 4 else |m|;
    var i :| 0 <= i < |m| && m[i] != n[i];
    assert at <= i < end;
    ThreeParts(m, at, end);
    ThreeParts(n, at, end);
    assert n[..at] == m[..at] && n[end..] == m[end..];
    WindowDetected(m[..at], m[at..end], n[at..end], m[end..]);
  }

  lemma ThreeParts(s: seq<Byte>, i: nat, j: nat)
    requires i <= j <= |s|
    ensures s == s[..i] + s[i..j] + s[j..]
  {
  }
}
