/**
 The checksum as section 12.1 of RFC 3720 defines it: the remainder of the message polynomial by the
 Castagnoli polynomial. A polynomial over the two-element field is the number whose binary digits are
 its coefficients; sums are exclusive ors.
 */
module Remainders {
  import opened Bits
  import opened Bytes
  import opened Checksum

  /** The generator, as the standard writes it: x^32 and the coefficients 0x1EDC6F41. */
  const GENERATOR: nat := 0x1_1EDC_6F41

  /** Product of polynomials. */
  function Times(q: nat, g: nat): nat {
    if q == 0 then 0 else Xor(2 * Times(q / 2, g), if q % 2 == 1 then g else 0)
  }

  /** `a` and `r` differ by a multiple of the generator. */
  ghost predicate Congruent(a: nat, r: nat) {
    exists q: nat :: a == Xor(Times(q, GENERATOR), r)
  }

  /** `r` is the remainder of `a`. */
  ghost predicate Remainder(a: nat, r: nat) {
    r < 0x1_0000_0000 && Congruent(a, r)
  }

  /** The `n` low digits of `c` in reverse. */
  function Reversed(n: nat, c: nat): nat {
    if n == 0 then 0 else (if c % 2 == 1 then Pow2(n - 1) else 0) + Reversed(n - 1, c / 2)
  }

  /** The message as a polynomial: the first byte is the most significant, and of each byte the lowest bit is. */
  function Message(data: seq<byte>): nat {
    if data == [] then 0 else 256 * Message(data[..|data| - 1]) + Reversed(8, data[|data| - 1] as nat)
  }

  /** The message followed by 32 zero bits, its first 32 bits complemented. */
  function Dividend(data: seq<byte>): nat {
    Xor(0x1_0000_0000 * Message(data), 0xFFFF_FFFF * Pow2(8 * |data|))
  }

  // ---- reversing ----

  lemma {:induction false} ReversedBound(n: nat, c: nat)
    ensures Reversed(n, c) < Pow2(n)
  {
    if n > 0 {
      ReversedBound(n - 1, c / 2);
    }
  }

  /** A number with a digit to spare is reversed one place higher. */
  lemma {:induction false} ReversedMore(n: nat, c: nat)
    requires c < Pow2(n)
    ensures Reversed(n + 1, c) == 2 * Reversed(n, c)
  {
    if n > 0 {
      ReversedMore(n - 1, c / 2);
    }
  }

  lemma {:induction false} ReversedXor(n: nat, a: nat, b: nat)
    ensures Reversed(n, Xor(a, b)) == Xor(Reversed(n, a), Reversed(n, b))
  {
    hide Xor;
    if n == 0 {
      XorSelf(0);
    } else {
      XorHalf(a, b);
      ReversedXor(n - 1, a / 2, b / 2);
      ReversedBound(n - 1, a / 2);
      ReversedBound(n - 1, b / 2);
      XorTop(n - 1, a % 2 == 1, Reversed(n - 1, a / 2), b % 2 == 1, Reversed(n - 1, b / 2));
    }
  }

  function Top(n: nat, p: bool): nat {
    if p then Pow2(n) else 0
  }

  /** The top digits meet each other only. */
  lemma {:induction false} XorTop(n: nat, p: bool, a: nat, q: bool, b: nat)
    requires a < Pow2(n) && b < Pow2(n)
    ensures Xor(Top(n, p) + a, Top(n, q) + b) == Top(n, p != q) + Xor(a, b)
  {
    hide Xor, Top;
    if n > 0 {
      TopHalf(n, p, a);
      TopHalf(n, q, b);
      TopHalf(n, p != q, Xor(a, b));
      XorHalf(Top(n, p) + a, Top(n, q) + b);
      XorHalf(a, b);
      XorTop(n - 1, p, a / 2, q, b / 2);
      Digits(Xor(Top(n, p) + a, Top(n, q) + b), Top(n, p != q) + Xor(a, b));
    } else {
      XorTopOnly(p, q);
    }
  }

  lemma TopHalf(n: nat, p: bool, a: nat)
    requires n > 0
    ensures (Top(n, p) + a) / 2 == Top(n - 1, p) + a / 2 && (Top(n, p) + a) % 2 == a % 2
  {
  }

  lemma Digits(a: nat, b: nat)
    requires a / 2 == b / 2 && a % 2 == b % 2
    ensures a == b
  {
  }

  lemma XorTopOnly(p: bool, q: bool)
    ensures Xor(Top(0, p), Top(0, q)) == Top(0, p != q) && Xor(0, 0) == 0
  {
    assert Xor(1, 0) == 1 && Xor(0, 1) == 1 && Xor(1, 1) == 0;
  }

  lemma {:induction false} Involution(n: nat, c: nat)
    requires c < Pow2(n)
    ensures Reversed(n, Reversed(n, c)) == c
  {
    if n > 0 {
      Involution(n - 1, c / 2);
      ReversedBound(n - 1, c / 2);
      ReversedSplit(n - 1, c % 2 == 1, Reversed(n - 1, c / 2));
    }
  }

  /** The top digit comes out lowest. */
  lemma {:induction false} ReversedSplit(n: nat, p: bool, c: nat)
    requires c < Pow2(n)
    ensures Reversed(n + 1, Top(n, p) + c) == 2 * Reversed(n, c) + if p then 1 else 0
  {
    hide Reversed, Top;
    LowDigit(n, Top(n, p) + c);
    if n > 0 {
      TopHalf(n, p, c);
      LowDigit(n - 1, c);
      ReversedSplit(n - 1, p, c / 2);
      assert Pow2(n) == 2 * Pow2(n - 1);
    } else {
      TopAlone(p);
    }
  }

  lemma TopAlone(p: bool)
    ensures Top(0, p) == (if p then 1 else 0) && forall c :: Reversed(0, c) == 0
  {
  }

  // ---- one clock is one step of long division ----

  lemma TimesDouble(q: nat)
    ensures Times(2 * q, GENERATOR) == 2 * Times(q, GENERATOR)
    ensures Times(2 * q + 1, GENERATOR) == Xor(2 * Times(q, GENERATOR), GENERATOR)
  {
    hide Xor, Times;
    TimesStep(2 * q);
    TimesStep(2 * q + 1);
    XorZero(2 * Times(q, GENERATOR));
  }

  /** Multiplying by x. */
  lemma CongruentDouble(a: nat, r: nat)
    requires Congruent(a, r)
    ensures Congruent(2 * a, 2 * r) && Congruent(2 * a, Xor(2 * r, GENERATOR))
  {
    var q: nat :| a == Xor(Times(q, GENERATOR), r);
    var t := 2 * Times(q, GENERATOR);
    XorDouble(Times(q, GENERATOR), r);
    TimesDouble(q);
    assert 2 * a == Xor(Times(2 * q, GENERATOR), 2 * r);
    // (t ^ G) ^ (2r ^ G) == t ^ 2r
    XorComm(2 * r, GENERATOR);
    XorAssoc(Xor(t, GENERATOR), GENERATOR, 2 * r);
    XorCancel(t, GENERATOR);
    assert 2 * a == Xor(Times(2 * q + 1, GENERATOR), Xor(2 * r, GENERATOR));
  }

  lemma CongruentSum(a: nat, r: nat, z: nat)
    requires Congruent(a, r)
    ensures Congruent(Xor(a, z), Xor(r, z))
  {
    var q: nat :| a == Xor(Times(q, GENERATOR), r);
    XorAssoc(Times(q, GENERATOR), r, z);
  }

  function If(d: nat, p: nat): nat {
    if d == 1 then p else 0
  }

  /** One digit more. */
  lemma Digit(n: nat, c: nat, r: nat, p: nat, d: nat)
    requires d < 2 && Reversed(n, c) == r && Pow2(n) == p
    ensures Reversed(n + 1, 2 * c + d) == r + If(d, p) && Pow2(n + 1) == 2 * p
  {
    assert (2 * c + d) / 2 == c && (2 * c + d) % 2 == d;
  }

  /** Four digits more, the lowest last. */
  lemma Nibble(n: nat, c: nat, r: nat, p: nat, d3: nat, d2: nat, d1: nat, d0: nat)
    requires d3 < 2 && d2 < 2 && d1 < 2 && d0 < 2 && Reversed(n, c) == r && Pow2(n) == p
    ensures Reversed(n + 4, 16 * c + 8 * d3 + 4 * d2 + 2 * d1 + d0) 
         == r + If(d3, p) + If(d2, 2 * p) + If(d1, 4 * p) + If(d0, 8 * p)
    ensures Pow2(n + 4) == 16 * p
  {
    hide Reversed, Pow2;
    Digit(n, c, r, p, d3);
    var r1 := r + If(d3, p);
    Digit(n + 1, 2 * c + d3, r1, 2 * p, d2);
    var r2 := r1 + If(d2, 2 * p);
    Digit(n + 2, 4 * c + 2 * d3 + d2, r2, 4 * p, d1);
    var r3 := r2 + If(d1, 4 * p);
    Digit(n + 3, 8 * c + 4 * d3 + 2 * d2 + d1, r3, 8 * p, d0);
  }

  /** The register's polynomial is the generator's coefficients in reverse. */
  lemma PolyReversed()
    ensures Reversed(32, POLY) == GENERATOR - 0x1_0000_0000
  {
    hide Reversed, Pow2;
    Nothing();
    Nibble(0, 0, 0, 1, 1, 0, 0, 0);
    Nibble(4, 0x8, 0x1, 0x10, 0, 0, 1, 0);
    Nibble(8, 0x82, 0x41, 0x100, 1, 1, 1, 1);
    Nibble(12, 0x82F, 0xF41, 0x1000, 0, 1, 1, 0);
    Nibble(16, 0x82F6, 0x6F41, 0x1_0000, 0, 0, 1, 1);
    Nibble(20, 0x8_2F63, 0xC_6F41, 0x10_0000, 1, 0, 1, 1);
    Nibble(24, 0x82_F63B, 0xDC_6F41, 0x100_0000, 0, 1, 1, 1);
    Nibble(28, 0x82F_63B7, 0xEDC_6F41, 0x1000_0000, 1, 0, 0, 0);
  }

  lemma Nothing()
    ensures Pow2(0) == 1 && Reversed(0, 0) == 0
  {
  }

  /** One clock, seen from the other end: multiply by x, and reduce. */
  lemma ShiftDivides(a: nat, c: nat)
    requires c < U32_LIMIT && Congruent(a, Reversed(32, c))
    ensures Congruent(2 * a, Reversed(32, Shift(c)))
  {
    hide Xor, Reversed, Congruent;
    Pow2Of32();
    var h, r := c / 2, Reversed(32, c);
    LowDigit(31, c);
    ReversedMore(31, h);
    ReversedBound(31, h);
    CongruentDouble(a, r);
    if c % 2 == 1 {
      PolyReversed();
      ReversedXor(32, h, POLY);
      DropTop(2 * Reversed(31, h), GENERATOR - 0x1_0000_0000);
    }
  }

  lemma LowDigit(n: nat, c: nat)
    ensures Reversed(n + 1, c) == (if c % 2 == 1 then Pow2(n) else 0) + Reversed(n, c / 2)
  {
  }

  /** Equal top digits cancel. */
  lemma DropTop(a: nat, b: nat)
    requires a < 0x1_0000_0000 && b < 0x1_0000_0000
    ensures Xor(0x1_0000_0000 + a, 0x1_0000_0000 + b) == Xor(a, b)
  {
    Pow2Of32();
    XorTop(32, true, a, true, b);
  }

  lemma {:induction false} ShiftsDivide(n: nat, a: nat, c: nat)
    requires c < U32_LIMIT && Congruent(a, Reversed(32, c))
    ensures Congruent(Pow2(n) * a, Reversed(32, ShiftBy(n, c)))
  {
    hide Shift, Congruent, Reversed;
    if n > 0 {
      ShiftDivides(a, c);
      ShiftBound(c);
      ShiftsDivide(n - 1, 2 * a, Shift(c));
      assert Pow2(n) * a == Pow2(n - 1) * (2 * a);
    }
  }

  // ---- the checksum ----

  /** A byte's digits, reversed, at the top of the register. */
  lemma ByteReversed(b: nat)
    requires b < 256
    ensures Reversed(32, b) == 0x100_0000 * Reversed(8, b)
  {
    hide Reversed;
    Pow2Of32();
    SpareDigits(8, 24, b);
  }

  lemma {:induction false} SpareDigits(n: nat, k: nat, c: nat)
    requires c < Pow2(n)
    ensures Reversed(n + k, c) == Pow2(k) * Reversed(n, c)
  {
    hide Reversed;
    if k > 0 {
      SpareDigits(n, k - 1, c);
      Pow2Monotone(n, n + k - 1);
      ReversedMore(n + k - 1, c);
    }
  }

  /** The dividend of a message one byte longer. */
  lemma DividendMore(data: seq<byte>, b: byte)
    ensures Dividend(data + [b]) == 0x100 * Xor(Dividend(data), 0x100_0000 * Reversed(8, b as nat))
  {
    hide Xor, Reversed;
    var m, r, ones := Message(data), Reversed(8, b as nat), 0xFFFF_FFFF * Pow2(8 * |data|);
    assert (data + [b])[..|data|] == data;
    Pow2Of32();
    ByteShift(0, 8 * |data|);
    ReversedBound(8, b as nat);
    // 2^32 (256 m + r) == 256 (2^32 m ^ 2^24 r)
    AddIsXor(m, r);
    XorScaled(24, 0x100 * m, r);
    var high, low := 0x1_0000_0000 * m, 0x100_0000 * r;
    assert Message(data + [b]) == Xor(0x100 * m, r);
    assert 0x100_0000 * Message(data + [b]) == Xor(high, low);
    // (high ^ low) ^ ones == (high ^ ones) ^ low
    XorAssoc(high, low, ones);
    XorComm(low, ones);
    XorAssoc(high, ones, low);
    XorScaled(8, Xor(high, low), ones);
  }

  lemma AddIsXor(m: nat, r: nat)
    requires r < 256
    ensures Xor(0x100 * m, r) == 0x100 * m + r
  {
    EightBits(m, 8);
    XorShifted(8, m, r);
  }

  /** The register holds the remainder, digits reversed. */
  lemma {:induction false} RegisterIs(data: seq<byte>)
    ensures Congruent(Dividend(data), Reversed(32, FeedAll(ALL_ONES, data)))
  {
    hide Xor, Reversed, Congruent, Dividend;
    if data == [] {
      StartIs();
    } else {
      var init, b := data[..|data| - 1], data[|data| - 1];
      var c := FeedAll(ALL_ONES, init);
      RegisterIs(init);
      FeedAllBound(ALL_ONES, init);
      FeedBound(c, b);
      ByteReversed(b as nat);
      ReversedXor(32, c, b as nat);
      var mixed := Xor(Dividend(init), 0x100_0000 * Reversed(8, b as nat));
      CongruentSum(Dividend(init), Reversed(32, c), 0x100_0000 * Reversed(8, b as nat));
      Pow2Of32();
      ShiftsDivide(8, mixed, Xor(c, b as nat));
      DividendMore(init, b);
      assert data == init + [b];
    }
  }

  /** Before the first byte, all ones. */
  lemma StartIs()
    ensures Congruent(Dividend([]), Reversed(32, ALL_ONES))
  {
    hide Reversed;
    XorComm(0, 0xFFFF_FFFF);
    XorZero(0xFFFF_FFFF);
    OnesReversed();
    assert Times(0, GENERATOR) == 0;
  }

  lemma OnesReversed()
    ensures Reversed(32, 0xFFFF_FFFF) == 0xFFFF_FFFF
  {
    hide Reversed;
    Pow2Of32();
    AllReversed(32);
  }

  lemma {:induction false} AllReversed(n: nat)
    ensures Reversed(n, Pow2(n) - 1) == Pow2(n) - 1
  {
    if n > 0 {
      AllReversed(n - 1);
      assert (Pow2(n) - 1) / 2 == Pow2(n - 1) - 1;
    }
  }

  /** Complementing 32 bits. */
  lemma {:induction false} Complement(n: nat, c: nat)
    requires c < Pow2(n)
    ensures Xor(c, Pow2(n) - 1) == Pow2(n) - 1 - c
  {
    hide Xor;
    if n == 0 {
      XorZero(0);
    } else {
      XorHalf(c, Pow2(n) - 1);
      Complement(n - 1, c / 2);
      assert (Pow2(n) - 1) / 2 == Pow2(n - 1) - 1;
    }
  }

  // ---- there is one remainder only ----

  lemma {:induction false} TimesSum(p: nat, q: nat)
    ensures Times(Xor(p, q), GENERATOR) == Xor(Times(p, GENERATOR), Times(q, GENERATOR))
    decreases p + q
  {
    hide Xor;
    if p + q == 0 {
      XorSelf(0);
    } else {
      var a, b := Times(p / 2, GENERATOR), Times(q / 2, GENERATOR);
      XorHalf(p, q);
      TimesSum(p / 2, q / 2);
      TimesStep(p);
      TimesStep(q);
      TimesStep(Xor(p, q));
      XorDouble(a, b);
      Regroup(2 * a, 2 * b, p % 2 == 1, q % 2 == 1);
    }
  }

  lemma TimesStep(q: nat)
    ensures Times(q, GENERATOR) == Xor(2 * Times(q / 2, GENERATOR), Chosen(q % 2 == 1))
  {
    XorSelf(0);
  }

  function Chosen(p: bool): nat {
    if p then GENERATOR else 0
  }

  lemma Regroup(a: nat, b: nat, p: bool, q: bool)
    ensures Xor(Xor(a, b), Chosen(p != q)) == Xor(Xor(a, Chosen(p)), Xor(b, Chosen(q)))
  {
    hide Xor;
    var x, y := Chosen(p), Chosen(q);
    XorComm(b, y);
    XorAssoc(Xor(a, x), y, b);
    XorAssoc(a, x, y);
    assert Xor(x, y) == Chosen(p != q) by {
      XorSelf(GENERATOR);
      XorSelf(0);
      XorZero(GENERATOR);
      XorComm(0, GENERATOR);
    }
    XorAssoc(a, Xor(x, y), b);
    XorComm(Xor(x, y), b);
    XorAssoc(a, b, Xor(x, y));
  }

  /** A nonzero multiple of the generator has at least its degree. */
  lemma {:induction false} TimesDegree(q: nat, k: nat)
    requires Pow2(k) <= q < Pow2(k + 1)
    ensures Pow2(k + 32) <= Times(q, GENERATOR) < Pow2(k + 33)
  {
    hide Xor, Times, Pow2;
    Pow2Of32();
    TimesStep(q);
    Powers(0);
    Powers(32);
    Powers(k + 31);
    Powers(k);
    if k > 0 {
      Powers(k - 1);
    }
    if k == 0 {
      TimesNone();
      XorComm(0, GENERATOR);
      XorZero(GENERATOR);
    } else {
      TimesDegree(q / 2, k - 1);
      Pow2Monotone(33, k + 32);
      var t := 2 * Times(q / 2, GENERATOR);
      assert Pow2(k + 32) <= t < Pow2(k + 33) && GENERATOR < Pow2(33);
      KeepsTop(k + 32, t, Chosen(q % 2 == 1));
    }
  }

  /** Adding something of smaller degree keeps the top digit. */
  lemma KeepsTop(n: nat, t: nat, x: nat)
    requires Pow2(n) <= t < Pow2(n + 1) && x < Pow2(n)
    ensures Pow2(n) <= Xor(t, x) < Pow2(n + 1)
  {
    hide Xor;
    XorTop(n, true, t - Pow2(n), false, x);
    XorBound(n, t - Pow2(n), x);
  }

  lemma Powers(n: nat)
    ensures Pow2(0) == 1 && Pow2(n + 1) == 2 * Pow2(n) && Pow2(n + 2) == 4 * Pow2(n)
  {
  }

  lemma TimesNone()
    ensures Times(0, GENERATOR) == 0
  {
  }

  lemma {:induction false} Magnitude(q: nat) returns (k: nat)
    requires q > 0
    ensures Pow2(k) <= q < Pow2(k + 1)
  {
    if q == 1 {
      k := 0;
    } else {
      k := Magnitude(q / 2);
      k := k + 1;
    }
  }

  lemma RemainderUnique(a: nat, r: nat, s: nat)
    requires Remainder(a, r) && Remainder(a, s)
    ensures r == s
  {
    hide Xor, Times;
    var p: nat :| a == Xor(Times(p, GENERATOR), r);
    var q: nat :| a == Xor(Times(q, GENERATOR), s);
    var x, y := Times(p, GENERATOR), Times(q, GENERATOR);
    TimesSum(p, q);
    // x ^ y == (x ^ r) ^ (y ^ s) ^ r ^ s == r ^ s
    Swap(x, r, y, s);
    Pow2Of32();
    XorBound(32, r, s);
    if Xor(p, q) > 0 {
      var k := Magnitude(Xor(p, q));
      TimesDegree(Xor(p, q), k);
      Pow2Monotone(32, k + 32);
      assert false;
    }
    TimesNone();
    XorCancel(r, s);
    XorComm(0, s);
    XorZero(s);
  }

  lemma Swap(x: nat, r: nat, y: nat, s: nat)
    requires Xor(x, r) == Xor(y, s)
    ensures Xor(x, y) == Xor(r, s)
  {
    hide Xor;
    XorCancel(x, r);
    // x == (y ^ s) ^ r
    XorComm(y, s);
    XorAssoc(s, y, r);
    XorComm(y, r);
    XorAssoc(s, r, y);
    XorCancel(Xor(s, r), y);
    XorComm(s, r);
  }

  /**
   The checksum is the complement of the remainder, its coefficients in reverse, of the message polynomial
   divided by the generator.
   */
  lemma CrcIsRemainder(data: seq<byte>, r: nat)
    requires Remainder(Dividend(data), r)
    ensures Crc32c(data) == 0xFFFF_FFFF - Reversed(32, r)
  {
    hide Xor, Reversed, Congruent, Dividend, Crc32c;
    CrcRemains(data);
    var s :| Remainder(Dividend(data), s) && Crc32c(data) == 0xFFFF_FFFF - Reversed(32, s);
    RemainderUnique(Dividend(data), r, s);
  }

  /** There always is one, and it gives the checksum. */
  lemma CrcRemains(data: seq<byte>)
    ensures exists r :: Remainder(Dividend(data), r) && Crc32c(data) == 0xFFFF_FFFF - Reversed(32, r)
  {
    hide Xor, Reversed, Congruent, Dividend;
    var c := FeedAll(ALL_ONES, data);
    FeedAllBound(ALL_ONES, data);
    Pow2Of32();
    RegisterIs(data);
    ReversedBound(32, c);
    Involution(32, c);
    Complement(32, c);
    assert Remainder(Dividend(data), Reversed(32, c));
  }
}
