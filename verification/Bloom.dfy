/** The bloom filter over edge targets: it never denies an item it was built from. */
module Blooms {
  import opened Wrappers
  import opened Bytes
  import opened Bits
  import opened Numbers
  import opened Bitmaps

  /** `z >> n` */
  function ShiftRight(z: u64, n: nat): (r: u64)
    ensures r <= z
  {
    if n == 0 then z else ShiftRight(z / 2, n - 1)
  }

  function XorWord(a: u64, b: u64): u64 {
    WordWidth();
    XorBound(64, a, b);
    Xor(a, b)
  }

  function OrWord(a: u64, b: u64): u64 {
    WordWidth();
    OrBound(64, a, b);
    Or(a, b)
  }

  lemma WordWidth()
    ensures Pow2(64) == U64_LIMIT
  {
    ByteShift(0, 0);
    ByteShift(0, 8);
    ByteShift(0, 16);
    ByteShift(0, 24);
    ByteShift(0, 32);
    ByteShift(0, 40);
    ByteShift(0, 48);
    ByteShift(0, 56);
  }

  function WrappingMul(a: nat, b: nat): u64 {
    (a * b) % U64_LIMIT
  }

  /** The SplitMix64 finalizer. */
  function Mix(z: u64): u64 {
    var y := WrappingMul(XorWord(z, ShiftRight(z, 30)), 0xBF58_476D_1CE4_E5B9);
    var x := WrappingMul(XorWord(y, ShiftRight(y, 27)), 0x94D0_49BB_1331_11EB);
    XorWord(x, ShiftRight(x, 31))
  }

  datatype Bloom = Bloom(bits: seq<byte>, numBits: u32, numHashes: u32) {
    /** Bit `pos`, when the bytes reach that far. */
    predicate Set(pos: nat) {
      pos / 8 < |bits| && ValidAt(bits, pos)
    }

    /** "Maybe", unless some position of the item is unset; a filter without bits says no. */
    predicate MightContain(item: u64) {
      numBits != 0 && numHashes != 0 && forall i :: 0 <= i < numHashes ==> Set(Position(item, numBits, i))
    }
  }

  /** The `i`-th position of an item. */
  function Position(item: u64, numBits: u32, i: nat): (pos: nat)
    requires numBits > 0
    ensures pos < numBits
  {
    (Mix(item) + WrappingMul(i, OrWord(Mix(XorWord(item, 0x9E37_79B9_7F4A_7C15)), 1))) % U64_LIMIT % numBits
  }

  const NUM_HASHES: nat := 7

  /** About ten bits an entry, in whole bytes, at least 64. */
  function NumBits(expected: nat): (n: nat)
    ensures n % 8 == 0 && n >= 64 && n >= 10 * expected
    ensures n == 64 || n < 10 * expected + 8
  {
    var tens := DivCeil((if expected > 0 then expected else 1) * 10, 8) * 8;
    if tens >= 64 then tens else 64
  }

  /** Some hash of some of the first `k` items falls on `pos`. */
  ghost predicate Hit(items: seq<u64>, k: nat, numBits: u32, pos: nat)
    requires numBits > 0 && k <= |items|
  {
    exists j, i :: 0 <= j < k && 0 <= i < NUM_HASHES && Position(items[j], numBits, i) == pos
  }

  /** The bits set are exactly the positions of the items, so every item may be contained. */
  method Build(items: seq<u64>, expected: nat) returns (b: Bloom)
    requires NumBits(expected) < U32_LIMIT
    ensures b.numBits == NumBits(expected) && b.numHashes == 7 && |b.bits| == b.numBits / 8
    ensures forall pos :: 0 <= pos < b.numBits ==> (b.Set(pos) <==> Hit(items, |items|, b.numBits, pos))
    ensures forall item <- items :: b.MightContain(item)
    ensures forall item: u64 :: !b.MightContain(item) <==> exists i :: 0 <= i < NUM_HASHES && !Hit(items, |items|, b.numBits, Position(item, b.numBits, i))
  {
    hide Position, ValidAt;
    var numBits: u32 := NumBits(expected);
    var bits := new byte[numBits / 8](_ => 0);
    NothingSet(bits[..]);
    for k := 0 to |items|
      invariant forall pos :: 0 <= pos < numBits ==> (ValidAt(bits[..], pos) <==> Hit(items, k, numBits, pos))
    {
      ghost var before := bits[..];
      for i := 0 to NUM_HASHES
        invariant forall pos :: 0 <= pos < numBits ==>
                    (ValidAt(bits[..], pos) <==> ValidAt(before, pos) || HitBy(items[k], i, numBits, pos))
      {
        SetBit(bits, Position(items[k], numBits, i));
      }
      forall pos | 0 <= pos < numBits
        ensures Hit(items, k + 1, numBits, pos) <==> Hit(items, k, numBits, pos) || HitBy(items[k], NUM_HASHES, numBits, pos)
      {
        HitMore(items, k, numBits, pos);
      }
    }
    b := Bloom(bits[..], numBits, NUM_HASHES);
    forall item | item in items
      ensures b.MightContain(item)
    {
      ContainsItem(b, items, item);
    }
  }

  ghost predicate HitBy(item: u64, k: nat, numBits: u32, pos: nat)
    requires numBits > 0
  {
    exists i :: 0 <= i < k && Position(item, numBits, i) == pos
  }

  lemma HitMore(items: seq<u64>, k: nat, numBits: u32, pos: nat)
    requires numBits > 0 && k < |items|
    ensures Hit(items, k + 1, numBits, pos) <==> Hit(items, k, numBits, pos) || HitBy(items[k], NUM_HASHES, numBits, pos)
  {
    hide Position;
  }

  lemma ContainsItem(b: Bloom, items: seq<u64>, item: u64)
    requires item in items && b.numBits > 0 && b.numHashes == NUM_HASHES
    requires forall pos :: 0 <= pos < b.numBits ==> (b.Set(pos) <==> Hit(items, |items|, b.numBits, pos))
    ensures b.MightContain(item)
  {
    hide Position, Bloom.Set;
    var j :| 0 <= j < |items| && items[j] == item;
    forall i | 0 <= i < NUM_HASHES
      ensures b.Set(Position(item, b.numBits, i))
    {
      assert Hit(items, |items|, b.numBits, Position(items[j], b.numBits, i));
    }
  }

  lemma NothingSet(bits: seq<byte>)
    requires forall k :: 0 <= k < |bits| ==> bits[k] == 0
    ensures forall pos :: 0 <= pos / 8 < |bits| ==> !ValidAt(bits, pos)
  {
    forall pos | 0 <= pos / 8 < |bits|
      ensures !ValidAt(bits, pos)
    {
      ZeroBit(pos % 8);
    }
  }

  /** `bits[pos / 8] |= 1 << (pos % 8)` */
  method SetBit(bits: array<byte>, pos: nat)
    requires pos / 8 < bits.Length
    modifies bits
    ensures forall q :: 0 <= q / 8 < bits.Length ==> (ValidAt(bits[..], q) <==> q == pos || ValidAt(old(bits[..]), q))
  {
    ghost var before := bits[..];
    bits[pos / 8] := WithBit(bits[pos / 8], pos % 8);
    forall q | 0 <= q / 8 < bits.Length
      ensures ValidAt(bits[..], q) <==> q == pos || ValidAt(before, q)
    {
      if q / 8 == pos / 8 {
        OrSetsBit(before[pos / 8] as nat, pos % 8, q % 8);
      }
    }
  }

  // ---- the hash ----

  lemma {:induction false} ShiftMore(z: u64, m: nat, n: nat)
    ensures ShiftRight(z, m + n) == ShiftRight(ShiftRight(z, m), n)
  {
    if m > 0 {
      ShiftMore(z / 2, m - 1, n);
    }
  }

  /** Up to one hexadecimal digit further. */
  lemma ShiftDigit(z: u64, m: nat, n: nat)
    requires 1 <= m <= 4
    ensures ShiftRight(z, m + n) == ShiftRight(if m == 1 then z / 2 else if m == 2 then z / 4 else if m == 3 then z / 8 else z / 16, n)
  {
    ShiftMore(z, m, n);
    assert ShiftRight(z, 1) == ShiftRight(z / 2, 0);
    assert ShiftRight(z, 2) == ShiftRight(z / 2, 1) == ShiftRight(z / 4, 0);
    assert ShiftRight(z, 3) == ShiftRight(z / 2, 2) == ShiftRight(z / 4, 1) == ShiftRight(z / 8, 0);
    assert ShiftRight(z, 4) == ShiftRight(z / 2, 3) == ShiftRight(z / 4, 2) == ShiftRight(z / 8, 1) == ShiftRight(z / 16, 0);
  }

  lemma NoShift(z: u64)
    ensures ShiftRight(z, 0) == z
  {
  }

  function Differ(p: nat, q: nat): nat {
    if p == q then 0 else 1
  }

  /** One hexadecimal digit more, by its bits. */
  lemma XorDigit(a: nat, c: nat, x: nat, p3: nat, p2: nat, p1: nat, p0: nat, q3: nat, q2: nat, q1: nat, q0: nat)
    requires p3 < 2 && p2 < 2 && p1 < 2 && p0 < 2 && q3 < 2 && q2 < 2 && q1 < 2 && q0 < 2 && Xor(a, c) == x
    ensures Xor(16 * a + 8 * p3 + 4 * p2 + 2 * p1 + p0, 16 * c + 8 * q3 + 4 * q2 + 2 * q1 + q0)
         == 16 * x + 8 * Differ(p3, q3) + 4 * Differ(p2, q2) + 2 * Differ(p1, q1) + Differ(p0, q0)
  {
    hide Xor, Differ;
    XorBit(a, p3, c, q3);
    XorBit(2 * a + p3, p2, 2 * c + q3, q2);
    XorBit(4 * a + 2 * p3 + p2, p1, 4 * c + 2 * q3 + q2, q1);
    XorBit(8 * a + 4 * p3 + 2 * p2 + p1, p0, 8 * c + 4 * q3 + 2 * q2 + q1, q0);
  }

  lemma XorBit(a: nat, p: nat, c: nat, q: nat)
    requires p < 2 && q < 2
    ensures Xor(2 * a + p, 2 * c + q) == 2 * Xor(a, c) + Differ(p, q)
  {
    hide Xor;
    XorHalf(2 * a + p, 2 * c + q);
  }

  lemma FirstShift()
    ensures ShiftRight(0x9E37_79B9_7F4A_7C15, 30) == 0x2_78DD_E6E5
  {
    hide ShiftRight;
    ShiftDigit(0x9E37_79B9_7F4A_7C15, 4, 26);
    ShiftDigit(0x9E3_779B_97F4_A7C1, 4, 22);
    ShiftDigit(0x9E_3779_B97F_4A7C, 4, 18);
    ShiftDigit(0x9_E377_9B97_F4A7, 4, 14);
    ShiftDigit(0x9E37_79B9_7F4A, 4, 10);
    ShiftDigit(0x9E3_779B_97F4, 4, 6);
    ShiftDigit(0x9E_3779_B97F, 4, 2);
    ShiftDigit(0x9_E377_9B97, 2, 0);
    NoShift(0x2_78DD_E6E5);
  }

  lemma FirstXorTop()
    ensures Xor(0x9E37, 0x0) == 0x9E37
  {
    hide Xor;
    XorSelf(0);
    XorDigit(0x0, 0x0, 0x0, 1, 0, 0, 1, 0, 0, 0, 0);
    XorDigit(0x9, 0x0, 0x9, 1, 1, 1, 0, 0, 0, 0, 0);
    XorDigit(0x9E, 0x0, 0x9E, 0, 0, 1, 1, 0, 0, 0, 0);
    XorDigit(0x9E3, 0x0, 0x9E3, 0, 1, 1, 1, 0, 0, 0, 0);
  }

  lemma FirstXorUpper()
    ensures Xor(0x9E37_79B9, 0x2) == 0x9E37_79BB
  {
    hide Xor;
    FirstXorTop();
    XorDigit(0x9E37, 0x0, 0x9E37, 0, 1, 1, 1, 0, 0, 0, 0);
    XorDigit(0x9_E377, 0x0, 0x9_E377, 1, 0, 0, 1, 0, 0, 0, 0);
    XorDigit(0x9E_3779, 0x0, 0x9E_3779, 1, 0, 1, 1, 0, 0, 0, 0);
    XorDigit(0x9E3_779B, 0x0, 0x9E3_779B, 1, 0, 0, 1, 0, 0, 1, 0);
  }

  lemma FirstXorLower()
    ensures Xor(0x9E37_79B9_7F4A, 0x2_78DD) == 0x9E37_79BB_0797
  {
    hide Xor;
    FirstXorUpper();
    XorDigit(0x9E37_79B9, 0x2, 0x9E37_79BB, 0, 1, 1, 1, 0, 1, 1, 1);
    XorDigit(0x9_E377_9B97, 0x27, 0x9_E377_9BB0, 1, 1, 1, 1, 1, 0, 0, 0);
    XorDigit(0x9E_3779_B97F, 0x278, 0x9E_3779_BB07, 0, 1, 0, 0, 1, 1, 0, 1);
    XorDigit(0x9E3_779B_97F4, 0x278D, 0x9E3_779B_B079, 1, 0, 1, 0, 1, 1, 0, 1);
  }

  lemma FirstXor()
    ensures Xor(0x9E37_79B9_7F4A_7C15, 0x2_78DD_E6E5) == 0x9E37_79BB_0797_9AF0
  {
    hide Xor;
    FirstXorLower();
    XorDigit(0x9E37_79B9_7F4A, 0x2_78DD, 0x9E37_79BB_0797, 0, 1, 1, 1, 1, 1, 1, 0);
    XorDigit(0x9_E377_9B97_F4A7, 0x27_8DDE, 0x9_E377_9BB0_7979, 1, 1, 0, 0, 0, 1, 1, 0);
    XorDigit(0x9E_3779_B97F_4A7C, 0x278_DDE6, 0x9E_3779_BB07_979A, 0, 0, 0, 1, 1, 1, 1, 0);
    XorDigit(0x9E3_779B_97F4_A7C1, 0x278D_DE6E, 0x9E3_779B_B079_79AF, 0, 1, 0, 1, 0, 1, 0, 1);
  }

  lemma SecondShift()
    ensures ShiftRight(0x6F68_261B_57E7_A770, 27) == 0xD_ED04_C36A
  {
    hide ShiftRight;
    ShiftDigit(0x6F68_261B_57E7_A770, 4, 23);
    ShiftDigit(0x6F6_8261_B57E_7A77, 4, 19);
    ShiftDigit(0x6F_6826_1B57_E7A7, 4, 15);
    ShiftDigit(0x6_F682_61B5_7E7A, 4, 11);
    ShiftDigit(0x6F68_261B_57E7, 4, 7);
    ShiftDigit(0x6F6_8261_B57E, 4, 3);
    ShiftDigit(0x6F_6826_1B57, 3, 0);
    NoShift(0xD_ED04_C36A);
  }

  lemma SecondXorTop()
    ensures Xor(0x6F68, 0x0) == 0x6F68
  {
    hide Xor;
    XorSelf(0);
    XorDigit(0x0, 0x0, 0x0, 0, 1, 1, 0, 0, 0, 0, 0);
    XorDigit(0x6, 0x0, 0x6, 1, 1, 1, 1, 0, 0, 0, 0);
    XorDigit(0x6F, 0x0, 0x6F, 0, 1, 1, 0, 0, 0, 0, 0);
    XorDigit(0x6F6, 0x0, 0x6F6, 1, 0, 0, 0, 0, 0, 0, 0);
  }

  lemma SecondXorUpper()
    ensures Xor(0x6F68_261B, 0xD) == 0x6F68_2616
  {
    hide Xor;
    SecondXorTop();
    XorDigit(0x6F68, 0x0, 0x6F68, 0, 0, 1, 0, 0, 0, 0, 0);
    XorDigit(0x6_F682, 0x0, 0x6_F682, 0, 1, 1, 0, 0, 0, 0, 0);
    XorDigit(0x6F_6826, 0x0, 0x6F_6826, 0, 0, 0, 1, 0, 0, 0, 0);
    XorDigit(0x6F6_8261, 0x0, 0x6F6_8261, 1, 0, 1, 1, 1, 1, 0, 1);
  }

  lemma SecondXorLower()
    ensures Xor(0x6F68_261B_57E7, 0xD_ED04) == 0x6F68_2616_BAE3
  {
    hide Xor;
    SecondXorUpper();
    XorDigit(0x6F68_261B, 0xD, 0x6F68_2616, 0, 1, 0, 1, 1, 1, 1, 0);
    XorDigit(0x6_F682_61B5, 0xDE, 0x6_F682_616B, 0, 1, 1, 1, 1, 1, 0, 1);
    XorDigit(0x6F_6826_1B57, 0xDED, 0x6F_6826_16BA, 1, 1, 1, 0, 0, 0, 0, 0);
    XorDigit(0x6F6_8261_B57E, 0xDED0, 0x6F6_8261_6BAE, 0, 1, 1, 1, 0, 1, 0, 0);
  }

  lemma SecondXor()
    ensures Xor(0x6F68_261B_57E7_A770, 0xD_ED04_C36A) == 0x6F68_2616_BAE3_641A
  {
    hide Xor;
    SecondXorLower();
    XorDigit(0x6F68_261B_57E7, 0xD_ED04, 0x6F68_2616_BAE3, 1, 0, 1, 0, 1, 1, 0, 0);
    XorDigit(0x6_F682_61B5_7E7A, 0xDE_D04C, 0x6_F682_616B_AE36, 0, 1, 1, 1, 0, 0, 1, 1);
    XorDigit(0x6F_6826_1B57_E7A7, 0xDED_04C3, 0x6F_6826_16BA_E364, 0, 1, 1, 1, 0, 1, 1, 0);
    XorDigit(0x6F6_8261_B57E_7A77, 0xDED0_4C36, 0x6F6_8261_6BAE_3641, 0, 0, 0, 0, 1, 0, 1, 0);
  }

  lemma ThirdShift()
    ensures ShiftRight(0xE220_A838_BF5C_9DDE, 31) == 0x1_C441_5071
  {
    hide ShiftRight;
    ShiftDigit(0xE220_A838_BF5C_9DDE, 4, 27);
    ShiftDigit(0xE22_0A83_8BF5_C9DD, 4, 23);
    ShiftDigit(0xE2_20A8_38BF_5C9D, 4, 19);
    ShiftDigit(0xE_220A_838B_F5C9, 4, 15);
    ShiftDigit(0xE220_A838_BF5C, 4, 11);
    ShiftDigit(0xE22_0A83_8BF5, 4, 7);
    ShiftDigit(0xE2_20A8_38BF, 4, 3);
    ShiftDigit(0xE_220A_838B, 3, 0);
    NoShift(0x1_C441_5071);
  }

  lemma ThirdXorTop()
    ensures Xor(0xE220, 0x0) == 0xE220
  {
    hide Xor;
    XorSelf(0);
    XorDigit(0x0, 0x0, 0x0, 1, 1, 1, 0, 0, 0, 0, 0);
    XorDigit(0xE, 0x0, 0xE, 0, 0, 1, 0, 0, 0, 0, 0);
    XorDigit(0xE2, 0x0, 0xE2, 0, 0, 1, 0, 0, 0, 0, 0);
    XorDigit(0xE22, 0x0, 0xE22, 0, 0, 0, 0, 0, 0, 0, 0);
  }

  lemma ThirdXorUpper()
    ensures Xor(0xE220_A838, 0x1) == 0xE220_A839
  {
    hide Xor;
    ThirdXorTop();
    XorDigit(0xE220, 0x0, 0xE220, 1, 0, 1, 0, 0, 0, 0, 0);
    XorDigit(0xE_220A, 0x0, 0xE_220A, 1, 0, 0, 0, 0, 0, 0, 0);
    XorDigit(0xE2_20A8, 0x0, 0xE2_20A8, 0, 0, 1, 1, 0, 0, 0, 0);
    XorDigit(0xE22_0A83, 0x0, 0xE22_0A83, 1, 0, 0, 0, 0, 0, 0, 1);
  }

  lemma ThirdXorLower()
    ensures Xor(0xE220_A838_BF5C, 0x1_C441) == 0xE220_A839_7B1D
  {
    hide Xor;
    ThirdXorUpper();
    XorDigit(0xE220_A838, 0x1, 0xE220_A839, 1, 0, 1, 1, 1, 1, 0, 0);
    XorDigit(0xE_220A_838B, 0x1C, 0xE_220A_8397, 1, 1, 1, 1, 0, 1, 0, 0);
    XorDigit(0xE2_20A8_38BF, 0x1C4, 0xE2_20A8_397B, 0, 1, 0, 1, 0, 1, 0, 0);
    XorDigit(0xE22_0A83_8BF5, 0x1C44, 0xE22_0A83_97B1, 1, 1, 0, 0, 0, 0, 0, 1);
  }

  lemma ThirdXor()
    ensures Xor(0xE220_A838_BF5C_9DDE, 0x1_C441_5071) == 0xE220_A839_7B1D_CDAF
  {
    hide Xor;
    ThirdXorLower();
    XorDigit(0xE220_A838_BF5C, 0x1_C441, 0xE220_A839_7B1D, 1, 0, 0, 1, 0, 1, 0, 1);
    XorDigit(0xE_220A_838B_F5C9, 0x1C_4415, 0xE_220A_8397_B1DC, 1, 1, 0, 1, 0, 0, 0, 0);
    XorDigit(0xE2_20A8_38BF_5C9D, 0x1C4_4150, 0xE2_20A8_397B_1DCD, 1, 1, 0, 1, 0, 1, 1, 1);
    XorDigit(0xE22_0A83_8BF5_C9DD, 0x1C44_1507, 0xE22_0A83_97B1_DCDA, 1, 1, 1, 0, 0, 0, 0, 1);
  }

  /** The finalizer on the generator's first state from seed 0 gives its first output, as published with it. */
  lemma MixValue()
    ensures Mix(0x9E37_79B9_7F4A_7C15) == 0xE220_A839_7B1D_CDAF
  {
    hide Xor, ShiftRight;
    FirstShift();
    FirstXor();
    SecondShift();
    SecondXor();
    ThirdShift();
    ThirdXor();
    assert WrappingMul(0x9E37_79BB_0797_9AF0, 0xBF58_476D_1CE4_E5B9) == 0x6F68_261B_57E7_A770;
    assert WrappingMul(0x6F68_2616_BAE3_641A, 0x94D0_49BB_1331_11EB) == 0xE220_A838_BF5C_9DDE;
  }

  /** An item's positions are all different: every item sets, and every lookup reads, as many bits as there are hashes. */
  lemma PositionsDiffer(item: u64, numBits: u32, i: nat, j: nat)
    requires numBits > 0 && numBits % 8 == 0 && i < j < NUM_HASHES
    ensures Position(item, numBits, i) != Position(item, numBits, j)
  {
    hide Mix, Xor, Or;
    var h, step := Mix(item), OrWord(Mix(XorWord(item, 0x9E37_79B9_7F4A_7C15)), 1);
    OrHalf(Mix(XorWord(item, 0x9E37_79B9_7F4A_7C15)), 1);
    assert step % 2 == 1;
    LastBits(h, step, i, numBits);
    LastBits(h, step, j, numBits);
    OddSteps(h, step, i, j);
  }

  /** The last three bits of a position are not touched by the wrapping. */
  lemma LastBits(h: u64, step: u64, i: nat, numBits: u32)
    requires numBits > 0 && numBits % 8 == 0
    ensures (h + WrappingMul(i, step)) % U64_LIMIT % numBits % 8 == (h + i * step) % 8
  {
    ModOfMod(i * step, U64_LIMIT, WrappingMul(i, step));
    var x := h + WrappingMul(i, step);
    ModOfMod(x, U64_LIMIT, x % U64_LIMIT);
    ModOfMod(x % U64_LIMIT, numBits, x % U64_LIMIT % numBits);
    SameLast(h, WrappingMul(i, step), i * step);
  }

  lemma ModOfMod(x: nat, n: nat, r: nat)
    requires n > 0 && n % 8 == 0 && r == x % n
    ensures r % 8 == x % 8
  {
    var k := Eighth(n);
    var q := Quotient(x, n, r);
    Rest(x, n, q, r, k);
  }

  lemma Eighth(n: nat) returns (k: nat)
    requires n % 8 == 0
    ensures n == 8 * k
  {
    k := n / 8;
  }

  lemma Quotient(x: nat, n: nat, r: nat) returns (q: nat)
    requires n > 0 && r == x % n
    ensures x == n * q + r
  {
    q := x / n;
    DivMod(x, n, q, r);
  }

  lemma DivMod(x: nat, n: nat, q: nat, r: nat)
    requires n > 0 && q == x / n && r == x % n
    ensures x == n * q + r
  {
  }

  lemma Rest(x: nat, n: nat, q: nat, r: nat, k: nat)
    requires n == 8 * k && x == n * q + r
    ensures r % 8 == x % 8
  {
    Eightfold(n, k, q);
    Recombine(x, r, k * q, n * q);
  }

  lemma Eightfold(n: nat, k: nat, q: nat)
    requires n == 8 * k
    ensures n * q == 8 * (k * q)
  {
  }

  lemma Recombine(x: nat, r: nat, p: nat, m: nat)
    requires x == m + r && m == 8 * p
    ensures r % 8 == x % 8
  {
  }

  lemma SameLast(h: nat, a: nat, b: nat)
    requires a % 8 == b % 8
    ensures (h + a) % 8 == (h + b) % 8
  {
  }

  /** Fewer than eight odd steps never come back to the same last three bits. */
  lemma OddSteps(h: nat, step: nat, i: nat, j: nat)
    requires step % 2 == 1 && i < j < 8
    ensures (h + i * step) % 8 != (h + j * step) % 8
  {
    Distribute(i, j - i, step);
    OddMultiple(j - i, step, (j - i) * step);
    NoReturn(h + i * step, (j - i) * step, h + j * step);
  }

  /** Not a multiple of eight. */
  lemma OddMultiple(d: nat, step: nat, e: nat)
    requires step % 2 == 1 && 0 < d < 8 && e == d * step
    ensures e % 8 != 0
  {
    var k, r := step / 8, step % 8;
    OddRest(step, k, r);
    Distribute2(d, k, r, step);
    OddProduct(d, r);
    MultipleOfEight(d * k);
    NoReturn(8 * (d * k), d * r, e);
  }

  lemma OddRest(step: nat, k: nat, r: nat)
    requires step % 2 == 1 && k == step / 8 && r == step % 8
    ensures step == 8 * k + r && r < 8 && r % 2 == 1
  {
  }

  lemma Distribute(i: nat, d: nat, step: nat)
    ensures (i + d) * step == i * step + d * step
  {
  }

  lemma Distribute2(d: nat, k: nat, r: nat, step: nat)
    requires step == 8 * k + r
    ensures d * step == 8 * (d * k) + d * r
  {
  }

  lemma OddProduct(d: nat, r: nat)
    requires 0 < d < 8 && r < 8 && r % 2 == 1
    ensures d * r % 8 != 0
  {
    if r == 1 {
    } else if r == 3 {
    } else if r == 5 {
    } else {
      assert r == 7;
    }
  }

  lemma MultipleOfEight(q: nat)
    ensures 8 * q % 8 == 0
  {
  }

  lemma NoReturn(x: nat, e: nat, y: nat)
    requires e % 8 != 0 && y == x + e
    ensures y % 8 != x % 8
  {
  }
}
