/**
 CRC32C (Castagnoli), the checksum of pages, sections and the footer. `Crc32c` is the
 bit-by-bit reflected shift register; the table-driven methods are proved to compute it,
 and a change confined to four consecutive bytes is proved to change it.
 */
module Checksum {
  import opened Bits
  import opened Bytes
  import opened Numbers

  /** The reflected Castagnoli polynomial (0x1EDC6F41 in section 12.1 of RFC 3720). */
  const POLY: u32 := 0x82F6_3B78
  const ALL_ONES: u32 := 0xFFFF_FFFF

  lemma Pow2Of32()
    ensures Pow2(32) == U32_LIMIT && Pow2(31) == 0x8000_0000 && Pow2(24) == 0x100_0000 && Pow2(8) == 0x100
  {
    assert Pow2(8) == 0x100;
    assert Pow2(16) == 0x1_0000;
    assert Pow2(24) == 0x100_0000;
    assert Pow2(31) == 0x8000_0000;
  }

  /** One clock of the register: shift out a bit, feed the polynomial back when it is set. */
  function Shift(crc: nat): nat {
    if crc % 2 == 1 then Xor(crc / 2, POLY) else crc / 2
  }

  function ShiftBy(n: nat, crc: nat): nat {
    if n == 0 then crc else ShiftBy(n - 1, Shift(crc))
  }

  /** The register after one more message byte. */
  function Feed(crc: nat, b: byte): nat {
    ShiftBy(8, Xor(crc, b as nat))
  }

  function FeedAll(crc: nat, data: seq<byte>): nat {
    if data == [] then crc else Feed(FeedAll(crc, data[..|data| - 1]), data[|data| - 1])
  }

  /** The checksum as the standard's shift register computes it. */
  function Crc32c(data: seq<byte>): (c: u32) {
    FeedAllBound(ALL_ONES, data);
    Pow2Of32();
    XorBound(32, FeedAll(ALL_ONES, data), ALL_ONES);
    Xor(FeedAll(ALL_ONES, data), ALL_ONES)
  }

  // ---- the register stays 32 bits wide ----

  lemma ShiftBound(crc: nat)
    requires crc < U32_LIMIT
    ensures Shift(crc) < U32_LIMIT
  {
    Pow2Of32();
    XorBound(32, crc / 2, POLY);
  }

  lemma {:induction false} ShiftByBound(n: nat, crc: nat)
    requires crc < U32_LIMIT
    ensures ShiftBy(n, crc) < U32_LIMIT
  {
    if n > 0 {
      ShiftBound(crc);
      ShiftByBound(n - 1, Shift(crc));
    }
  }

  lemma FeedBound(crc: nat, b: byte)
    requires crc < U32_LIMIT
    ensures Xor(crc, b as nat) < U32_LIMIT && Feed(crc, b) < U32_LIMIT
  {
    Pow2Of32();
    XorBound(32, crc, b as nat);
    ShiftByBound(8, Xor(crc, b as nat));
  }

  lemma {:induction false} FeedAllBound(crc: nat, data: seq<byte>)
    requires crc < U32_LIMIT
    ensures FeedAll(crc, data) < U32_LIMIT
  {
    if data != [] {
      FeedAllBound(crc, data[..|data| - 1]);
      FeedBound(FeedAll(crc, data[..|data| - 1]), data[|data| - 1]);
    }
  }

  // ---- the register is linear and loses nothing ----

  lemma ShiftLinear(x: nat, y: nat)
    ensures Shift(Xor(x, y)) == Xor(Shift(x), Shift(y))
  {
    var a, b := x / 2, y / 2;
    XorHalf(x, y);
    if x % 2 == 1 && y % 2 == 1 {
      // (a ^ P) ^ (b ^ P) == a ^ b
      XorComm(b, POLY);
      XorAssoc(Xor(a, POLY), POLY, b);
      XorCancel(a, POLY);
    } else if x % 2 == 1 {
      XorAssoc(a, POLY, b);
      XorAssoc(a, b, POLY);
      XorComm(POLY, b);
    } else if y % 2 == 1 {
      XorAssoc(a, b, POLY);
    }
  }

  lemma {:induction false} ShiftByLinear(n: nat, x: nat, y: nat)
    ensures ShiftBy(n, Xor(x, y)) == Xor(ShiftBy(n, x), ShiftBy(n, y))
  {
    if n > 0 {
      ShiftLinear(x, y);
      ShiftByLinear(n - 1, Shift(x), Shift(y));
    }
  }

  /** The top bit of the polynomial is set, so the bit shifted out can be read back. */
  lemma ShiftInjective(x: nat, y: nat)
    requires x < U32_LIMIT && y < U32_LIMIT && Shift(x) == Shift(y)
    ensures x == y
  {
    HighBit(x / 2);
    HighBit(y / 2);
    XorCancel(x / 2, POLY);
    XorCancel(y / 2, POLY);
  }

  /** `a` has no bit 31 and the polynomial has, so their exclusive or has. */
  lemma HighBit(a: nat)
    requires a < 0x8000_0000
    ensures Xor(a, POLY) >= 0x8000_0000
  {
    Pow2Of32();
    var rest := POLY - 0x8000_0000;
    assert Shl(1, 31) == 0x8000_0000 by { ByteShift(1, 0); ByteShift(1, 8); ByteShift(1, 16); }
    XorShifted(31, 1, rest);
    XorComm(0x8000_0000, rest);
    XorAssoc(a, rest, 0x8000_0000);
    XorBound(31, a, rest);
    XorShifted(31, 1, Xor(a, rest));
    XorComm(0x8000_0000, Xor(a, rest));
  }

  lemma {:induction false} ShiftByInjective(n: nat, x: nat, y: nat)
    requires x < U32_LIMIT && y < U32_LIMIT && ShiftBy(n, x) == ShiftBy(n, y)
    ensures x == y
  {
    if n > 0 {
      ShiftBound(x);
      ShiftBound(y);
      ShiftByInjective(n - 1, Shift(x), Shift(y));
      ShiftInjective(x, y);
    }
  }

  /** Bits that are not shifted out just move down. */
  lemma {:induction false} ShiftByMultiple(n: nat, hi: nat)
    ensures ShiftBy(n, Shl(hi, n)) == hi
  {
    if n > 0 {
      ShiftByMultiple(n - 1, hi);
    }
  }

  /** The register's high part and the byte mixed into its low part do not meet. */
  lemma SplitStep(n: nat, hi: nat, lo: nat, b: nat)
    requires lo < Pow2(n) && b < Pow2(n)
    ensures Xor(lo, b) < Pow2(n)
    ensures Xor(Shl(hi, n) + lo, b) == Shl(hi, n) + Xor(lo, b)
    ensures ShiftBy(n, Xor(Shl(hi, n) + lo, b)) == Xor(hi, ShiftBy(n, Xor(lo, b)))
  {
    XorShifted(n, hi, lo);
    XorAssoc(Shl(hi, n), lo, b);
    XorBound(n, lo, b);
    XorShifted(n, hi, Xor(lo, b));
    ShiftByLinear(n, Shl(hi, n), Xor(lo, b));
    ShiftByMultiple(n, hi);
  }

  /** What makes a table of 256 entries enough: only the low byte is looked up. */
  lemma TableStep(n: nat, hi: nat, lo: nat, b: nat)
    requires n == 8 && lo < 256 && b < 256
    ensures ShiftBy(n, Xor(256 * hi + lo, b)) == Xor(hi, ShiftBy(n, Xor(lo, b)))
    ensures Xor(256 * hi + lo, b) % 256 == Xor(lo, b)
  {
    EightBits(hi, n);
    SplitStep(n, hi, lo, b);
    LowByte(hi, Xor(lo, b), Xor(256 * hi + lo, b));
  }

  lemma LowByte(hi: nat, lo: nat, v: nat)
    requires lo < 256 && v == 256 * hi + lo
    ensures v % 256 == lo
  {
  }

  lemma EightBits(a: nat, n: nat)
    requires n == 8
    ensures Shl(a, n) == 256 * a && Pow2(n) == 256
  {
    ByteShift(a, n - 8);
  }

  // ---- the code: a table, and one lookup per byte ----

  method BuildTable() returns (table: seq<u32>)
    ensures |table| == 256 && forall i :: 0 <= i < 256 ==> table[i] == ShiftBy(8, i)
  {
    table := [];
    var i := 0;
    while i < 256
      invariant 0 <= i <= 256 && |table| == i
      invariant forall k :: 0 <= k < i ==> table[k] == ShiftBy(8, k)
    {
      var crc: u32 := i;
      var j := 0;
      while j < 8
        invariant 0 <= j <= 8
        invariant ShiftBy(8 - j, crc) == ShiftBy(8, i)
      {
        ShiftBound(crc);
        if crc % 2 == 1 {
          crc := Xor(crc / 2, POLY);
        } else {
          crc := crc / 2;
        }
        j := j + 1;
      }
      table := table + [crc];
      i := i + 1;
    }
  }

  /** `crc32c` */
  method ComputeCrc32c(data: seq<byte>) returns (c: u32)
    ensures c == Crc32c(data)
  {
    var table := BuildTable();
    c := LookUpAll(table, data);
  }

  /** The table-driven loop computes the bit-by-bit register. */
  method LookUpAll(table: seq<u32>, data: seq<byte>) returns (c: u32)
    requires |table| == 256 && forall i :: 0 <= i < 256 ==> table[i] == ShiftBy(8, i)
    ensures c == Crc32c(data)
  {
    hide Xor, ShiftBy;
    var crc: u32 := ALL_ONES;
    for k := 0 to |data|
      invariant crc == FeedAll(ALL_ONES, data[..k])
    {
      var idx := Xor(crc, data[k] as nat) % 256;
      TableStep(8, crc / 256, crc % 256, data[k] as nat);
      FeedBound(crc, data[k]);
      assert data[..k + 1][..k] == data[..k];
      crc := Xor(crc / 256, table[idx]);
    }
    assert data[..|data|] == data;
    Pow2Of32();
    XorBound(32, crc, ALL_ONES);
    c := Xor(crc, ALL_ONES);
  }

  // ---- burst errors ----

  lemma {:induction false} FeedAllConcat(crc: nat, a: seq<byte>, b: seq<byte>)
    ensures FeedAll(crc, a + b) == FeedAll(FeedAll(crc, a), b)
  {
    if b == [] {
      assert a + b == a;
    } else {
      var init := b[..|b| - 1];
      assert (a + b)[..|a + b| - 1] == a + init;
      FeedAllConcat(crc, a, init);
    }
  }

  /** Equal suffixes keep different registers different. */
  lemma {:induction false} FeedAllInjective(x: nat, y: nat, data: seq<byte>)
    requires x < U32_LIMIT && y < U32_LIMIT && FeedAll(x, data) == FeedAll(y, data)
    ensures x == y
  {
    if data != [] {
      var init, b := data[..|data| - 1], data[|data| - 1] as nat;
      var u, v := FeedAll(x, init), FeedAll(y, init);
      FeedAllBound(x, init);
      FeedAllBound(y, init);
      FeedBound(u, b as byte);
      FeedBound(v, b as byte);
      ShiftByInjective(8, Xor(u, b), Xor(v, b));
      XorCancel(u, b);
      XorCancel(v, b);
      FeedAllInjective(x, y, init);
    }
  }

  /** Up to four bytes fed in are the same as their number mixed in at once. */
  lemma {:induction false} FeedWord(crc: nat, data: seq<byte>)
    requires |data| <= 4
    ensures FeedAll(crc, data) == ShiftBy(8 * |data|, Xor(crc, FromLE(data)))
  {
    if data == [] {
      XorZero(crc);
    } else {
      var n := |data| - 1;
      var init, b := data[..n], data[n];
      FeedWord(crc, init);
      FromLESnoc(init, b);
      assert data == init + [b];
      MixHigh(8 * n, crc, FromLE(init), b as nat);
      ShiftByAdd(8 * n, 8, Xor(crc, FromLE(data)));
    }
  }

  /** Mixing `b` in after `m` clocks is mixing it in `m` places higher before them. */
  lemma MixHigh(m: nat, crc: nat, lo: nat, b: nat)
    requires lo < Pow2(m)
    ensures Xor(ShiftBy(m, Xor(crc, lo)), b) == ShiftBy(m, Xor(crc, lo + Shl(b, m)))
  {
    var high := Shl(b, m);
    ShiftByMultiple(m, b);
    ShiftByLinear(m, Xor(crc, lo), high);
    XorAssoc(crc, lo, high);
    XorShifted(m, b, lo);
    XorComm(lo, high);
  }

  lemma {:induction false} ShiftByAdd(m: nat, n: nat, x: nat)
    ensures ShiftBy(n, ShiftBy(m, x)) == ShiftBy(m + n, x)
  {
    if m > 0 {
      ShiftByAdd(m - 1, n, Shift(x));
    }
  }

  lemma {:induction false} FromLESnoc(s: seq<byte>, b: byte)
    ensures FromLE(s) < Pow2(8 * |s|)
    ensures FromLE(s + [b]) == FromLE(s) + Shl(b as nat, 8 * |s|)
  {
    if s == [] {
      assert (s + [b])[1..] == [];
    } else {
      assert (s + [b])[1..] == s[1..] + [b];
      FromLESnoc(s[1..], b);
      ByteShift(b as nat, 8 * (|s| - 1));
    }
  }

  /** `a` and `b` are equally long and differ, but only inside four consecutive bytes. */
  ghost predicate Burst(a: seq<byte>, b: seq<byte>) {
    && a != b
    && |a| == |b|
    && exists w: nat | w <= |a| :: a[..w] == b[..w] && a[Min(w + 4, |a|)..] == b[Min(w + 4, |a|)..]
  }

  /** No burst of up to 32 bits goes undetected. */
  lemma BurstChangesCrc(a: seq<byte>, b: seq<byte>)
    requires Burst(a, b)
    ensures Crc32c(a) != Crc32c(b)
  {
    hide Crc32c;
    var w: nat :| w <= |a| && a[..w] == b[..w] && a[Min(w + 4, |a|)..] == b[Min(w + 4, |a|)..];
    var e := Min(w + 4, |a|);
    assert a == a[..w] + a[w..e] + a[e..] && b == a[..w] + b[w..e] + a[e..];
    if Crc32c(a) == Crc32c(b) {
      WordChangesCrc(a[..w], a[w..e], b[w..e], a[e..]);
      assert false;
    }
  }

  /** The register after three parts. */
  lemma CrcOfParts(pre: seq<byte>, mid: seq<byte>, post: seq<byte>)
    ensures var f := FeedAll(FeedAll(FeedAll(ALL_ONES, pre), mid), post);
            Xor(Crc32c(pre + mid + post), ALL_ONES) == f
  {
    FeedAllConcat(ALL_ONES, pre + mid, post);
    FeedAllConcat(ALL_ONES, pre, mid);
    XorCancel(FeedAll(ALL_ONES, pre + mid + post), ALL_ONES);
  }

  lemma WordChangesCrc(pre: seq<byte>, ma: seq<byte>, mb: seq<byte>, post: seq<byte>)
    requires |ma| == |mb| <= 4 && Crc32c(pre + ma + post) == Crc32c(pre + mb + post)
    ensures ma == mb
  {
    hide FeedAll, Crc32c, Xor;
    var s := FeedAll(ALL_ONES, pre);
    CrcOfParts(pre, ma, post);
    CrcOfParts(pre, mb, post);
    FeedAllBound(ALL_ONES, pre);
    FeedAllBound(s, ma);
    FeedAllBound(s, mb);
    FeedAllInjective(FeedAll(s, ma), FeedAll(s, mb), post);
    WordInjective(s, ma, mb);
  }

  lemma WordInjective(s: nat, ma: seq<byte>, mb: seq<byte>)
    requires s < U32_LIMIT && |ma| == |mb| <= 4 && FeedAll(s, ma) == FeedAll(s, mb)
    ensures ma == mb
  {
    FeedWord(s, ma);
    FeedWord(s, mb);
    WordBound(s, ma);
    WordBound(s, mb);
    ShiftByInjective(8 * |ma|, Xor(s, FromLE(ma)), Xor(s, FromLE(mb)));
    XorComm(s, FromLE(ma));
    XorComm(s, FromLE(mb));
    XorCancel(FromLE(ma), s);
    XorCancel(FromLE(mb), s);
    LEofFromLE(ma);
    LEofFromLE(mb);
  }

  lemma WordBound(s: nat, m: seq<byte>)
    requires s < U32_LIMIT && |m| <= 4
    ensures Xor(s, FromLE(m)) < U32_LIMIT
  {
    Pow256Values();
    assert Pow256(3) == 256 * Pow256(2);
    Pow2Of32();
    XorBound(32, s, FromLE(m));
  }
}
