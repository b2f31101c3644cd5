/** Bitwise operations on naturals, by binary digits. */
module Bits {

  function Pow2(n: nat): (p: nat)
    ensures p > 0
  {
    if n == 0 then 1 else 2 * Pow2(n - 1)
  }

  /** Bitwise exclusive or. */
  function Xor(a: nat, b: nat): nat {
    if a == 0 && b == 0 then 0
    else (if a % 2 == b % 2 then 0 else 1) + 2 * Xor(a / 2, b / 2)
  }

  lemma XorHalf(a: nat, b: nat)
    ensures Xor(a, b) / 2 == Xor(a / 2, b / 2)
    ensures Xor(a, b) % 2 == if a % 2 == b % 2 then 0 else 1
  {
  }

  lemma XorZero(a: nat)
    ensures Xor(a, 0) == a
  {
  }

  lemma XorSelf(a: nat)
    ensures Xor(a, a) == 0
  {
  }

  lemma XorComm(a: nat, b: nat)
    ensures Xor(a, b) == Xor(b, a)
  {
  }

  lemma {:induction false} XorAssoc(a: nat, b: nat, c: nat)
    ensures Xor(a, Xor(b, c)) == Xor(Xor(a, b), c)
    decreases a + b + c
  {
    if a + b + c > 0 {
      XorHalf(b, c);
      XorHalf(a, b);
      XorHalf(a, Xor(b, c));
      XorHalf(Xor(a, b), c);
      XorAssoc(a / 2, b / 2, c / 2);
    }
  }

  /** Exclusive or with a fixed operand undoes itself. */
  lemma XorCancel(a: nat, b: nat)
    ensures Xor(Xor(a, b), b) == a
  {
    XorAssoc(a, b, b);
    XorSelf(b);
    XorZero(a);
  }

  lemma {:induction false} XorBound(n: nat, a: nat, b: nat)
    requires a < Pow2(n) && b < Pow2(n)
    ensures Xor(a, b) < Pow2(n)
  {
    if n > 0 {
      XorHalf(a, b);
      XorBound(n - 1, a / 2, b / 2);
    }
  }

  /** `a << n`. */
  function Shl(a: nat, n: nat): nat {
    if n == 0 then a else 2 * Shl(a, n - 1)
  }

  lemma ByteShift(a: nat, n: nat)
    ensures Shl(a, n + 8) == 256 * Shl(a, n) && Pow2(n + 8) == 256 * Pow2(n)
  {
    assert Shl(a, n + 4) == 2 * Shl(a, n + 3) == 4 * Shl(a, n + 2) == 8 * Shl(a, n + 1) == 16 * Shl(a, n);
    assert Shl(a, n + 8) == 2 * Shl(a, n + 7) == 4 * Shl(a, n + 6) == 8 * Shl(a, n + 5) == 16 * Shl(a, n + 4);
    assert Pow2(n + 4) == 2 * Pow2(n + 3) == 4 * Pow2(n + 2) == 8 * Pow2(n + 1) == 16 * Pow2(n);
    assert Pow2(n + 8) == 2 * Pow2(n + 7) == 4 * Pow2(n + 6) == 8 * Pow2(n + 5) == 16 * Pow2(n + 4);
  }

  /** Bits below position `n` of one operand and above it of the other do not meet. */
  lemma {:induction false} XorShifted(n: nat, hi: nat, lo: nat)
    requires lo < Pow2(n)
    ensures Xor(Shl(hi, n), lo) == Shl(hi, n) + lo
  {
    if n == 0 {
      XorZero(hi);
    } else {
      XorHalf(Shl(hi, n), lo);
      XorShifted(n - 1, hi, lo / 2);
    }
  }

  lemma XorDouble(a: nat, b: nat)
    ensures Xor(2 * a, 2 * b) == 2 * Xor(a, b)
  {
    XorHalf(2 * a, 2 * b);
  }

  lemma {:induction false} XorScaled(n: nat, a: nat, b: nat)
    ensures Xor(Pow2(n) * a, Pow2(n) * b) == Pow2(n) * Xor(a, b)
  {
    hide Xor, Pow2;
    if n == 0 {
      One(a, b);
    } else {
      XorScaled(n - 1, a, b);
      Doubled(n, a);
      Doubled(n, b);
      Doubled(n, Xor(a, b));
      XorDouble(Pow2(n - 1) * a, Pow2(n - 1) * b);
    }
  }

  lemma Doubled(n: nat, a: nat)
    requires n > 0
    ensures Pow2(n) * a == 2 * (Pow2(n - 1) * a)
  {
    assert Pow2(n) == 2 * Pow2(n - 1);
  }

  lemma One(a: nat, b: nat)
    ensures Pow2(0) == 1 && Pow2(0) * a == a && Pow2(0) * b == b && Pow2(0) * Xor(a, b) == Xor(a, b)
  {
  }

  /** Bit `k` of `a`: `(a >> k) & 1 == 1`. */
  predicate Bit(a: nat, k: nat) {
    if k == 0 then a % 2 == 1 else Bit(a / 2, k - 1)
  }

  /** Bitwise or. */
  function Or(a: nat, b: nat): nat {
    if a == 0 && b == 0 then 0
    else (if a % 2 == 0 && b % 2 == 0 then 0 else 1) + 2 * Or(a / 2, b / 2)
  }

  /** The bits of `a | (1 << k)`: those of `a`, and bit `k`. */
  lemma {:induction false} OrSetsBit(a: nat, k: nat, i: nat)
    ensures Bit(Or(a, Pow2(k)), i) <==> i == k || Bit(a, i)
  {
    var o := Or(a, Pow2(k));
    OrHalf(a, Pow2(k));
    if k == 0 {
      assert o / 2 == a / 2 by { OrZero(a / 2); }
    } else {
      assert Pow2(k) / 2 == Pow2(k - 1) && Pow2(k) % 2 == 0;
      if i > 0 {
        OrSetsBit(a / 2, k - 1, i - 1);
      }
    }
  }

  lemma OrZero(a: nat)
    ensures Or(a, 0) == a
  {
  }

  lemma OrHalf(a: nat, b: nat)
    ensures Or(a, b) / 2 == Or(a / 2, b / 2)
    ensures Or(a, b) % 2 == if a % 2 == 0 && b % 2 == 0 then 0 else 1
  {
  }

  lemma {:induction false} OrBound(n: nat, a: nat, b: nat)
    requires a < Pow2(n) && b < Pow2(n)
    ensures Or(a, b) < Pow2(n)
  {
    if n > 0 {
      OrHalf(a, b);
      OrBound(n - 1, a / 2, b / 2);
    }
  }

  lemma {:induction false} Pow2Monotone(a: nat, b: nat)
    requires a <= b
    ensures Pow2(a) <= Pow2(b)
  {
    if a < b {
      Pow2Monotone(a, b - 1);
    }
  }

  lemma {:induction false} ZeroBit(k: nat)
    ensures !Bit(0, k)
  {
    if k > 0 {
      ZeroBit(k - 1);
    }
  }
}

/** Bytes as bitmaps. */
module Bitmaps {
  import opened Bits
  import opened Bytes

  function WithBit(b: byte, k: nat): byte
    requires k < 8
  {
    OrByte(b, k);
    Or(b as nat, Pow2(k)) as byte
  }

  lemma OrByte(b: byte, k: nat)
    requires k < 8
    ensures Or(b as nat, Pow2(k)) < 256
  {
    assert Pow2(8) == 256;
    Pow2Monotone(k, 7);
    OrBound(8, b as nat, Pow2(k));
  }

  /** `(bm[j / 8] >> (j % 8)) & 1 == 1`. */
  predicate ValidAt(bm: seq<byte>, j: nat)
    requires j / 8 < |bm|
  {
    Bit(bm[j / 8] as nat, j % 8)
  }
}
