/**
 Bytes, the fixed-width unsigned integers of the storage engine, and their little-endian
 encoding. Widths are written out as subset types; `usize` is 64 bits wide.
 */
module Bytes {
  import opened Wrappers

  newtype byte = x: int | 0 <= x < 256

  type u16 = x: nat | x < 0x1_0000
  type u32 = x: nat | x < 0x1_0000_0000
  type u64 = x: nat | x < 0x1_0000_0000_0000_0000
  type i32 = x: int | -0x8000_0000 <= x < 0x8000_0000
  type i64 = x: int | -0x8000_0000_0000_0000 <= x < 0x8000_0000_0000_0000

  const U32_LIMIT: nat := 0x1_0000_0000
  const U64_LIMIT: nat := 0x1_0000_0000_0000_0000

  function Pow256(n: nat): (p: nat)
    ensures p > 0
  {
    if n == 0 then 1 else 256 * Pow256(n - 1)
  }

  /** A cast to 64 bits keeps the low ones. */
  function ToU64(n: nat): u64 { n % U64_LIMIT }

  function ToU32(n: nat): u32 { n % U32_LIMIT }

  lemma FitsU64(n: nat)
    requires n < U64_LIMIT
    ensures ToU64(n) == n
  {
  }

  /** The `n` low-order bytes of `v`, least significant first. */
  function LE(n: nat, v: nat): (s: seq<byte>)
    ensures |s| == n
  {
    if n == 0 then [] else [(v % 256) as byte] + LE(n - 1, v / 256)
  }

  /** The number whose little-endian digits are `s`. */
  function FromLE(s: seq<byte>): (v: nat)
    ensures v < Pow256(|s|)
  {
    if s == [] then 0 else s[0] as nat + 256 * FromLE(s[1..])
  }

  lemma Pow256Values()
    ensures Pow256(1) == 0x100 && Pow256(2) == 0x1_0000 && Pow256(4) == U32_LIMIT && Pow256(8) == U64_LIMIT
  {
    assert Pow256(2) == 256 * Pow256(1);
    assert Pow256(3) == 256 * Pow256(2);
    assert Pow256(4) == 256 * Pow256(3);
    assert Pow256(5) == 256 * Pow256(4);
    assert Pow256(6) == 256 * Pow256(5);
    assert Pow256(7) == 256 * Pow256(6);
    assert Pow256(8) == 256 * Pow256(7);
  }

  lemma {:induction false} FromLEofLE(n: nat, v: nat)
    requires v < Pow256(n)
    ensures FromLE(LE(n, v)) == v
  {
    if n > 0 {
      assert LE(n, v)[1..] == LE(n - 1, v / 256);
      FromLEofLE(n - 1, v / 256);
    }
  }

  lemma {:induction false} LEofFromLE(s: seq<byte>)
    ensures LE(|s|, FromLE(s)) == s
  {
    if s != [] {
      assert FromLE(s) % 256 == s[0] as nat;
      LEofFromLE(s[1..]);
    }
  }

  /** Two's complement of a signed value in `n` bytes, as an unsigned number. */
  function ToUnsigned(n: nat, v: int): (u: nat)
    requires v < Pow256(n) && 0 <= v + Pow256(n)
    ensures u < Pow256(n)
  {
    if v < 0 then v + Pow256(n) else v
  }

  function FromUnsigned(n: nat, u: nat): int
    requires u < Pow256(n)
  {
    if 2 * u >= Pow256(n) then u - Pow256(n) else u
  }

  /** `bs` occupies `buf` from `pos` on. */
  predicate At(buf: seq<byte>, pos: nat, bs: seq<byte>) {
    pos + |bs| <= |buf| && buf[pos..pos + |bs|] == bs
  }

  lemma AtWhole(buf: seq<byte>)
    ensures At(buf, 0, buf)
  {
  }

  lemma AtMeans(buf: seq<byte>, pos: nat, bs: seq<byte>)
    ensures At(buf, pos, bs) <==> pos + |bs| <= |buf| && buf[pos..pos + |bs|] == bs
  {
  }

  lemma AtSplit(buf: seq<byte>, pos: nat, a: seq<byte>, b: seq<byte>)
    requires At(buf, pos, a + b)
    ensures At(buf, pos, a) && At(buf, pos + |a|, b)
  {
    var w := buf[pos..pos + |a + b|];
    assert w[..|a|] == a && w[|a|..] == b;
    assert buf[pos..pos + |a|] == w[..|a|];
    assert buf[pos + |a|..pos + |a| + |b|] == w[|a|..];
  }

  lemma AtExtend(buf: seq<byte>, pos: nat, bs: seq<byte>, more: seq<byte>)
    requires At(buf, pos, bs)
    ensures At(buf + more, pos, bs)
  {
    assert (buf + more)[pos..pos + |bs|] == buf[pos..pos + |bs|];
  }

  /** What sits inside a part of the buffer sits inside the buffer. */
  lemma AtInner(buf: seq<byte>, pos: nat, mid: seq<byte>, off: nat, bs: seq<byte>)
    requires At(buf, pos, mid) && At(mid, off, bs)
    ensures At(buf, pos + off, bs)
  {
    var before, after := mid[..off], mid[off + |bs|..];
    assert mid == before + (bs + after);
    AtSplit(buf, pos, before, bs + after);
    AtSplit(buf, pos + off, bs, after);
  }

  /** An in-bounds little-endian read, as Rust's `get(o..o + n).map(from_le_bytes)`. */
  function Get(n: nat, buf: seq<byte>, o: nat): (r: Option<nat>)
    ensures r.Some? ==> r.value < Pow256(n)
  {
    if o + n <= |buf| then Some(FromLE(buf[o..o + n])) else None
  }

  lemma GetAt(n: nat, buf: seq<byte>, o: nat, v: nat)
    requires At(buf, o, LE(n, v)) && v < Pow256(n)
    ensures Get(n, buf, o) == Some(v)
  {
    FromLEofLE(n, v);
  }

  /** A little-endian read that is 0 out of bounds. */
  function Read(n: nat, b: seq<byte>, o: nat): nat {
    Get(n, b, o).GetOr(0)
  }

  // ---- parts laid end to end ----

  function Flat(parts: seq<seq<byte>>): seq<byte> {
    if parts == [] then [] else Flat(parts[..|parts| - 1]) + parts[|parts| - 1]
  }

  /** Part `j` starts where the parts before it end. */
  lemma {:induction false} FlatAt(parts: seq<seq<byte>>, j: nat)
    requires j < |parts|
    ensures At(Flat(parts), |Flat(parts[..j])|, parts[j])
  {
    var init, last := parts[..|parts| - 1], parts[|parts| - 1];
    if j < |init| {
      assert init[..j] == parts[..j];
      FlatAt(init, j);
      AtExtend(Flat(init), |Flat(parts[..j])|, parts[j], last);
    } else {
      assert parts[..j] == init;
      assert Flat(parts)[|Flat(init)|..] == last;
    }
  }

  lemma {:induction false} FlatLength(parts: seq<seq<byte>>, w: nat)
    requires forall i :: 0 <= i < |parts| ==> |parts[i]| == w
    ensures |Flat(parts)| == |parts| * w
  {
    if parts != [] {
      FlatLength(parts[..|parts| - 1], w);
      assert |parts| * w == (|parts| - 1) * w + w;
    }
  }

  /** Parts of equal width `w`: part `j` starts at byte `j * w`. */
  lemma EvenAt(parts: seq<seq<byte>>, w: nat, j: nat)
    requires j < |parts| && forall i :: 0 <= i < |parts| ==> |parts[i]| == w
    ensures |Flat(parts)| == |parts| * w
    ensures At(Flat(parts), j * w, parts[j])
  {
    FlatLength(parts, w);
    FlatLength(parts[..j], w);
    FlatAt(parts, j);
  }

  lemma FlatNone(parts: seq<seq<byte>>)
    ensures Flat(parts[..0]) == []
  {
  }

  lemma FlatSnoc(parts: seq<seq<byte>>, k: nat)
    requires k < |parts|
    ensures Flat(parts[..k + 1]) == Flat(parts[..k]) + parts[k]
  {
    assert parts[..k + 1][..k] == parts[..k];
  }

  /** A `Vec` of `n`-byte integers, element after element. */
  function LEs(n: nat, vs: seq<nat>): seq<byte> {
    Flat(seq(|vs|, i requires 0 <= i < |vs| => LE(n, vs[i])))
  }

  /** Element `k` of an encoded vector starts at byte `k * n`. */
  lemma LEsAt(n: nat, vs: seq<nat>, k: nat)
    requires k < |vs|
    ensures |LEs(n, vs)| == |vs| * n
    ensures At(LEs(n, vs), k * n, LE(n, vs[k]))
  {
    EvenAt(seq(|vs|, i requires 0 <= i < |vs| => LE(n, vs[i])), n, k);
  }

  lemma LEsLength(n: nat, vs: seq<nat>)
    ensures |LEs(n, vs)| == |vs| * n
  {
    FlatLength(seq(|vs|, i requires 0 <= i < |vs| => LE(n, vs[i])), n);
  }

  /** The push of one more integer. */
  lemma LEsSnoc(n: nat, vs: seq<nat>, k: nat)
    requires k < |vs|
    ensures LEs(n, vs[..k + 1]) == LEs(n, vs[..k]) + LE(n, vs[k])
  {
    var parts := seq(k + 1, i requires 0 <= i < k + 1 => LE(n, vs[..k + 1][i]));
    assert parts[..k] == seq(k, i requires 0 <= i < k => LE(n, vs[..k][i]));
  }

  /** Push every integer of `vs`. */
  method PushAll(n: nat, vs: seq<nat>, was: seq<byte>) returns (out: seq<byte>)
    ensures out == was + LEs(n, vs)
  {
    hide LE;
    out := was;
    for k := 0 to |vs|
      invariant out == was + LEs(n, vs[..k])
    {
      LEsSnoc(n, vs, k);
      out := out + LE(n, vs[k]);
    }
    assert vs[..|vs|] == vs;
  }

  /** `b[at..at + src.len()].copy_from_slice(src)`. */
  method CopyFromSlice(b: array<byte>, at: nat, src: seq<byte>)
    requires at + |src| <= b.Length
    modifies b
    ensures b[..at + |src|] == old(b[..at]) + src && b[at + |src|..] == old(b[at + |src|..])
  {
    for i := 0 to |src|
      invariant b[..at + i] == old(b[..at]) + src[..i] && b[at + i..] == old(b[at + i..])
    {
      b[at + i] := src[i];
      assert src[..i + 1] == src[..i] + [src[i]];
    }
    assert src[..|src|] == src;
  }

  /** Where element `j` of an array of `n`-byte integers lies. */
  function ElementAt(pos: nat, j: nat, n: nat): nat {
    pos + j * n
  }

  lemma ElementNext(pos: nat, j: nat, n: nat)
    ensures ElementAt(pos, j + 1, n) == ElementAt(pos, j, n) + n && ElementAt(pos, 0, n) == pos
  {
  }

  /** Reading back an encoded vector in place, element by element. */
  lemma ListReads(n: nat, b: seq<byte>, off: nat, vs: seq<nat>, k: nat)
    requires At(b, off, LEs(n, vs)) && k < |vs| && vs[k] < Pow256(n)
    ensures Read(n, b, ElementAt(off, k, n)) == vs[k]
  {
    hide LE, LEs, At, Get;
    LEsAt(n, vs, k);
    AtInner(b, off, LEs(n, vs), k * n, LE(n, vs[k]));
    GetAt(n, b, off + k * n, vs[k]);
  }
}
