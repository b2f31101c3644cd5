/**
 The little-endian `Writer` and the bounds-checked `Reader` that the footer and the chunk
 header go through, with the cursor functions that specify them.
 */
module Cursors {
  import opened Wrappers
  import opened Bytes

  /** Errors of the file format, with their numbers but without their message texts. */
  datatype FormatError =
    | BadMagic(expected: nat, found: nat)
    | UnsupportedVersion(version: nat)
    | FooterCrcMismatch(expected: nat, found: nat)
    | SectionCrcMismatch(expected: nat, found: nat)
    | PageCrcMismatch(columnId: nat, pageIndex: nat, expected: nat, found: nat)
    | Truncated
    | Decode

  /** What a checked read yields: a value and the bytes after it. */
  type Cursor<+T> = Result<(T, seq<byte>), FormatError>

  /** The predicate deciding which byte strings are UTF-8. */
  type Utf8 = seq<byte> -> bool

  /** `Reader::take`: the next `n` bytes. */
  function Take(s: seq<byte>, n: nat): (r: Cursor<seq<byte>>)
    ensures r.Ok? <==> n <= |s|
    ensures r.Ok? ==> |r.value.0| == n
  {
    if n > |s| then Err(Truncated) else Ok((s[..n], s[n..]))
  }

  function ReadU8(s: seq<byte>): Cursor<byte> {
    var (b, s') :- Take(s, 1);
    Ok((b[0], s'))
  }

  function ReadU16(s: seq<byte>): Cursor<u16> {
    var (b, s') :- Take(s, 2);
    Pow256Values();
    Ok((FromLE(b), s'))
  }

  function ReadU32(s: seq<byte>): Cursor<u32> {
    var (b, s') :- Take(s, 4);
    Pow256Values();
    Ok((FromLE(b), s'))
  }

  function ReadU64(s: seq<byte>): Cursor<u64> {
    var (b, s') :- Take(s, 8);
    Pow256Values();
    Ok((FromLE(b), s'))
  }

  function ReadLp(s: seq<byte>): Cursor<seq<byte>> {
    var (n, s') :- ReadU32(s);
    Take(s', n)
  }

  function ReadLpStr(utf8: Utf8, s: seq<byte>): Cursor<seq<byte>> {
    var (b, s') :- ReadLp(s);
    if utf8(b) then Ok((b, s')) else Err(Decode)
  }

  // Encoders are written with the bytes that follow them, so that reading is peeling.

  /** A byte blob behind its 32-bit length, followed by `rest`. */
  function Lp(b: seq<byte>, rest: seq<byte>): seq<byte> {
    LE(4, |b|) + (b + rest)
  }

  lemma TakesFront(b: seq<byte>, rest: seq<byte>)
    ensures Take(b + rest, |b|) == Ok((b, rest))
  {
    assert (b + rest)[..|b|] == b && (b + rest)[|b|..] == rest;
  }

  lemma ReadsU8(v: byte, rest: seq<byte>)
    ensures ReadU8([v] + rest) == Ok((v, rest))
  {
    TakesFront([v], rest);
  }

  lemma ReadsU16(v: u16, rest: seq<byte>)
    ensures ReadU16(LE(2, v) + rest) == Ok((v, rest))
  {
    TakesFront(LE(2, v), rest);
    Pow256Values();
    FromLEofLE(2, v);
  }

  lemma ReadsU32(v: u32, rest: seq<byte>)
    ensures ReadU32(LE(4, v) + rest) == Ok((v, rest))
  {
    TakesFront(LE(4, v), rest);
    Pow256Values();
    FromLEofLE(4, v);
  }

  lemma ReadsU64(v: u64, rest: seq<byte>)
    ensures ReadU64(LE(8, v) + rest) == Ok((v, rest))
  {
    TakesFront(LE(8, v), rest);
    Pow256Values();
    FromLEofLE(8, v);
  }

  lemma ReadsLp(b: seq<byte>, rest: seq<byte>)
    requires |b| < U32_LIMIT
    ensures ReadLp(Lp(b, rest)) == Ok((b, rest))
  {
    ReadsU32(|b|, b + rest);
    TakesFront(b, rest);
  }

  // ---- the cursors as objects ----

  /**
   Append-only writer. A caller's `as u32` cast keeps the low bytes, and so does `LE`. The
   ghost argument names the bytes still to be written.
   */
  class Writer {
    var buf: seq<byte>

    constructor ()
      ensures buf == []
    {
      buf := [];
    }

    method Append(b: seq<byte>, ghost rest: seq<byte>)
      modifies this
      ensures buf == old(buf) + b && buf + rest == old(buf) + (b + rest)
    {
      buf := buf + b;
    }

    method U8(v: byte, ghost rest: seq<byte>)
      modifies this
      ensures buf == old(buf) + [v] && buf + rest == old(buf) + ([v] + rest)
    {
      Append([v], rest);
    }

    method U16(v: nat, ghost rest: seq<byte>)
      modifies this
      ensures buf == old(buf) + LE(2, v) && buf + rest == old(buf) + (LE(2, v) + rest)
    {
      Append(LE(2, v), rest);
    }

    method U32(v: nat, ghost rest: seq<byte>)
      modifies this
      ensures buf == old(buf) + LE(4, v) && buf + rest == old(buf) + (LE(4, v) + rest)
    {
      Append(LE(4, v), rest);
    }

    method U64(v: nat, ghost rest: seq<byte>)
      modifies this
      ensures buf == old(buf) + LE(8, v) && buf + rest == old(buf) + (LE(8, v) + rest)
    {
      Append(LE(8, v), rest);
    }

    method LpBytes(b: seq<byte>, ghost rest: seq<byte>)
      modifies this
      ensures buf + rest == old(buf) + Lp(b, rest)
    {
      U32(|b|, b + rest);
      Append(b, rest);
    }
  }

  function Value<T>(c: Cursor<T>): Result<T, FormatError> {
    if c.Ok? then Ok(c.value.0) else Err(c.error)
  }

  /** Cursor over a byte sequence. */
  class Reader {
    const buf: seq<byte>
    var pos: nat

    ghost predicate Valid()
      reads this
    {
      pos <= |buf|
    }

    /** The bytes not read yet. */
    ghost function Rest(): seq<byte>
      requires Valid()
      reads this
    {
      buf[pos..]
    }

    /** A read of the bytes `s` had outcome `r`, as the cursor function `c` says. */
    ghost predicate Did<T>(c: Cursor<T>, r: Result<T, FormatError>)
      reads this
    {
      Valid() && r == Value(c) && (c.Ok? ==> Rest() == c.value.1)
    }

    constructor (buf: seq<byte>)
      ensures this.buf == buf && pos == 0 && Valid() && Rest() == buf
    {
      this.buf := buf;
      pos := 0;
    }

    method Slice(n: nat) returns (r: Result<seq<byte>, FormatError>)
      requires Valid()
      modifies this
      ensures Did(Take(old(Rest()), n), r)
    {
      if pos + n > |buf| {
        return Err(Truncated);
      }
      r := Ok(buf[pos..pos + n]);
      assert buf[pos..][..n] == buf[pos..pos + n] && buf[pos..][n..] == buf[pos + n..];
      pos := pos + n;
    }

    method U8() returns (r: Result<byte, FormatError>)
      requires Valid()
      modifies this
      ensures Did(ReadU8(old(Rest())), r)
    {
      var b :- Slice(1);
      r := Ok(b[0]);
    }

    method U16() returns (r: Result<u16, FormatError>)
      requires Valid()
      modifies this
      ensures Did(ReadU16(old(Rest())), r)
    {
      var b :- Slice(2);
      Pow256Values();
      r := Ok(FromLE(b));
    }

    method U32() returns (r: Result<u32, FormatError>)
      requires Valid()
      modifies this
      ensures Did(ReadU32(old(Rest())), r)
    {
      var b :- Slice(4);
      Pow256Values();
      r := Ok(FromLE(b));
    }

    method U64() returns (r: Result<u64, FormatError>)
      requires Valid()
      modifies this
      ensures Did(ReadU64(old(Rest())), r)
    {
      var b :- Slice(8);
      Pow256Values();
      r := Ok(FromLE(b));
    }

    method LpBytes() returns (r: Result<seq<byte>, FormatError>)
      requires Valid()
      modifies this
      ensures Did(ReadLp(old(Rest())), r)
    {
      var n :- U32();
      r := Slice(n);
    }

    method LpStr(utf8: Utf8) returns (r: Result<seq<byte>, FormatError>)
      requires Valid()
      modifies this
      ensures Did(ReadLpStr(utf8, old(Rest())), r)
    {
      var b :- LpBytes();
      r := if utf8(b) then Ok(b) else Err(Decode);
    }
  }
}
