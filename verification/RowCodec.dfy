/** Row operations as log record payloads, and back. */
module RowCodec {
  import opened Wrappers
  import opened Numbers
  import opened Bytes
  import opened Cursors

  /** A cell; floats are carried as their bits, strings as their bytes, lengths below 2^32. */
  datatype CellValue =
    | NullValue
    | BoolValue(b: bool)
    | I64Value(i: i64)
    | F64Value(bits: u64)
    | Utf8Value(text: Sized<byte>)
    | VectorValue(v: Sized<u32>)
    | EdgesValue(targets: Sized<u64>)

  type Sized<T> = s: seq<T> | |s| < U32_LIMIT witness []

  type Row = map<u32, CellValue>

  datatype Op = Put(row: Row) | Delete

  datatype RecordType = InsertRow | UpdateRow | DeleteRow | Commit | Abort | Checkpoint

  // ---- values ----

  function EncodedValue(v: CellValue): (s: seq<byte>)
    ensures |s| > 0
  {
    match v
    case NullValue => [0]
    case BoolValue(b) => [1, if b then 1 else 0]
    case I64Value(i) => Pow256Values(); [2] + LE(8, ToUnsigned(8, i))
    case F64Value(bits) => [3] + LE(8, bits)
    case Utf8Value(text) => [4] + (LE(4, |text|) + text)
    case VectorValue(w) => [5] + (LE(4, |w|) + LEs(4, w))
    case EdgesValue(t) => [6] + (LE(4, |t|) + LEs(8, t))
  }

  /** `count` little-endian integers of `n` bytes each, if they are all there. */
  function Integers(n: nat, p: seq<byte>, pos: nat, count: nat): (r: Option<seq<nat>>)
    ensures r.Some? ==> |r.value| == count && forall k :: 0 <= k < count ==> r.value[k] < Pow256(n)
    decreases count
  {
    if count == 0 then Some([])
    else
      var x :- Get(n, p, pos);
      var rest :- Integers(n, p, pos + n, count - 1);
      Some([x] + rest)
  }

  function DecodeValue(utf8: Utf8, p: seq<byte>, pos: nat): Option<(CellValue, nat)> {
    Pow256Values();
    if pos >= |p| then None
    else
      var at := pos + 1;
      match p[pos]
      case 0 => Some((NullValue, at))
      case 1 => if at >= |p| then None else Some((BoolValue(p[at] != 0), at + 1))
      case 2 => var u :- Get(8, p, at); Some((I64Value(FromUnsigned(8, u)), at + 8))
      case 3 => var u :- Get(8, p, at); Some((F64Value(u), at + 8))
      case 4 =>
        var len :- Get(4, p, at);
        var start := at + 4;
        if start + len > |p| || !utf8(p[start..start + len]) then None
        else Some((Utf8Value(p[start..start + len]), start + len))
      case 5 =>
        var dim :- Get(4, p, at);
        var w :- Integers(4, p, at + 4, dim);
        Some((VectorValue(w), at + 4 + dim * 4))
      case 6 =>
        var count :- Get(4, p, at);
        var t :- Integers(8, p, at + 4, count);
        Some((EdgesValue(t), at + 4 + count * 8))
      case _ => None
  }

  /** What can be decoded again: text that is UTF-8. */
  predicate Decodable(utf8: Utf8, v: CellValue) {
    v.Utf8Value? ==> utf8(v.text)
  }

  lemma {:induction false} IntegersRead(n: nat, p: seq<byte>, pos: nat, vs: seq<nat>, k: nat)
    requires k <= |vs| && forall j :: 0 <= j < |vs| ==> vs[j] < Pow256(n)
    requires forall j :: 0 <= j < |vs| ==> At(p, ElementAt(pos, j, n), LE(n, vs[j]))
    ensures Integers(n, p, ElementAt(pos, k, n), |vs| - k) == Some(vs[k..])
    decreases |vs| - k
  {
    hide LE, Get, At, ElementAt;
    if k < |vs| {
      GetAt(n, p, ElementAt(pos, k, n), vs[k]);
      ElementNext(pos, k, n);
      IntegersRead(n, p, pos, vs, k + 1);
      assert vs[k..] == [vs[k]] + vs[k + 1..];
    }
  }

  lemma ListRead(n: nat, p: seq<byte>, pos: nat, vs: seq<nat>)
    requires At(p, pos, LEs(n, vs)) && forall j :: 0 <= j < |vs| ==> vs[j] < Pow256(n)
    ensures Integers(n, p, pos, |vs|) == Some(vs) && |LEs(n, vs)| == |vs| * n
  {
    hide LE, LEs, At;
    LEsLength(n, vs);
    forall j | 0 <= j < |vs|
      ensures At(p, ElementAt(pos, j, n), LE(n, vs[j]))
    {
      LEsAt(n, vs, j);
      AtInner(p, pos, LEs(n, vs), j * n, LE(n, vs[j]));
    }
    ElementNext(pos, 0, n);
    IntegersRead(n, p, pos, vs, 0);
    assert vs[0..] == vs;
  }

  lemma Tagged(p: seq<byte>, pos: nat, tag: byte, body: seq<byte>)
    requires At(p, pos, [tag] + body)
    ensures pos < |p| && p[pos] == tag && At(p, pos + 1, body)
  {
    AtSplit(p, pos, [tag], body);
    assert p[pos] == p[pos..pos + 1][0];
  }

  lemma Counted(p: seq<byte>, at: nat, count: nat, body: seq<byte>)
    requires At(p, at, LE(4, count) + body) && count < U32_LIMIT
    ensures Get(4, p, at) == Some(count) && At(p, at + 4, body)
  {
    hide LE, Get;
    Pow256Values();
    AtSplit(p, at, LE(4, count), body);
    GetAt(4, p, at, count);
  }

  lemma SignedRoundTrip(i: i64)
    ensures Pow256(8) == U64_LIMIT && FromUnsigned(8, ToUnsigned(8, i)) == i
  {
    Pow256Values();
  }

  /** Every value written in place is read back, with the position just after it. */
  lemma ValueRoundTrip(utf8: Utf8, p: seq<byte>, pos: nat, v: CellValue)
    requires At(p, pos, EncodedValue(v)) && Decodable(utf8, v)
    ensures DecodeValue(utf8, p, pos) == Some((v, pos + |EncodedValue(v)|))
  {
    hide LE, LEs, Get, At, Integers, ToUnsigned, FromUnsigned;
    Pow256Values();
    match v
    case NullValue =>
      assert [0 as byte] + [] == [0];
      Tagged(p, pos, 0, []);
    case BoolValue(b) =>
      BoolRead(p, pos, if b then 1 else 0);
    case I64Value(i) =>
      SignedRoundTrip(i);
      Tagged(p, pos, 2, LE(8, ToUnsigned(8, i)));
      GetAt(8, p, pos + 1, ToUnsigned(8, i));
    case F64Value(bits) =>
      Tagged(p, pos, 3, LE(8, bits));
      GetAt(8, p, pos + 1, bits);
    case Utf8Value(text) =>
      Tagged(p, pos, 4, LE(4, |text|) + text);
      Counted(p, pos + 1, |text|, text);
      TextRead(p, pos + 5, text);
    case VectorValue(w) =>
      Tagged(p, pos, 5, LE(4, |w|) + LEs(4, w));
      Counted(p, pos + 1, |w|, LEs(4, w));
      ListRead(4, p, pos + 5, w);
    case EdgesValue(t) =>
      Tagged(p, pos, 6, LE(4, |t|) + LEs(8, t));
      Counted(p, pos + 1, |t|, LEs(8, t));
      ListRead(8, p, pos + 5, t);
  }

  lemma BoolRead(p: seq<byte>, pos: nat, b: byte)
    requires At(p, pos, [1, b])
    ensures pos + 1 < |p| && p[pos] == 1 && p[pos + 1] == b
  {
    assert p[pos] == p[pos..pos + 2][0] && p[pos + 1] == p[pos..pos + 2][1];
  }

  lemma TextRead(p: seq<byte>, pos: nat, text: seq<byte>)
    requires At(p, pos, text)
    ensures pos + |text| <= |p| && p[pos..pos + |text|] == text
  {
  }

  // ---- rows ----

  /** The row's keys in ascending order, as a `BTreeMap` gives them. */
  predicate Listing(keys: seq<u32>, row: Row) {
    && |keys| == |row| && (forall k <- row :: k in keys) && (forall i :: 0 <= i < |keys| ==> keys[i] in row)
    && forall i, j :: 0 <= i < j < |keys| ==> keys[i] < keys[j]
  }

  function ColumnBytes(cid: u32, v: CellValue): seq<byte> {
    LE(4, cid) + EncodedValue(v)
  }

  function Parts(row: Row, keys: seq<u32>): (parts: seq<seq<byte>>)
    requires forall i :: 0 <= i < |keys| ==> keys[i] in row
    ensures |parts| == |keys|
  {
    seq(|keys|, i requires 0 <= i < |keys| => ColumnBytes(keys[i], row[keys[i]]))
  }

  function EncodedPut(rowId: u64, row: Row, keys: seq<u32>): seq<byte>
    requires Listing(keys, row)
  {
    LE(8, rowId) + (LE(4, |row|) + Flat(Parts(row, keys)))
  }

  function EncodedDelete(rowId: u64): seq<byte> {
    LE(8, rowId)
  }

  /** The loop over `k` more columns. */
  function DecodeColumns(utf8: Utf8, p: seq<byte>, pos: nat, k: nat, row: Row): Option<Row>
    decreases k
  {
    if k == 0 then Some(row)
    else
      Pow256Values();
      var cid :- Get(4, p, pos);
      var (v, next) :- DecodeValue(utf8, p, pos + 4);
      DecodeColumns(utf8, p, next, k - 1, row[cid := v])
  }

  function DecodePut(utf8: Utf8, p: seq<byte>): Option<(u64, Row)> {
    Pow256Values();
    var rowId :- Get(8, p, 0);
    var n :- Get(4, p, 8);
    var row :- DecodeColumns(utf8, p, 12, n, map[]);
    Some((rowId, row))
  }

  /** A data record's operation; `None` for other records and malformed payloads. */
  function DecodedOp(utf8: Utf8, rtype: RecordType, p: seq<byte>): Option<(u64, Op)> {
    Pow256Values();
    match rtype
    case InsertRow => var (rowId, row) :- DecodePut(utf8, p); Some((rowId, Put(row)))
    case UpdateRow => var (rowId, row) :- DecodePut(utf8, p); Some((rowId, Put(row)))
    case DeleteRow => var rowId :- Get(8, p, 0); Some((rowId, Delete))
    case _ => None
  }

  /** A row whose texts are UTF-8, with fewer than 2^32 columns. */
  predicate RowDecodable(utf8: Utf8, row: Row) {
    |row| < U32_LIMIT && forall k <- row :: Decodable(utf8, row[k])
  }

  function Restrict(row: Row, keys: seq<u32>): Row
    requires forall i :: 0 <= i < |keys| ==> keys[i] in row
  {
    map i | 0 <= i < |keys| :: keys[i] := row[keys[i]]
  }

  lemma {:induction false} ColumnsRoundTrip(utf8: Utf8, p: seq<byte>, pos: nat, row: Row, keys: seq<u32>, k: nat)
    requires k <= |keys| && forall i :: 0 <= i < |keys| ==> keys[i] in row
    requires forall i, j :: 0 <= i < j < |keys| ==> keys[i] < keys[j]
    requires At(p, pos, Flat(Parts(row, keys))) && RowDecodable(utf8, row)
    ensures DecodeColumns(utf8, p, pos + |Flat(Parts(row, keys)[..k])|, |keys| - k, Restrict(row, keys[..k])) == Some(Restrict(row, keys))
    decreases |keys| - k
  {
    hide LE, Flat, EncodedValue, At, Get, DecodeValue, Restrict;
    var parts := Parts(row, keys);
    if k < |keys| {
      var at := pos + |Flat(parts[..k])|;
      FlatAt(parts, k);
      AtInner(p, pos, Flat(parts), |Flat(parts[..k])|, parts[k]);
      AtSplit(p, at, LE(4, keys[k]), EncodedValue(row[keys[k]]));
      Pow256Values();
      GetAt(4, p, at, keys[k]);
      ValueRoundTrip(utf8, p, at + 4, row[keys[k]]);
      FlatSnoc(parts, k);
      RestrictMore(row, keys, k);
      ColumnsRoundTrip(utf8, p, pos, row, keys, k + 1);
    } else {
      assert keys[..k] == keys;
    }
  }

  lemma RestrictMore(row: Row, keys: seq<u32>, k: nat)
    requires k < |keys| && forall i :: 0 <= i < |keys| ==> keys[i] in row
    ensures Restrict(row, keys[..k + 1]) == Restrict(row, keys[..k])[keys[k] := row[keys[k]]]
  {
    assert keys[..k + 1] == keys[..k] + [keys[k]];
  }

  lemma RestrictAll(row: Row, keys: seq<u32>)
    requires (forall i :: 0 <= i < |keys| ==> keys[i] in row) && forall k <- row :: k in keys
    ensures Restrict(row, keys) == row
  {
  }

  /** Decoding what was encoded gives back the row id and the operation. */
  lemma PutRoundTrip(utf8: Utf8, rowId: u64, row: Row, keys: seq<u32>)
    requires RowDecodable(utf8, row) && Listing(keys, row)
    ensures DecodedOp(utf8, InsertRow, EncodedPut(rowId, row, keys)) == Some((rowId, Put(row)))
  {
    hide LE, Flat, Get, At, DecodeColumns, Parts, Restrict, RowDecodable;
    var p, columns := EncodedPut(rowId, row, keys), Flat(Parts(row, keys));
    Pow256Values();
    AtWhole(p);
    AtSplit(p, 0, LE(8, rowId), LE(4, |row|) + columns);
    GetAt(8, p, 0, rowId);
    Few(utf8, row);
    Counted(p, 8, |row|, columns);
    FlatNone(Parts(row, keys));
    RestrictNone(row, keys);
    ColumnsRoundTrip(utf8, p, 12, row, keys, 0);
    RestrictAll(row, keys);
  }

  lemma Few(utf8: Utf8, row: Row)
    requires RowDecodable(utf8, row)
    ensures |row| < U32_LIMIT
  {
  }

  lemma RestrictNone(row: Row, keys: seq<u32>)
    requires forall i :: 0 <= i < |keys| ==> keys[i] in row
    ensures Restrict(row, keys[..0]) == map[]
  {
  }

  lemma DeleteRoundTrip(utf8: Utf8, rowId: u64)
    ensures DecodedOp(utf8, DeleteRow, EncodedDelete(rowId)) == Some((rowId, Delete))
  {
    hide LE, At, Get;
    Pow256Values();
    AtWhole(LE(8, rowId));
    GetAt(8, LE(8, rowId), 0, rowId);
  }

  // ---- the encoder and the decoder, step by step ----

  /** `keys` are the least of `all`, ascending, and `rest` the others. */
  ghost predicate Sifted(keys: seq<u32>, rest: set<u32>, all: set<u32>) {
    && rest <= all && |keys| + |rest| == |all|
    && (forall k :: k in all <==> k in rest || k in keys)
    && (forall i, j :: 0 <= i < j < |keys| ==> keys[i] < keys[j])
    && (forall k <- keys, y <- rest :: k < y)
  }

  lemma SiftOne(keys: seq<u32>, rest: set<u32>, all: set<u32>, x: u32)
    requires Sifted(keys, rest, all) && x in rest && forall y <- rest :: x <= y
    ensures Sifted(keys + [x], rest - {x}, all)
  {
    assert forall i :: 0 <= i < |keys| ==> keys[i] in keys;
  }

  lemma AllSifted(keys: seq<u32>, row: Row)
    requires Sifted(keys, {}, row.Keys)
    ensures Listing(keys, row)
  {
    assert forall i :: 0 <= i < |keys| ==> keys[i] in keys;
  }

  method Least(s: set<u32>) returns (x: u32)
    requires s != {}
    ensures x in s && forall y <- s :: x <= y
  {
    ghost var least := LeastExists(s);
    x :| x in s && forall y <- s :: x <= y;
  }

  /** Ascending keys, one minimum after another. */
  method KeysInOrder(row: Row) returns (keys: seq<u32>)
    ensures Listing(keys, row)
  {
    hide Sifted, Listing;
    keys := [];
    var rest := row.Keys;
    assert Sifted(keys, rest, row.Keys) by { NoneSifted(row.Keys); }
    while rest != {}
      invariant Sifted(keys, rest, row.Keys)
      decreases rest
    {
      var x := Least(rest);
      SiftOne(keys, rest, row.Keys, x);
      keys := keys + [x];
      rest := rest - {x};
    }
    AllSifted(keys, row);
  }

  lemma NoneSifted(all: set<u32>)
    ensures Sifted([], all, all)
  {
  }

  method EncodePut(rowId: u64, row: Row) returns (b: seq<byte>)
    ensures exists keys :: Listing(keys, row) && b == EncodedPut(rowId, row, keys)
  {
    hide LE, Flat, EncodedValue;
    var keys := KeysInOrder(row);
    b := LE(8, rowId);
    b := b + LE(4, |row|);
    ghost var head, parts := b, Parts(row, keys);
    FlatNone(parts);
    for k := 0 to |keys|
      invariant b == head + Flat(parts[..k])
    {
      FlatSnoc(parts, k);
      b := b + LE(4, keys[k]);
      b := b + EncodedValue(row[keys[k]]);
      assert b == head + (Flat(parts[..k]) + parts[k]);
    }
    assert parts[..|keys|] == parts;
  }

  method DecodeOp(utf8: Utf8, rtype: RecordType, p: seq<byte>) returns (r: Option<(u64, Op)>)
    ensures r == DecodedOp(utf8, rtype, p)
  {
    hide Get, DecodeValue;
    Pow256Values();
    if rtype.DeleteRow? {
      var rowId := Get(8, p, 0);
      return if rowId.None? then None else Some((rowId.value, Delete));
    }
    if !rtype.InsertRow? && !rtype.UpdateRow? {
      return None;
    }
    var rowId, n := Get(8, p, 0), Get(4, p, 8);
    if rowId.None? || n.None? {
      return None;
    }
    var pos: nat, row: Row := 12, map[];
    for k := 0 to n.value
      invariant DecodeColumns(utf8, p, 12, n.value, map[]) == DecodeColumns(utf8, p, pos, n.value - k, row)
    {
      var cid := Get(4, p, pos);
      var decoded := DecodeValue(utf8, p, pos + 4);
      if cid.None? || decoded.None? {
        return None;
      }
      row := row[cid.value := decoded.value.0];
      pos := decoded.value.1;
    }
    r := Some((rowId.value, Put(row)));
  }
}
