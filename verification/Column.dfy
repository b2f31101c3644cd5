/**
 Column chunks: a 50-byte header, pages each under its own CRC, and a page index. The page
 payload is an optional validity bitmap followed by fixed-width cells, or by string offsets
 and string bytes.
 */
module Columns {
  import opened Wrappers
  import opened Bytes
  import opened Numbers
  import opened Bits
  import opened Bitmaps
  import opened Checksum
  import opened Cursors
  import opened Types
  import F = Footers

  const CHUNK_HEADER_LEN: nat := 50
  const PAGE_HEADER_LEN: nat := 16
  const PAGE_INDEX_ENTRY_LEN: nat := 24

  datatype Column = Column(columnId: u32, isSystem: bool, values: ColumnValues)

  // ---- validity bitmaps ----

  /** The bitmap with the first `k` cells packed: `bm[j / 8] |= 1 << (j % 8)`. */
  function Packed(cells: Cells, k: nat): (bm: seq<byte>)
    requires k <= |cells|
    ensures |bm| == DivCeil(|cells|, 8)
  {
    if k == 0 then seq(DivCeil(|cells|, 8), _ => 0)
    else
      var bm := Packed(cells, k - 1);
      var j := k - 1;
      if cells[j].Some? then bm[j / 8 := WithBit(bm[j / 8], j % 8)] else bm
  }

  /** The bitmap says exactly which cells are present. */
  lemma {:induction false} PackedBits(cells: Cells, k: nat, j: nat)
    requires k <= |cells| && j < |cells|
    ensures ValidAt(Packed(cells, k), j) <==> j < k && cells[j].Some?
  {
    if k == 0 {
      ZeroBit(j % 8);
    } else {
      PackedBits(cells, k - 1, j);
      if cells[k - 1].Some? {
        OrSetsBit(Packed(cells, k - 1)[(k - 1) / 8] as nat, (k - 1) % 8, j % 8);
      }
    }
  }

  method PackValidity(cells: Cells) returns (bm: array<byte>)
    ensures fresh(bm) && bm[..] == Packed(cells, |cells|)
  {
    var n := |cells|;
    bm := new byte[DivCeil(n, 8)](_ => 0);
    for j := 0 to n
      invariant bm[..] == Packed(cells, j)
    {
      if cells[j].Some? {
        bm[j / 8] := WithBit(bm[j / 8], j % 8);
      }
    }
  }

  // ---- fixed-width cells ----

  function Zeros(n: nat): seq<byte> {
    seq(n, _ => 0)
  }

  /** A present cell's bytes. */
  function CellBytes(c: Cell): seq<byte>
    requires !c.Utf8Cell?
  {
    Pow256Values();
    match c
    case BoolCell(b) => [if b then 1 else 0]
    case I32Cell(i) => LE(4, ToUnsigned(4, i))
    case I64Cell(l) => LE(8, ToUnsigned(8, l))
    case F32Cell(f) => LE(4, f)
    case F64Cell(d) => LE(8, d)
    case VectorCell(v) => LEs(4, v)
    case TimestampCell(t) => LE(8, ToUnsigned(8, t))
  }

  /** A cell in its slot; an absent one leaves zeros. */
  function SlotBytes(w: nat, c: Option<Cell>): seq<byte>
    requires c.Some? ==> !c.value.Utf8Cell?
  {
    if c.Some? then CellBytes(c.value) else Zeros(w)
  }

  function CellFrom(lt: LogicalType, dim: u16, chunk: seq<byte>): Cell
    requires lt != LogicalType.Utf8 && |chunk| == lt.Width(dim)
  {
    Pow256Values();
    match lt
    case Bool => BoolCell(chunk[0] != 0)
    case I32 => I32Cell(FromUnsigned(4, FromLE(chunk)))
    case I64 => I64Cell(FromUnsigned(8, FromLE(chunk)))
    case F32 => F32Cell(FromLE(chunk))
    case F64 => F64Cell(FromLE(chunk))
    case Vector => VectorCell(seq(dim, k requires 0 <= k < dim => FromLE(chunk[k * 4..k * 4 + 4])))
    case TimestampNanos => TimestampCell(FromUnsigned(8, FromLE(chunk)))
  }

  /** A vector's length is the column's dimension. */
  predicate DimOk(dim: u16, c: Cell) {
    c.VectorCell? ==> |c.v| == dim
  }

  lemma CellRoundTrip(dim: u16, c: Cell)
    requires !c.Utf8Cell? && DimOk(dim, c)
    ensures |CellBytes(c)| == c.Type().Width(dim)
    ensures CellFrom(c.Type(), dim, CellBytes(c)) == c
  {
    Pow256Values();
    match c
    case BoolCell(_) =>
    case I32Cell(i) => FromLEofLE(4, ToUnsigned(4, i));
    case I64Cell(l) => FromLEofLE(8, ToUnsigned(8, l));
    case F32Cell(f) => FromLEofLE(4, f);
    case F64Cell(d) => FromLEofLE(8, d);
    case TimestampCell(t) => FromLEofLE(8, ToUnsigned(8, t));
    case VectorCell(v) => VectorRoundTrip(v);
  }

  lemma VectorRoundTrip(v: seq<u32>)
    ensures |LEs(4, v)| == |v| * 4
    ensures forall k | 0 <= k < |v| :: FromLE(LEs(4, v)[k * 4..k * 4 + 4]) == v[k]
  {
    LEsLength(4, v);
    Pow256Values();
    forall k | 0 <= k < |v|
      ensures FromLE(LEs(4, v)[k * 4..k * 4 + 4]) == v[k]
    {
      LEsAt(4, v, k);
      FromLEofLE(4, v[k]);
    }
  }

  /** Cells of one fixed-width type, vectors of one dimension. */
  predicate Fixed(lt: LogicalType, dim: u16, cells: Cells) {
    lt != LogicalType.Utf8 && forall c <- cells :: c.Some? ==> c.value.Type() == lt && DimOk(dim, c.value)
  }

  function SlotParts(w: nat, cells: Cells): (parts: seq<seq<byte>>)
    requires forall c <- cells :: c.Some? ==> !c.value.Utf8Cell?
    ensures |parts| == |cells|
  {
    seq(|cells|, i requires 0 <= i < |cells| => SlotBytes(w, cells[i]))
  }

  lemma SlotWidth(lt: LogicalType, dim: u16, c: Option<Cell>)
    requires lt != LogicalType.Utf8 && (c.Some? ==> c.value.Type() == lt && DimOk(dim, c.value))
    ensures |SlotBytes(lt.Width(dim), c)| == lt.Width(dim)
    ensures c.Some? ==> CellFrom(lt, dim, SlotBytes(lt.Width(dim), c)) == c.value
  {
    if c.Some? {
      CellRoundTrip(dim, c.value);
    }
  }

  lemma SlotsLength(lt: LogicalType, dim: u16, w: nat, cells: Cells)
    requires Fixed(lt, dim, cells) && w == lt.Width(dim)
    ensures |Flat(SlotParts(w, cells))| == |cells| * w
  {
    hide LogicalType.Width, SlotBytes;
    forall i | 0 <= i < |cells|
      ensures |SlotParts(w, cells)[i]| == w
    {
      assert cells[i] in cells;
      SlotWidth(lt, dim, cells[i]);
    }
    FlatLength(SlotParts(w, cells), w);
  }

  /** Slot `j` starts at byte `j * w` and decodes to cell `j`. */
  lemma SlotsRoundTrip(lt: LogicalType, dim: u16, w: nat, cells: Cells, j: nat)
    requires Fixed(lt, dim, cells) && j < |cells| && w == lt.Width(dim)
    ensures |Flat(SlotParts(w, cells))| == |cells| * w
    ensures At(Flat(SlotParts(w, cells)), j * w, SlotBytes(w, cells[j])) && |SlotBytes(w, cells[j])| == w
    ensures cells[j].Some? ==> CellFrom(lt, dim, SlotBytes(w, cells[j])) == cells[j].value
  {
    hide LogicalType.Width, SlotBytes, CellFrom, At;
    forall i | 0 <= i < |cells|
      ensures |SlotParts(w, cells)[i]| == w
    {
      assert cells[i] in cells;
      SlotWidth(lt, dim, cells[i]);
    }
    SlotWidth(lt, dim, cells[j]);
    EvenAt(SlotParts(w, cells), w, j);
  }

  // ---- string pages ----

  predicate Strings(cells: Cells) {
    forall c <- cells :: c.Some? ==> c.value.Utf8Cell?
  }

  function StringParts(cells: Cells): (parts: seq<seq<byte>>)
    requires Strings(cells)
    ensures |parts| == |cells|
  {
    seq(|cells|, i requires 0 <= i < |cells| => if cells[i].Some? then cells[i].value.s else [])
  }

  /** Where string `k` starts in the page's string data. */
  function StringOffset(cells: Cells, k: nat): nat
    requires Strings(cells) && k <= |cells|
  {
    |Flat(StringParts(cells)[..k])|
  }

  function StringOffsets(cells: Cells): (offsets: seq<nat>)
    requires Strings(cells)
    ensures |offsets| == |cells| + 1
  {
    seq(|cells| + 1, k requires 0 <= k <= |cells| => StringOffset(cells, k))
  }

  function EncodedStrings(cells: Cells): seq<byte>
    requires Strings(cells)
  {
    LEs(4, StringOffsets(cells)) + Flat(StringParts(cells))
  }

  // ---- page payloads ----

  /** A page's payload: the bitmap if the column has nulls, then the cells. */
  function EncodedPayload(v: ColumnValues, nullable: bool): seq<byte>
    requires v.WellTyped()
  {
    (if nullable then Packed(v.cells, |v.cells|) else []) + EncodedCells(v)
  }

  function EncodedCells(v: ColumnValues): seq<byte>
    requires v.WellTyped()
  {
    if v.lt == LogicalType.Utf8 then EncodedStrings(v.cells)
    else Flat(SlotParts(v.lt.Width(v.dim), v.cells))
  }

  /** Bounds-checked slice. */
  function SliceOf(buf: seq<byte>, off: nat, len: nat): (r: Result<seq<byte>, FormatError>)
    ensures r.Ok? <==> off + len <= |buf|
    ensures r.Ok? ==> |r.value| == len && At(buf, off, r.value)
  {
    if off + len <= |buf| then Ok(buf[off..off + len]) else Err(Truncated)
  }

  lemma SliceAt(buf: seq<byte>, off: nat, bs: seq<byte>)
    requires At(buf, off, bs)
    ensures SliceOf(buf, off, |bs|) == Ok(bs)
  {
  }

  function BitmapLen(m: nat, nullable: bool): nat {
    if nullable then DivCeil(m, 8) else 0
  }

  function ParseValidity(buf: seq<byte>, m: nat, nullable: bool): (r: Result<seq<bool>, FormatError>)
    ensures r.Ok? ==> |r.value| == m
  {
    if nullable then
      var bm :- SliceOf(buf, 0, DivCeil(m, 8));
      Ok(seq(m, j requires 0 <= j < m => ValidAt(bm, j)))
    else Ok(seq(m, _ => true))
  }

  /** String `j`, if present and in bounds and UTF-8. */
  function ParseString(utf8: Utf8, valid: bool, a: nat, b: nat, data: seq<byte>): Result<Option<Cell>, FormatError> {
    if !valid then Ok(None)
    else if !(a <= b <= |data|) then Err(Truncated)
    else if !utf8(data[a..b]) then Err(Decode)
    else Ok(Some(Utf8Cell(data[a..b])))
  }

  function ParseStrings(utf8: Utf8, valid: seq<bool>, offsets: seq<nat>, data: seq<byte>, j: nat): Result<Cells, FormatError>
    requires |offsets| == |valid| + 1 && j <= |valid|
    decreases |valid| - j
  {
    if j == |valid| then Ok([])
    else
      var cell :- ParseString(utf8, valid[j], offsets[j], offsets[j + 1], data);
      var rest :- ParseStrings(utf8, valid, offsets, data, j + 1);
      Ok([cell] + rest)
  }

  function Offsets(bytes: seq<byte>, n: nat): (offsets: seq<nat>)
    requires |bytes| == 4 * n
    ensures |offsets| == n
  {
    seq(n, i requires 0 <= i < n => FromLE(bytes[i * 4..i * 4 + 4]))
  }

  lemma SlotInBounds(m: nat, w: nat, j: nat)
    requires j < m
    ensures 0 <= j * w && j * w + w <= m * w
  {
    assert m * w == j * w + w + (m - 1 - j) * w;
  }

  /** Slot `j`, if present. */
  function ParseSlot(lt: LogicalType, dim: u16, valid: seq<bool>, vals: seq<byte>, j: nat): Option<Cell>
    requires lt != LogicalType.Utf8 && j < |valid| && |vals| == |valid| * lt.Width(dim)
  {
    var w := lt.Width(dim);
    SlotInBounds(|valid|, w, j);
    if valid[j] then Some(CellFrom(lt, dim, vals[j * w..j * w + w])) else None
  }

  function ParseCells(utf8: Utf8, buf: seq<byte>, pos: nat, valid: seq<bool>, lt: LogicalType, dim: u16):
    (r: Result<Cells, FormatError>)
  {
    var m := |valid|;
    if lt == LogicalType.Utf8 then
      var offBytes :- SliceOf(buf, pos, 4 * (m + 1));
      ParseStrings(utf8, valid, Offsets(offBytes, m + 1), buf[pos + 4 * (m + 1)..], 0)
    else
      var vals :- SliceOf(buf, pos, m * lt.Width(dim));
      Ok(seq(m, j requires 0 <= j < m => ParseSlot(lt, dim, valid, vals, j)))
  }

  /** The `m` cells of a page, from its payload. */
  function ParsePayload(utf8: Utf8, buf: seq<byte>, m: nat, nullable: bool, lt: LogicalType, dim: u16):
    Result<ColumnValues, FormatError>
  {
    var valid :- ParseValidity(buf, m, nullable);
    var cells :- ParseCells(utf8, buf, BitmapLen(m, nullable), valid, lt, dim);
    Ok(ColumnValues(lt, if lt == Vector then dim else 0, cells))
  }

  /** Vectors have the column's dimension, strings are UTF-8. */
  predicate Sound(utf8: Utf8, v: ColumnValues) {
    v.WellTyped() && forall c <- v.cells :: c.Some? ==> DimOk(v.dim, c.value) && (c.value.Utf8Cell? ==> utf8(c.value.s))
  }

  lemma ValidityRoundTrip(v: ColumnValues, nullable: bool, cells: seq<byte>)
    requires None in v.cells ==> nullable
    ensures var buf := (if nullable then Packed(v.cells, |v.cells|) else []) + cells;
            var r := ParseValidity(buf, |v.cells|, nullable);
            r.Ok? && forall j :: 0 <= j < |v.cells| ==> r.value[j] == v.cells[j].Some?
  {
    if nullable {
      var bm := Packed(v.cells, |v.cells|);
      assert (bm + cells)[0..|bm|] == bm;
      forall j | 0 <= j < |v.cells|
        ensures ValidAt(bm, j) <==> v.cells[j].Some?
      {
        PackedBits(v.cells, |v.cells|, j);
      }
    } else {
      forall j | 0 <= j < |v.cells|
        ensures v.cells[j].Some?
      {
        assert v.cells[j] in v.cells;
      }
    }
  }

  lemma OffsetsRoundTrip(vs: seq<nat>)
    requires forall i :: 0 <= i < |vs| ==> vs[i] < U32_LIMIT
    ensures |LEs(4, vs)| == 4 * |vs| && Offsets(LEs(4, vs), |vs|) == vs
  {
    LEsLength(4, vs);
    Pow256Values();
    forall i | 0 <= i < |vs|
      ensures FromLE(LEs(4, vs)[i * 4..i * 4 + 4]) == vs[i]
    {
      LEsAt(4, vs, i);
      FromLEofLE(4, vs[i]);
    }
  }

  lemma {:induction false} FlatMonotone(parts: seq<seq<byte>>, a: nat, b: nat)
    requires a <= b <= |parts|
    ensures |Flat(parts[..a])| <= |Flat(parts[..b])|
    decreases b - a
  {
    if a < b {
      FlatSnoc(parts, b - 1);
      FlatMonotone(parts, a, b - 1);
    }
  }

  /** Each string is read back from between its two offsets. */
  lemma {:induction false} StringsRoundTrip(utf8: Utf8, cells: Cells, valid: seq<bool>, j: nat)
    requires Strings(cells) && j <= |cells| && |valid| == |cells|
    requires forall i :: 0 <= i < |cells| ==> valid[i] == cells[i].Some?
    requires forall c <- cells :: c.Some? ==> utf8(c.value.s)
    ensures ParseStrings(utf8, valid, StringOffsets(cells), Flat(StringParts(cells)), j) == Ok(cells[j..])
    decreases |cells| - j
  {
    hide Flat;
    if j < |cells| {
      StringsRoundTrip(utf8, cells, valid, j + 1);
      FlatAt(StringParts(cells), j);
      FlatSnoc(StringParts(cells), j);
      assert cells[j] in cells;
      assert [cells[j]] + cells[j + 1..] == cells[j..];
    }
  }

  lemma CellsRoundTrip(utf8: Utf8, v: ColumnValues, head: seq<byte>, valid: seq<bool>)
    requires Sound(utf8, v) && |valid| == |v.cells|
    requires forall i :: 0 <= i < |v.cells| ==> valid[i] == v.cells[i].Some?
    requires v.lt == LogicalType.Utf8 ==> |EncodedCells(v)| < U32_LIMIT
    ensures ParseCells(utf8, head + EncodedCells(v), |head|, valid, v.lt, v.dim) == Ok(v.cells)
  {
    if v.lt == LogicalType.Utf8 {
      StringCellsRoundTrip(utf8, v.cells, head, valid);
    } else {
      SlotCellsRoundTrip(utf8, v, head, valid, v.lt.Width(v.dim));
    }
  }

  lemma OffsetsFit(cells: Cells)
    requires Strings(cells) && |Flat(StringParts(cells))| < U32_LIMIT
    ensures forall k :: 0 <= k <= |cells| ==> StringOffsets(cells)[k] < U32_LIMIT
  {
    var parts := StringParts(cells);
    assert parts[..|cells|] == parts;
    forall k | 0 <= k <= |cells|
      ensures StringOffsets(cells)[k] < U32_LIMIT
    {
      FlatMonotone(parts, k, |cells|);
    }
  }

  lemma StringCellsRoundTrip(utf8: Utf8, cells: Cells, head: seq<byte>, valid: seq<bool>)
    requires Strings(cells) && forall c <- cells :: c.Some? ==> utf8(c.value.s)
    requires |valid| == |cells| && forall i :: 0 <= i < |cells| ==> valid[i] == cells[i].Some?
    requires |EncodedStrings(cells)| < U32_LIMIT
    ensures ParseCells(utf8, head + EncodedStrings(cells), |head|, valid, LogicalType.Utf8, 0) == Ok(cells)
  {
    hide LEs, Flat, Offsets, ParseStrings, StringOffsets;
    var m, parts, offsets := |cells|, StringParts(cells), StringOffsets(cells);
    assert parts[..m] == parts;
    OffsetsFit(cells);
    OffsetsRoundTrip(offsets);
    var offBytes, data := LEs(4, offsets), Flat(parts);
    var buf := head + EncodedStrings(cells);
    assert buf == head + (offBytes + data);
    assert buf[|head|..|head| + 4 * (m + 1)] == offBytes;
    assert buf[|head| + 4 * (m + 1)..] == data;
    StringsRoundTrip(utf8, cells, valid, 0);
  }

  lemma SlotIsRead(v: ColumnValues, w: nat, valid: seq<bool>, j: nat)
    requires Fixed(v.lt, v.dim, v.cells) && w == v.lt.Width(v.dim)
    requires j < |v.cells| == |valid| && valid[j] == v.cells[j].Some?
    ensures |Flat(SlotParts(w, v.cells))| == |valid| * w
    ensures ParseSlot(v.lt, v.dim, valid, Flat(SlotParts(w, v.cells)), j) == v.cells[j]
  {
    hide Flat, SlotParts, SlotBytes, CellFrom, LogicalType.Width;
    SlotsRoundTrip(v.lt, v.dim, w, v.cells, j);
    SlotInBounds(|valid|, w, j);
  }

  lemma SlotCellsRoundTrip(utf8: Utf8, v: ColumnValues, head: seq<byte>, valid: seq<bool>, w: nat)
    requires v.lt != LogicalType.Utf8 && w == v.lt.Width(v.dim)
    requires Sound(utf8, v) && |valid| == |v.cells|
    requires forall i :: 0 <= i < |v.cells| ==> valid[i] == v.cells[i].Some?
    ensures ParseCells(utf8, head + EncodedCells(v), |head|, valid, v.lt, v.dim) == Ok(v.cells)
  {
    hide Flat, SlotParts, ParseSlot, LogicalType.Width;
    var buf, m, vals := head + EncodedCells(v), |v.cells|, Flat(SlotParts(w, v.cells));
    SlotsLength(v.lt, v.dim, w, v.cells);
    assert buf[|head|..|head| + |vals|] == vals;
    forall j | 0 <= j < m
      ensures ParseSlot(v.lt, v.dim, valid, vals, j) == v.cells[j]
    {
      SlotIsRead(v, w, valid, j);
    }
    assert ParseCells(utf8, buf, |head|, valid, v.lt, v.dim).value == v.cells;
  }

  /** A page reads back as the cells it was made of. */
  lemma PayloadRoundTrip(utf8: Utf8, v: ColumnValues, nullable: bool)
    requires Sound(utf8, v) && (None in v.cells ==> nullable)
    requires |EncodedPayload(v, nullable)| < U32_LIMIT
    ensures ParsePayload(utf8, EncodedPayload(v, nullable), |v.cells|, nullable, v.lt, v.dim) == Ok(v)
  {
    var head := if nullable then Packed(v.cells, |v.cells|) else [];
    ValidityRoundTrip(v, nullable, EncodedCells(v));
    var valid := ParseValidity(head + EncodedCells(v), |v.cells|, nullable).value;
    CellsRoundTrip(utf8, v, head, valid);
  }
}
