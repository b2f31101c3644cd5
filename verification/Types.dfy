/**
 Logical column types and in-memory column values. The source's enum of typed vectors is a
 type tag over cells here; `WellTyped` is what that enum guarantees. `f32` and `f64` values
 are carried as their bits, strings as their bytes.
 */
module Types {
  import opened Wrappers
  import opened Bytes
  import opened Cursors

  datatype LogicalType = Bool | I32 | I64 | F32 | F64 | Utf8 | Vector | TimestampNanos {
    function Tag(): u16 {
      match this
      case Bool => 0
      case I32 => 3
      case I64 => 4
      case F32 => 10
      case F64 => 11
      case Utf8 => 20
      case Vector => 30
      case TimestampNanos => 50
    }

    static function FromTag(v: u16): Result<LogicalType, FormatError> {
      match v
      case 0 => Ok(Bool)
      case 3 => Ok(I32)
      case 4 => Ok(I64)
      case 10 => Ok(F32)
      case 11 => Ok(F64)
      case 20 => Ok(Utf8)
      case 30 => Ok(Vector)
      case 50 => Ok(TimestampNanos)
      case _ => Err(Decode)
    }

    /** Serialized width of a cell; `dim` four-byte components for a vector. */
    function Width(dim: u16): nat {
      match this
      case Bool => 1
      case I32 | F32 => 4
      case I64 | F64 | TimestampNanos => 8
      case Utf8 => 0
      case Vector => dim * 4
    }
  }

  datatype Cell =
    | BoolCell(b: bool)
    | I32Cell(i: i32)
    | I64Cell(l: i64)
    | F32Cell(f: u32)
    | F64Cell(d: u64)
    | Utf8Cell(s: seq<byte>)
    | VectorCell(v: seq<u32>)
    | TimestampCell(t: i64)
  {
    function Type(): LogicalType {
      match this
      case BoolCell(_) => Bool
      case I32Cell(_) => I32
      case I64Cell(_) => I64
      case F32Cell(_) => F32
      case F64Cell(_) => F64
      case Utf8Cell(_) => LogicalType.Utf8
      case VectorCell(_) => Vector
      case TimestampCell(_) => TimestampNanos
    }
  }

  type Cells = seq<Option<Cell>>

  datatype ColumnValues = ColumnValues(lt: LogicalType, dim: u16, cells: Cells) {
    predicate WellTyped() {
      && (lt != Vector ==> dim == 0)
      && forall c <- cells :: c.Some? ==> c.value.Type() == lt
    }

    function Slice(s: nat, e: nat): ColumnValues
      requires s <= e <= |cells|
    {
      ColumnValues(lt, dim, cells[s..e])
    }

    predicate HasNulls() {
      None in cells
    }
  }

  function NullCount(cells: Cells): (n: nat)
    ensures n <= |cells|
    ensures n > 0 <==> None in cells
  {
    if cells == [] then 0
    else
      assert cells == cells[..|cells| - 1] + [cells[|cells| - 1]];
      NullCount(cells[..|cells| - 1]) + if cells[|cells| - 1].None? then 1 else 0
  }

  ghost function Nulls(cells: Cells): set<nat> {
    set i: nat | i < |cells| && cells[i].None?
  }

  /** It is the number of null cells. */
  lemma {:induction false} CountsNulls(cells: Cells)
    ensures NullCount(cells) == |Nulls(cells)|
  {
    if cells != [] {
      var init, last := cells[..|cells| - 1], cells[|cells| - 1];
      CountsNulls(init);
      assert Nulls(cells) == Nulls(init) + if last.None? then {|init|} else {};
    } else {
      assert Nulls(cells) == {};
    }
  }

  /** Concatenate per-page segments that must all be of type `lt`. */
  function Concat(parts: seq<ColumnValues>, lt: LogicalType): Result<ColumnValues, FormatError> {
    if parts == [] then Ok(ColumnValues(lt, 0, []))
    else
      var init :- Concat(parts[..|parts| - 1], lt);
      var last := parts[|parts| - 1];
      if last.lt != lt then Err(Decode)
      else Ok(ColumnValues(lt, if lt == Vector then last.dim else 0, init.cells + last.cells))
  }

  /** `ColumnValues::concat`: the loop stops at the first segment of another type. */
  method ConcatParts(parts: seq<ColumnValues>, lt: LogicalType) returns (r: Result<ColumnValues, FormatError>)
    ensures r == Concat(parts, lt)
  {
    var dim: u16 := 0;
    var out: Cells := [];
    for i := 0 to |parts|
      invariant Concat(parts[..i], lt) == Ok(ColumnValues(lt, dim, out))
    {
      assert parts[..i + 1][..i] == parts[..i];
      if parts[i].lt != lt {
        ConcatStops(parts, lt, i + 1);
        return Err(Decode);
      }
      dim := if lt == Vector then parts[i].dim else 0;
      out := out + parts[i].cells;
    }
    assert parts[..|parts|] == parts;
    r := Ok(ColumnValues(lt, dim, out));
  }

  lemma {:induction false} ConcatChecksTypes(parts: seq<ColumnValues>, lt: LogicalType)
    ensures Concat(parts, lt).Ok? <==> forall p <- parts :: p.lt == lt
  {
    if parts != [] {
      assert parts == parts[..|parts| - 1] + [parts[|parts| - 1]];
      ConcatChecksTypes(parts[..|parts| - 1], lt);
    }
  }

  lemma {:induction false} ConcatStops(parts: seq<ColumnValues>, lt: LogicalType, k: nat)
    requires k <= |parts| && Concat(parts[..k], lt) == Err(Decode)
    ensures Concat(parts, lt) == Err(Decode)
    decreases |parts| - k
  {
    if k == |parts| {
      assert parts[..k] == parts;
    } else {
      assert parts[..k + 1][..k] == parts[..k];
      ConcatStops(parts, lt, k + 1);
    }
  }
}
