/**
 Every record of the formats, once, byte by byte: the tags, marks, widths and field orders that writers and
 readers share, and that no round trip of theirs could tell apart from others.
 */
module ByteLayouts {
  import opened Wrappers
  import opened Bytes
  import opened Cursors
  import opened Preambles
  import opened Footers
  import Types
  import Columns
  import Chunks
  import VssFiles
  import RowCodec
  import H = HnswSections
  import B = Blooms
  import EdgeIndexes
  import EdgePages

  // ---- numbers ----

  /** Low byte first. */
  lemma Two(v: nat, a: byte, b: byte)
    requires v == a as nat + 256 * b as nat
    ensures LE(2, v) == [a, b]
  {
    assert LE(1, b as nat) == [b];
    assert v / 256 == b as nat;
  }

  lemma Four(v: nat, a: byte, b: byte, c: byte, d: byte)
    requires v == a as nat + 256 * b as nat + 65536 * c as nat + 16777216 * d as nat
    ensures LE(4, v) == [a, b, c, d]
  {
    var high := c as nat + 256 * d as nat;
    Two(high, c, d);
    assert v / 256 / 256 == high && v / 256 % 256 == b as nat && v % 256 == a as nat;
    assert LE(3, v / 256) == [b] + LE(2, high);
    assert LE(4, v) == [a] + LE(3, v / 256);
  }

  lemma Eight(v: nat, a: byte, b: byte)
    requires v == a as nat + 256 * b as nat
    ensures LE(8, v) == [a, b, 0, 0, 0, 0, 0, 0]
  {
    Four(0, 0, 0, 0, 0);
    assert v / 256 == b as nat && v / 256 / 256 == 0 && v % 256 == a as nat && v / 256 % 256 == b as nat;
    assert LE(4, v / 256 / 256 / 256 / 256) == [0, 0, 0, 0];
    assert LE(5, v / 256 / 256 / 256) == [0] + LE(4, v / 256 / 256 / 256 / 256);
    assert LE(6, v / 256 / 256) == [0] + LE(5, v / 256 / 256 / 256);
    assert LE(7, v / 256) == [b] + LE(6, v / 256 / 256);
    assert LE(8, v) == [a] + LE(7, v / 256);
  }

  /** A small number. */
  function B2(a: byte): seq<byte> { [a, 0] }
  function B4(a: byte): seq<byte> { [a, 0, 0, 0] }
  function B8(a: byte): seq<byte> { [a, 0, 0, 0, 0, 0, 0, 0] }

  lemma Small(v: byte)
    ensures LE(2, v as nat) == B2(v) && LE(4, v as nat) == B4(v) && LE(8, v as nat) == B8(v)
  {
    Two(v as nat, v, 0);
    Four(v as nat, v, 0, 0, 0);
    Eight(v as nat, v, 0);
  }

  // ---- the file ----

  /** Mark, version 1, little-endian, id, then five 64-bit numbers: 64 bytes. */
  lemma PreambleLayout(id: Uuid, a: byte, b: byte, c: byte, d: byte, e: byte)
    ensures EncodedPreamble(Preamble(id, a as nat, b as nat, c as nat, d as nat, e as nat))
         == [0x56, 0x53, 0x53, 0x31, 1, 0, 1, 0] + id + B8(a) + B8(b) + B8(c) + B8(d) + B8(e)
  {
    hide LE;
    Small(a);
    Small(b);
    Small(c);
    Small(d);
    Small(e);
    Small(1);
    Four(MAGIC, 0x56, 0x53, 0x53, 0x31);
    assert LE(4, MAGIC) + LE(2, FORMAT_VERSION) + LE(2, FLAG_LITTLE_ENDIAN) == [0x56, 0x53, 0x53, 0x31, 1, 0, 1, 0];
  }

  /** Checksum, footer length, mark: 16 bytes. */
  lemma TrailerLayout(len: byte)
    ensures VssFiles.TrailerOf(0x0403_0201, len as nat) == [1, 2, 3, 4] + B8(len) + [0x56, 0x53, 0x53, 0x31]
    ensures VssFiles.TRAILER_LEN == 16 && PREAMBLE_LEN == 64
  {
    hide LE;
    Four(0x0403_0201, 1, 2, 3, 4);
    Small(len);
    Four(MAGIC, 0x56, 0x53, 0x53, 0x31);
  }

  /** The numbers of section kinds and encodings. */
  lemma SectionTags()
    ensures ColumnChunk.Tag() == 0 && Hnsw.Tag() == 1 && Text.Tag() == 2 && Edge.Tag() == 3 && OptimizerStats.Tag() == 4
    ensures TranslationTable.Tag() == 5 && Plain.Tag() == 0 && Delta.Tag() == 1 && Pfor.Tag() == 2
  {
  }

  /** Kind, encoding, column, offset, length, checksum: 26 bytes. */
  lemma SectionLayout(column: byte, offset: byte, len: byte)
    ensures EncodedSection(SectionEntry(Edge, Delta, column as nat, offset as nat, len as nat, 0x0403_0201), [])
         == [3, 1] + B4(column) + B8(offset) + B8(len) + [1, 2, 3, 4]
  {
    hide LE;
    Small(column);
    Small(offset);
    Small(len);
    Four(0x0403_0201, 1, 2, 3, 4);
  }

  /** Null, distinct and total counts, centroid, radius. */
  lemma ZoneCountsLayout(z: ZoneMap, nulls: byte, total: byte)
    requires z.nullCount == nulls as nat && z.distinctEstimate == 0 && z.total == total as nat && z.centroid == [5] && z.maxRadius == 6
    ensures EncodedZoneCounts(z, []) == B8(nulls) + B8(0) + B8(total) + B4(1) + B4(5) + B4(6)
  {
    hide LE;
    Small(nulls);
    Small(total);
    Small(0);
    Small(1);
    Small(5);
    Small(6);
    assert z.centroid[1..] == [] && LE(4, z.maxRadius) + [] == B4(6);
    assert EncodedMany(z.centroid, EncodedBits, B4(6)) == B4(5) + EncodedMany(z.centroid[1..], EncodedBits, B4(6));
  }

  /** Column, page, least and greatest value, then the counts. */
  lemma ZoneMapLayout(column: byte, page: byte, nulls: byte, total: byte)
    ensures EncodedZoneMap(ZoneMap(column as nat, page as nat, [7], [8, 9], nulls as nat, 0, total as nat, [5], 6), [])
         == B4(column) + B4(page) + B4(1) + [7] + B4(2) + [8, 9] + B8(nulls) + B8(0) + B8(total) + B4(1) + B4(5) + B4(6)
  {
    hide LE, EncodedZoneCounts;
    Small(column);
    Small(page);
    Small(1);
    Small(2);
    ZoneCountsLayout(ZoneMap(column as nat, page as nat, [7], [8, 9], nulls as nat, 0, total as nat, [5], 6), nulls, total);
  }

  /** Codec version 1, id, format version, four numbers, schema; directory; zone maps; two empty collections, four counters, writer. */
  lemma FooterLayout(id: Uuid, a: byte, b: byte, c: byte, d: byte)
    ensures EncodedFooter(Footer(id, 1, a as nat, b as nat, c as nat, d as nat, [7], [], [], MvccSummary(1, 2, 3, 4), [8, 9]))
         == [1, 0] + id + [1, 0] + B8(a) + B8(b) + B8(c) + B8(d) + B4(1) + [7] + B4(0) + B4(0)
            + B4(0) + B4(0) + B8(1) + B8(2) + B8(3) + B8(4) + B4(2) + [8, 9]
  {
    hide LE;
    Small(0);
    Small(1);
    Small(2);
    Small(3);
    Small(4);
    Small(a);
    Small(b);
    Small(c);
    Small(d);
  }

  // ---- columns ----

  /** The numbers of logical types and the widths of their cells. */
  lemma TypeTags(dim: u16)
    ensures Types.LogicalType.Bool.Tag() == 0 && Types.LogicalType.I32.Tag() == 3 && Types.LogicalType.I64.Tag() == 4 && Types.LogicalType.F32.Tag() == 10 && Types.LogicalType.F64.Tag() == 11
    ensures Types.LogicalType.Utf8.Tag() == 20 && Types.LogicalType.Vector.Tag() == 30 && Types.LogicalType.TimestampNanos.Tag() == 50
    ensures Types.LogicalType.Bool.Width(dim) == 1 && Types.LogicalType.I32.Width(dim) == Types.LogicalType.F32.Width(dim) == 4
    ensures Types.LogicalType.I64.Width(dim) == Types.LogicalType.F64.Width(dim) == Types.LogicalType.TimestampNanos.Width(dim) == 8 && Types.LogicalType.Vector.Width(dim) == 4 * dim
  {
  }

  /** Column, type, no encoding, no compression, flags, no vector quantizer, dimension; row, null and page counts; index offset, length. */
  lemma ChunkLayout(column: byte)
    ensures Chunks.EncodedChunkHeader(
              Columns.Column(column as nat, true, Types.ColumnValues(Types.LogicalType.I64, 0, [None, Some(Types.I64Cell(5)), None])), 2, 90, 138, [])
         == B4(column) + [4, 0, 0, 0, 9, 0, 0, 0, 0, 0] + B8(3) + B8(2) + B4(2) + B8(90) + B8(138)
  {
    hide LE;
    Small(column);
    Small(0);
    Small(2);
    Small(3);
    Small(4);
    Small(9);
    Small(90);
    Small(138);
    var cells: Types.Cells := [None, Some(Types.I64Cell(5)), None];
    assert cells[..2][..1] == [None] && cells[..1][..0] == [];
    assert cells[0] == None && None in cells;
    assert Types.NullCount(cells) == 2 by {
      assert cells[..2] == [None, Some(Types.I64Cell(5))];
      assert Types.NullCount(cells[..1]) == 1;
      assert Types.NullCount(cells[..2]) == 1;
    }
  }

  /** Type and compression of the page, two spare bytes, its length twice, its checksum: 16 bytes. */
  lemma PageLayout(len: byte)
    ensures Chunks.HeaderOf(len as nat, 0x0403_0201) == [0, 0, 0, 0] + B4(len) + B4(len) + [1, 2, 3, 4]
  {
    hide LE;
    Small(len);
    Small(0);
    Four(0x0403_0201, 1, 2, 3, 4);
  }

  /** Offset, length twice, rows, first row: 24 bytes. */
  lemma IndexLayout(offset: byte, len: byte, rows: byte, first: byte)
    ensures Chunks.IndexEntry(offset as nat, len as nat, rows as nat, first as nat) == B8(offset) + B4(len) + B4(len) + B4(rows) + B4(first)
  {
    hide LE;
    Small(offset);
    Small(len);
    Small(rows);
    Small(first);
  }

  // ---- log records ----

  /** A value is its tag and its data, counts before lists. */
  lemma ValueLayout(a: byte)
    ensures RowCodec.EncodedValue(RowCodec.NullValue) == [0]
    ensures RowCodec.EncodedValue(RowCodec.BoolValue(true)) == [1, 1] && RowCodec.EncodedValue(RowCodec.BoolValue(false)) == [1, 0]
    ensures RowCodec.EncodedValue(RowCodec.I64Value(a as int)) == [2] + B8(a)
    ensures RowCodec.EncodedValue(RowCodec.F64Value(a as nat)) == [3] + B8(a)
    ensures RowCodec.EncodedValue(RowCodec.Utf8Value([a])) == [4] + B4(1) + [a]
    ensures RowCodec.EncodedValue(RowCodec.VectorValue([a as nat])) == [5] + B4(1) + B4(a)
    ensures RowCodec.EncodedValue(RowCodec.EdgesValue([a as nat])) == [6] + B4(1) + B8(a)
  {
    hide LE;
    Pow256Values();
    Small(a);
    Small(1);
    OneInteger(4, a as nat);
    OneInteger(8, a as nat);
  }

  lemma OneInteger(n: nat, v: nat)
    ensures LEs(n, [v]) == LE(n, v)
  {
    hide LE;
    assert [v][..0] == [] && [v][1..] == [];
    assert LEs(n, []) == [];
  }

  /** Row id, column count, and for each column its id and value; for a deletion the row id. */
  lemma PutLayout(row: byte, column: byte)
    ensures Listed(row, column) == B8(row) + B4(1) + B4(column) + [0]
    ensures RowCodec.EncodedDelete(row as nat) == B8(row)
  {
    hide LE;
    Small(row);
    Small(1);
    Small(column);
    var cid: u32 := column as nat;
    var cells: RowCodec.Row := map[cid := RowCodec.NullValue];
    var parts := RowCodec.Parts(cells, [cid]);
    assert RowCodec.ColumnBytes(cid, cells[cid]) == B4(column) + [0];
    assert parts == [B4(column) + [0]];
    assert parts[..0] == [] && parts[1..] == [];
    assert Flat(parts) == B4(column) + [0];
  }

  function Listed(row: byte, column: byte): seq<byte> {
    RowCodec.EncodedPut(row as nat, map[column as nat := RowCodec.NullValue], [column as nat])
  }

  // ---- indexes ----

  lemma Pair(v: nat, w: nat)
    ensures LEs(4, [v, w]) == LE(4, v) + LE(4, w)
  {
    hide LE;
    var parts := seq(2, i requires 0 <= i < 2 => LE(4, [v, w][i]));
    assert parts == [LE(4, v), LE(4, w)];
    assert parts[..1] == [LE(4, v)] && parts[..1][..0] == [];
    assert Flat(parts[..1]) == LE(4, v);
  }

  /** Row offset, level, neighbor count, two spare bytes, the neighbors padded with ones, the code. */
  lemma SlotLayout(offset: byte, level: byte, neighbor: byte, code: byte)
    ensures H.SlotBytes(offset as nat, level as nat, 1, [neighbor as nat], 2, [code])
         == B4(offset) + [level, 1, 0, 0] + B4(neighbor) + [255, 255, 255, 255] + [code]
  {
    hide LE, LEs;
    Small(offset);
    Small(neighbor);
    Four(0xFFFF_FFFF, 255, 255, 255, 255);
    Pair(neighbor as nat, 0xFFFF_FFFF);
    assert H.Padded([neighbor as nat], 2) == [neighbor as nat, 0xFFFF_FFFF];
  }

  /** Slots of 18 bytes: 227 to a page of 4096. */
  lemma GraphHeaderLayout(x: H.IndexData, column: byte, levels: byte, entry: byte, nodes: byte, slots: byte, upper: byte)
    requires x.columnId == column as nat && x.dim == 2 && x.m == 1 && x.maxLevel + 1 == levels as nat
    requires |x.links| == nodes as nat && 0 < nodes <= 227 && slots < 100
    ensures H.Header(x, entry as nat, slots as nat, upper as nat)
         == B4(column) + B2(2) + B2(1) + B2(2) + B2(0) + [1, levels] + B4(entry) + B4(227) + B4(1) + B4(nodes) + B4(0)
            + B8(66) + B8(82) + B8(82 + slots) + B8(upper)
  {
    hide LE;
    Small(column);
    Small(entry);
    Small(nodes);
    Small(upper);
    Small(0);
    Small(1);
    Small(2);
    Small(66);
    Small(82);
    Small(82 + slots);
    Small(227);
    assert H.NodesPerPage(x.SlotSize()) == 227;
    assert (x.N() + 226) / 227 == 1;
  }

  /** Column, nodes, edges, targets, then where each array starts and how long the filter is, from one edge. */
  lemma EdgeHeaderLayout(x: EdgeIndexes.EdgeIndex, column: u32)
    requires x.numNodes == 1 && |x.fwdOffsets| == |x.revOffsets| == 2 && |x.bloom.bits| == 8
    requires |x.fwdTargets| == |x.revTargets| == |x.revSources| == 1
    ensures EdgePages.HeaderWords(x, column) == [column, 1, 1, 1, 44, 52, 60, 68, 76, 80, 16]
  {
  }
}
