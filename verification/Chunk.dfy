/** Whole column chunks: header, pages each under its own CRC, page index, zone maps. */
module Chunks {
  import opened Wrappers
  import opened Bytes
  import opened Numbers
  import opened Checksum
  import opened Cursors
  import opened Types
  import opened Columns
  import opened Bitmaps
  import F = Footers

  // ---- pages ----

  function Rpp(rowsPerPage: u32): (rpp: nat)
    ensures rpp >= 1
  {
    if rowsPerPage == 0 then 1 else rowsPerPage
  }

  function NumPages(n: nat, rpp: nat): nat
    requires rpp >= 1
  {
    if n == 0 then 0 else DivCeil(n, rpp)
  }

  /** The first row of page `p`; the row count past the last page. */
  function PageStart(n: nat, rpp: nat, p: nat): (s: nat)
    ensures s <= n
  {
    Min(p * rpp, n)
  }

  lemma PageBounds(n: nat, rpp: nat, p: nat)
    requires rpp >= 1
    ensures p < NumPages(n, rpp) ==> p * rpp < n
    ensures PageStart(n, rpp, p + 1) == Min(p * rpp + rpp, n)
    ensures PageStart(n, rpp, p) <= PageStart(n, rpp, p + 1) <= PageStart(n, rpp, p) + rpp
    ensures PageStart(n, rpp, NumPages(n, rpp)) == n
  {
    assert (p + 1) * rpp == p * rpp + rpp;
    if n > 0 {
      var q := NumPages(n, rpp);
      assert q * rpp == (q - 1) * rpp + rpp;
      CeilBounds(n, rpp, q);
      if p < q {
        MulMonotone(p, q - 1, rpp);
      }
    }
  }

  lemma CeilBounds(n: nat, d: nat, q: nat)
    requires n > 0 && d >= 1 && q == DivCeil(n, d)
    ensures q >= 1 && (q - 1) * d < n <= q * d
  {
    assert n + d - 1 == q * d + (n + d - 1) % d;
    assert q * d == (q - 1) * d + d;
  }

  lemma MulMonotone(a: nat, b: nat, d: nat)
    requires a <= b
    ensures a * d <= b * d
  {
    assert b * d == a * d + (b - a) * d;
  }

  function PageValues(v: ColumnValues, rpp: nat, p: nat): ColumnValues
    requires rpp >= 1
  {
    PageBounds(|v.cells|, rpp, p);
    v.Slice(PageStart(|v.cells|, rpp, p), PageStart(|v.cells|, rpp, p + 1))
  }

  function Payload(v: ColumnValues, rpp: nat, p: nat): seq<byte>
    requires v.WellTyped() && rpp >= 1
  {
    EncodedPayload(PageValues(v, rpp, p), v.HasNulls())
  }

  function PageHeader(payload: seq<byte>): (s: seq<byte>)
    ensures |s| == PAGE_HEADER_LEN
  {
    HeaderOf(|payload|, Crc32c(payload))
  }

  function HeaderOf(len: nat, crc: u32): (s: seq<byte>)
    ensures |s| == PAGE_HEADER_LEN
  {
    [0, 0] + LE(2, 0) + LE(4, len) + LE(4, len) + LE(4, crc)
  }

  function PageBytes(v: ColumnValues, rpp: nat, p: nat): seq<byte>
    requires v.WellTyped() && rpp >= 1
  {
    PageHeader(Payload(v, rpp, p)) + Payload(v, rpp, p)
  }

  function PageParts(v: ColumnValues, rpp: nat): (parts: seq<seq<byte>>)
    requires v.WellTyped() && rpp >= 1
    ensures |parts| == NumPages(|v.cells|, rpp)
  {
    seq(NumPages(|v.cells|, rpp), p requires 0 <= p => PageBytes(v, rpp, p))
  }

  function PageOffset(v: ColumnValues, rpp: nat, p: nat): nat
    requires v.WellTyped() && rpp >= 1 && p <= NumPages(|v.cells|, rpp)
  {
    CHUNK_HEADER_LEN + |Flat(PageParts(v, rpp)[..p])|
  }

  function IndexEntry(offset: nat, len: nat, rows: nat, first: nat): (s: seq<byte>)
    ensures |s| == PAGE_INDEX_ENTRY_LEN
  {
    LE(8, offset) + LE(4, len) + LE(4, len) + LE(4, rows) + LE(4, first)
  }

  function PageEntry(v: ColumnValues, rpp: nat, p: nat): (s: seq<byte>)
    requires v.WellTyped() && rpp >= 1 && p <= NumPages(|v.cells|, rpp)
    ensures |s| == PAGE_INDEX_ENTRY_LEN
  {
    IndexEntry(PageOffset(v, rpp, p), |Payload(v, rpp, p)|, |PageValues(v, rpp, p).cells|, PageStart(|v.cells|, rpp, p))
  }

  function IndexParts(v: ColumnValues, rpp: nat): (parts: seq<seq<byte>>)
    requires v.WellTyped() && rpp >= 1
    ensures |parts| == NumPages(|v.cells|, rpp)
    ensures forall p :: 0 <= p < |parts| ==> |parts[p]| == PAGE_INDEX_ENTRY_LEN
  {
    seq(NumPages(|v.cells|, rpp), p requires 0 <= p < NumPages(|v.cells|, rpp) => PageEntry(v, rpp, p))
  }

  // ---- chunk header ----

  datatype ChunkHeader = ChunkHeader(
    columnId: u32, lt: LogicalType, nullable: bool, isSystem: bool, dim: u16, valueCount: u64, numPages: u32,
    pageIndexOffset: u64)

  /** `FLAG_NULLABLE` is bit 0, `FLAG_IS_SYSTEM` bit 3. */
  function Flags(nullable: bool, isSystem: bool): u16 {
    (if nullable then 1 else 0) + (if isSystem then 8 else 0)
  }

  function EncodedChunkHeader(col: Column, numPages: nat, indexOffset: nat, total: nat, rest: seq<byte>): seq<byte> {
    LE(4, col.columnId) + (LE(2, col.values.lt.Tag()) + ([0] + ([0]
    + (LE(2, Flags(col.values.HasNulls(), col.isSystem)) + (LE(2, 0)
    + EncodedChunkCounts(col, numPages, indexOffset, total, rest))))))
  }

  function EncodedChunkCounts(col: Column, numPages: nat, indexOffset: nat, total: nat, rest: seq<byte>): seq<byte> {
    LE(2, col.values.dim) + (LE(8, |col.values.cells|) + (LE(8, NullCount(col.values.cells)) + (LE(4, numPages)
    + (LE(8, indexOffset) + (LE(8, total) + rest)))))
  }

  datatype ChunkCounts = ChunkCounts(dim: u16, valueCount: u64, nullCount: u64, numPages: u32, indexOffset: u64, total: u64)

  function ParseChunkCounts(s: seq<byte>): Cursor<ChunkCounts> {
    var (dim, s) :- ReadU16(s);
    var (valueCount, s) :- ReadU64(s);
    var (nullCount, s) :- ReadU64(s);
    var (numPages, s) :- ReadU32(s);
    var (indexOffset, s) :- ReadU64(s);
    var (total, s) :- ReadU64(s);
    Ok((ChunkCounts(dim, valueCount, nullCount, numPages, indexOffset, total), s))
  }

  function ParseChunkHeader(s: seq<byte>): Cursor<ChunkHeader> {
    var (columnId, s) :- ReadU32(s);
    var (tag, s) :- ReadU16(s);
    var lt :- LogicalType.FromTag(tag);
    var (encoding, s) :- ReadU8(s);
    var (_, s) :- ReadU8(s);
    var (flags, s) :- ReadU16(s);
    var (_, s) :- ReadU16(s);
    var (c, s) :- ParseChunkCounts(s);
    if encoding != 0 then Err(Decode)
    else Ok((ChunkHeader(columnId, lt, flags % 2 == 1, flags / 8 % 2 == 1, c.dim, c.valueCount, c.numPages, c.indexOffset), s))
  }

  lemma ChunkCountsRoundTrip(col: Column, numPages: u32, indexOffset: u64, total: u64, rest: seq<byte>)
    requires |col.values.cells| < U64_LIMIT
    ensures ParseChunkCounts(EncodedChunkCounts(col, numPages, indexOffset, total, rest))
         == Ok((ChunkCounts(col.values.dim, |col.values.cells|, NullCount(col.values.cells), numPages, indexOffset, total), rest))
  {
    hide ReadU16, ReadU32, ReadU64, LE;
    var v := col.values;
    var t5 := LE(8, total) + rest;
    var t4 := LE(8, indexOffset) + t5;
    var t3 := LE(4, numPages) + t4;
    var t2 := LE(8, NullCount(v.cells)) + t3;
    var t1 := LE(8, |v.cells|) + t2;
    ReadsU16(v.dim, t1);
    ReadsU64(|v.cells|, t2);
    ReadsU64(NullCount(v.cells), t3);
    ReadsU32(numPages, t4);
    ReadsU64(indexOffset, t5);
    ReadsU64(total, rest);
  }

  lemma ChunkHeaderRoundTrip(col: Column, numPages: u32, indexOffset: u64, total: u64, rest: seq<byte>)
    requires |col.values.cells| < U64_LIMIT
    ensures ParseChunkHeader(EncodedChunkHeader(col, numPages, indexOffset, total, rest))
         == Ok((ChunkHeader(col.columnId, col.values.lt, col.values.HasNulls(), col.isSystem, col.values.dim,
                            |col.values.cells|, numPages, indexOffset), rest))
  {
    hide EncodedChunkCounts, ParseChunkCounts, ReadU8, ReadU16, ReadU32, LE;
    var v := col.values;
    var counts := EncodedChunkCounts(col, numPages, indexOffset, total, rest);
    var h3 := LE(2, 0) + counts;
    var h2 := LE(2, Flags(v.HasNulls(), col.isSystem)) + h3;
    ReadsU32(col.columnId, LE(2, v.lt.Tag()) + ([0] + ([0] + h2)));
    ReadsU16(v.lt.Tag(), [0] + ([0] + h2));
    ReadsU8(0, [0] + h2);
    ReadsU8(0, h2);
    ReadsU16(Flags(v.HasNulls(), col.isSystem), h3);
    ReadsU16(0, counts);
    ChunkCountsRoundTrip(col, numPages, indexOffset, total, rest);
  }

  lemma HeaderThenRest(col: Column, numPages: nat, indexOffset: nat, total: nat, rest: seq<byte>)
    ensures |EncodedChunkHeader(col, numPages, indexOffset, total, rest)| == CHUNK_HEADER_LEN + |rest|
    ensures EncodedChunkHeader(col, numPages, indexOffset, total, rest)[CHUNK_HEADER_LEN..] == rest
  {
    hide LE, EncodedChunkCounts;
    CountsThenRest(col, numPages, indexOffset, total, rest);
    var counts := EncodedChunkCounts(col, numPages, indexOffset, total, rest);
    var flags := LE(2, Flags(col.values.HasNulls(), col.isSystem));
    var t2 := flags + (LE(2, 0) + counts);
    assert t2[4..] == counts;
    var t1 := LE(2, col.values.lt.Tag()) + ([0] + ([0] + t2));
    assert t1[4..] == t2;
    assert (LE(4, col.columnId) + t1)[8..] == t1[4..];
    assert t2[4 + 38..] == counts[38..];
    assert (LE(4, col.columnId) + t1)[8 + 42..] == t2[42..];
  }

  lemma CountsThenRest(col: Column, numPages: nat, indexOffset: nat, total: nat, rest: seq<byte>)
    ensures var counts := EncodedChunkCounts(col, numPages, indexOffset, total, rest);
            |counts| == 38 + |rest| && counts[38..] == rest
  {
    hide LE;
    var cells := col.values.cells;
    var t3 := LE(4, numPages) + (LE(8, indexOffset) + (LE(8, total) + rest));
    assert t3[20..] == rest;
    var counts := LE(2, col.values.dim) + (LE(8, |cells|) + (LE(8, NullCount(cells)) + t3));
    assert counts[18 + 20..] == t3[20..];
  }

  // ---- the chunk ----

  /** One column's section bytes. */
  function EncodedChunk(col: Column, rpp: nat): seq<byte>
    requires col.values.WellTyped() && rpp >= 1
  {
    var pages, index := Flat(PageParts(col.values, rpp)), Flat(IndexParts(col.values, rpp));
    EncodedChunkHeader(col, NumPages(|col.values.cells|, rpp), CHUNK_HEADER_LEN + |pages|,
                       CHUNK_HEADER_LEN + |pages| + |index|, pages + index)
  }

  function ParsePage(utf8: Utf8, bytes: seq<byte>, h: ChunkHeader, p: nat): (r: Result<ColumnValues, FormatError>)
    ensures r.Ok? ==> r.value.lt == h.lt
  {
    var entry :- SliceOf(bytes, h.pageIndexOffset + p * PAGE_INDEX_ENTRY_LEN, PAGE_INDEX_ENTRY_LEN);
    var pageOffset, len, rows := FromLE(entry[0..8]), FromLE(entry[8..12]), FromLE(entry[16..20]);
    var header :- SliceOf(bytes, pageOffset, PAGE_HEADER_LEN);
    var stored := FromLE(header[12..16]);
    var payload :- SliceOf(bytes, pageOffset + PAGE_HEADER_LEN, len);
    var found := Crc32c(payload);
    if found != stored then Err(PageCrcMismatch(h.columnId, p, stored, found))
    else ParsePayload(utf8, payload, rows, h.nullable, h.lt, h.dim)
  }

  /** The pages from `p` on. */
  function ParsePages(utf8: Utf8, bytes: seq<byte>, h: ChunkHeader, p: nat): (r: Result<seq<ColumnValues>, FormatError>)
    requires p <= h.numPages
    ensures r.Ok? ==> forall s <- r.value :: s.lt == h.lt
    decreases h.numPages - p
  {
    if p == h.numPages then Ok([])
    else
      var page :- ParsePage(utf8, bytes, h, p);
      var rest :- ParsePages(utf8, bytes, h, p + 1);
      Ok([page] + rest)
  }

  /** Decode a chunk, verifying every page CRC. */
  function ParseChunk(utf8: Utf8, bytes: seq<byte>): Result<Column, FormatError> {
    var (h, _) :- ParseChunkHeader(bytes);
    var segments :- ParsePages(utf8, bytes, h, 0);
    var values :- Concat(segments, h.lt);
    if |values.cells| != h.valueCount then Err(Decode)
    else Ok(Column(h.columnId, h.isSystem, ColumnValues(h.lt, if h.lt == Vector then h.dim else 0, values.cells)))
  }

  predicate CountsFit(col: Column, rpp: nat)
    requires rpp >= 1
  {
    rpp < U32_LIMIT && |col.values.cells| < U64_LIMIT && NumPages(|col.values.cells|, rpp) < U32_LIMIT
  }

  /** Every length fits the field it is written to. */
  predicate ChunkFits(col: Column, rpp: nat)
    requires col.values.WellTyped() && rpp >= 1
  {
    && CountsFit(col, rpp)
    && |EncodedChunk(col, rpp)| < U64_LIMIT
    && forall p: nat :: p < NumPages(|col.values.cells|, rpp) ==> |Payload(col.values, rpp, p)| < U32_LIMIT
  }

  lemma PageHeaderFields(payload: seq<byte>)
    ensures FromLE(PageHeader(payload)[12..16]) == Crc32c(payload)
  {
    assert PageHeader(payload)[12..16] == LE(4, Crc32c(payload));
    Pow256Values();
    FromLEofLE(4, Crc32c(payload));
  }

  lemma IndexEntryFields(offset: u64, len: u32, rows: u32, first: nat)
    ensures var e := IndexEntry(offset, len, rows, first);
            FromLE(e[0..8]) == offset && FromLE(e[8..12]) == len && FromLE(e[16..20]) == rows
  {
    var e := IndexEntry(offset, len, rows, first);
    assert e[0..8] == LE(8, offset) && e[8..12] == LE(4, len) && e[16..20] == LE(4, rows);
    Pow256Values();
    FromLEofLE(8, offset);
    FromLEofLE(4, len);
    FromLEofLE(4, rows);
  }

  /** Page and index entry `p` are where the header and the index say. */
  lemma ChunkLayout(col: Column, rpp: nat, p: nat)
    requires col.values.WellTyped() && rpp >= 1 && p < NumPages(|col.values.cells|, rpp)
    ensures var v, bytes := col.values, EncodedChunk(col, rpp);
            && At(bytes, IndexOffset(v, rpp) + p * PAGE_INDEX_ENTRY_LEN, PageEntry(v, rpp, p))
            && At(bytes, PageOffset(v, rpp, p), PageHeader(Payload(v, rpp, p)))
            && At(bytes, PageOffset(v, rpp, p) + PAGE_HEADER_LEN, Payload(v, rpp, p))
  {
    hide At, Payload, PageHeader, PageEntry, EncodedChunk, NumPages, Flat;
    var v, bytes := col.values, EncodedChunk(col, rpp);
    var pages, index := Flat(PageParts(v, rpp)), Flat(IndexParts(v, rpp));
    ChunkRegions(col, rpp);
    AtSplit(bytes, CHUNK_HEADER_LEN, pages, index);
    EvenAt(IndexParts(v, rpp), PAGE_INDEX_ENTRY_LEN, p);
    AtInner(bytes, CHUNK_HEADER_LEN + |pages|, index, p * PAGE_INDEX_ENTRY_LEN, IndexParts(v, rpp)[p]);
    FlatAt(PageParts(v, rpp), p);
    var off := |Flat(PageParts(v, rpp)[..p])|;
    AtInner(bytes, CHUNK_HEADER_LEN, pages, off, PageBytes(v, rpp, p));
    AtSplit(bytes, CHUNK_HEADER_LEN + off, PageHeader(Payload(v, rpp, p)), Payload(v, rpp, p));
  }

  function IndexOffset(v: ColumnValues, rpp: nat): nat
    requires v.WellTyped() && rpp >= 1
  {
    CHUNK_HEADER_LEN + |Flat(PageParts(v, rpp))|
  }

  lemma ChunkRegions(col: Column, rpp: nat)
    requires col.values.WellTyped() && rpp >= 1
    ensures var pages, index := Flat(PageParts(col.values, rpp)), Flat(IndexParts(col.values, rpp));
            && At(EncodedChunk(col, rpp), CHUNK_HEADER_LEN, pages + index)
            && |EncodedChunk(col, rpp)| == CHUNK_HEADER_LEN + |pages| + |index|
  {
    hide EncodedChunkHeader, Flat, PageParts, IndexParts, NumPages;
    var pages, index := Flat(PageParts(col.values, rpp)), Flat(IndexParts(col.values, rpp));
    HeaderThenRest(col, NumPages(|col.values.cells|, rpp), CHUNK_HEADER_LEN + |pages|,
                   CHUNK_HEADER_LEN + |pages| + |index|, pages + index);
  }

  /** With its index entry, header and payload in place, a page's payload gets decoded. */
  lemma PageIsRead(utf8: Utf8, bytes: seq<byte>, h: ChunkHeader, p: nat, off: u64, rows: u32, first: nat, payload: seq<byte>)
    requires |payload| < U32_LIMIT
    requires At(bytes, h.pageIndexOffset + p * PAGE_INDEX_ENTRY_LEN, IndexEntry(off, |payload|, rows, first))
    requires At(bytes, off, PageHeader(payload)) && At(bytes, off + PAGE_HEADER_LEN, payload)
    ensures ParsePage(utf8, bytes, h, p) == ParsePayload(utf8, payload, rows, h.nullable, h.lt, h.dim)
  {
    hide At, IndexEntry, PageHeader, FromLE, SliceOf, ParsePayload, Crc32c;
    IndexEntryFields(off, |payload|, rows, first);
    PageHeaderFields(payload);
    SliceAt(bytes, h.pageIndexOffset + p * PAGE_INDEX_ENTRY_LEN, IndexEntry(off, |payload|, rows, first));
    SliceAt(bytes, off, PageHeader(payload));
    SliceAt(bytes, off + PAGE_HEADER_LEN, payload);
  }

  lemma PageRoundTrip(utf8: Utf8, col: Column, rpp: nat, h: ChunkHeader, p: nat)
    requires rpp >= 1 && Sound(utf8, col.values) && ChunkFits(col, rpp) && p < NumPages(|col.values.cells|, rpp)
    requires h.lt == col.values.lt && h.dim == col.values.dim && h.nullable == col.values.HasNulls()
    requires h.pageIndexOffset == IndexOffset(col.values, rpp)
    ensures ParsePage(utf8, EncodedChunk(col, rpp), h, p) == Ok(PageValues(col.values, rpp, p))
  {
    hide At, Payload, PageHeader, IndexEntry, EncodedChunk, ParsePage, ParsePayload, PageOffset, IndexOffset, NumPages,
      PageValues, PageStart, ChunkFits;
    var v := col.values;
    ChunkLayout(col, rpp, p);
    PageFits(col, rpp, p);
    PageIsRead(utf8, EncodedChunk(col, rpp), h, p, PageOffset(v, rpp, p), |PageValues(v, rpp, p).cells|,
               PageStart(|v.cells|, rpp, p), Payload(v, rpp, p));
    PageDecodes(utf8, v, rpp, p);
  }

  lemma PageFits(col: Column, rpp: nat, p: nat)
    requires rpp >= 1 && col.values.WellTyped() && ChunkFits(col, rpp) && p < NumPages(|col.values.cells|, rpp)
    ensures PageOffset(col.values, rpp, p) < U64_LIMIT
    ensures |Payload(col.values, rpp, p)| < U32_LIMIT && |PageValues(col.values, rpp, p).cells| < U32_LIMIT
  {
    hide Payload, PageHeader, IndexEntry, EncodedChunk, Flat, PageParts, IndexParts;
    ChunkLayout(col, rpp, p);
    PageBounds(|col.values.cells|, rpp, p);
  }

  lemma PageDecodes(utf8: Utf8, v: ColumnValues, rpp: nat, p: nat)
    requires rpp >= 1 && Sound(utf8, v) && |Payload(v, rpp, p)| < U32_LIMIT
    ensures var page := PageValues(v, rpp, p);
            ParsePayload(utf8, Payload(v, rpp, p), |page.cells|, v.HasNulls(), v.lt, v.dim) == Ok(page)
  {
    hide ParsePayload, EncodedPayload;
    PageSound(utf8, v, rpp, p);
    PayloadRoundTrip(utf8, PageValues(v, rpp, p), v.HasNulls());
  }

  lemma PageSound(utf8: Utf8, v: ColumnValues, rpp: nat, p: nat)
    requires rpp >= 1 && Sound(utf8, v)
    ensures var page := PageValues(v, rpp, p);
            Sound(utf8, page) && (None in page.cells ==> v.HasNulls())
  {
  }

  /** The pages in order are the column again. */
  lemma {:induction false} PagesConcat(v: ColumnValues, rpp: nat, parts: seq<ColumnValues>, k: nat)
    requires rpp >= 1 && k <= |parts| && forall i :: 0 <= i < |parts| ==> parts[i] == PageValues(v, rpp, i)
    ensures Concat(parts[..k], v.lt).Ok?
    ensures Concat(parts[..k], v.lt).value.cells == v.cells[..PageStart(|v.cells|, rpp, k)]
  {
    if k > 0 {
      PagesConcat(v, rpp, parts, k - 1);
      assert parts[..k][..k - 1] == parts[..k - 1];
      PageBounds(|v.cells|, rpp, k - 1);
    }
  }

  lemma {:induction false} PagesRoundTrip(utf8: Utf8, col: Column, rpp: nat, h: ChunkHeader, p: nat)
    requires rpp >= 1 && Sound(utf8, col.values) && ChunkFits(col, rpp) && p <= NumPages(|col.values.cells|, rpp)
    requires h.lt == col.values.lt && h.dim == col.values.dim && h.nullable == col.values.HasNulls()
    requires h.pageIndexOffset == IndexOffset(col.values, rpp)
    requires h.numPages == NumPages(|col.values.cells|, rpp)
    ensures var r := ParsePages(utf8, EncodedChunk(col, rpp), h, p);
            && r.Ok? && |r.value| == h.numPages - p
            && forall i :: 0 <= i < |r.value| ==> r.value[i] == PageValues(col.values, rpp, p + i)
    decreases h.numPages - p
  {
    hide ParsePage, EncodedChunk, PageValues, IndexOffset, ChunkFits, Sound, NumPages;
    if p < h.numPages {
      PageRoundTrip(utf8, col, rpp, h, p);
      PagesRoundTrip(utf8, col, rpp, h, p + 1);
    }
  }

  /** A chunk decodes to the column it was made of, whatever the page size. */
  lemma ChunkRoundTrip(utf8: Utf8, col: Column, rpp: nat)
    requires rpp >= 1 && Sound(utf8, col.values) && ChunkFits(col, rpp)
    ensures ParseChunk(utf8, EncodedChunk(col, rpp)) == Ok(col)
  {
    hide ParsePages, EncodedChunkHeader, ParseChunkHeader, PageValues, Flat, PageParts, IndexParts, NumPages, PageStart, Concat;
    var v, bytes, n := col.values, EncodedChunk(col, rpp), |col.values.cells|;
    var pages, index := Flat(PageParts(v, rpp)), Flat(IndexParts(v, rpp));
    ChunkRegions(col, rpp);
    ChunkHeaderRoundTrip(col, NumPages(n, rpp), CHUNK_HEADER_LEN + |pages|, CHUNK_HEADER_LEN + |pages| + |index|,
                         pages + index);
    var h := ParseChunkHeader(bytes).value.0;
    PagesRoundTrip(utf8, col, rpp, h, 0);
    var segments := ParsePages(utf8, bytes, h, 0).value;
    PagesConcat(v, rpp, segments, |segments|);
    assert segments[..|segments|] == segments;
    PageBounds(n, rpp, 0);
    assert v.cells[..n] == v.cells;
  }

  // ---- zone maps ----

  /** Minimum and maximum bytes, or centroid and radius, of a run of rows; any function of the column and the run. */
  datatype ZoneStats = ZoneStats(min: seq<byte>, max: seq<byte>, centroid: seq<u32>, maxRadius: u32)

  type Stats = (ColumnValues, nat, nat) -> ZoneStats

  function ZoneMapOf(col: Column, rpp: nat, stats: Stats, p: nat): F.ZoneMap
    requires rpp >= 1
  {
    PageBounds(|col.values.cells|, rpp, p);
    var s, e := PageStart(|col.values.cells|, rpp, p), PageStart(|col.values.cells|, rpp, p + 1);
    var z := stats(col.values, s, e);
    F.ZoneMap(col.columnId, ToU32(p), z.min, z.max, ToU64(NullCount(col.values.cells[s..e])), 0, ToU64(e - s), z.centroid, z.maxRadius)
  }

  function ZoneMapsOf(col: Column, rpp: nat, stats: Stats): (zs: seq<F.ZoneMap>)
    requires rpp >= 1
    ensures |zs| == NumPages(|col.values.cells|, rpp)
  {
    seq(NumPages(|col.values.cells|, rpp), p requires 0 <= p < NumPages(|col.values.cells|, rpp) => ZoneMapOf(col, rpp, stats, p))
  }

  // ---- the code ----

  /** `encode_page_payload` over rows `s..e`. */
  method EncodePagePayload(v: ColumnValues, s: nat, e: nat, nullable: bool) returns (out: seq<byte>)
    requires v.WellTyped() && s <= e <= |v.cells|
    ensures out == EncodedPayload(v.Slice(s, e), nullable)
  {
    var page := v.cells[s..e];
    out := [];
    if nullable {
      var bm := PackValidity(page);
      out := bm[..];
    }
    var body;
    if v.lt == LogicalType.Utf8 {
      body := EncodeStrings(page);
    } else {
      body := EncodeSlots(v.lt.Width(v.dim), page);
    }
    out := out + body;
  }

  method EncodeSlots(w: nat, page: Cells) returns (out: seq<byte>)
    requires forall c <- page :: c.Some? ==> !c.value.Utf8Cell?
    ensures out == Flat(SlotParts(w, page))
  {
    hide SlotBytes, Flat;
    ghost var parts := SlotParts(w, page);
    out := [];
    FlatNone(parts);
    for i := 0 to |page|
      invariant out == Flat(parts[..i])
    {
      FlatSnoc(parts, i);
      out := out + SlotBytes(w, page[i]);
    }
    assert parts[..|page|] == parts;
  }

  method EncodeStrings(page: Cells) returns (out: seq<byte>)
    requires Strings(page)
    ensures out == EncodedStrings(page)
  {
    hide Flat, LEs;
    ghost var parts := StringParts(page);
    var data: seq<byte> := [];
    var offsets: seq<nat> := [0];
    FlatNone(parts);
    for i := 0 to |page|
      invariant data == Flat(parts[..i])
      invariant |offsets| == i + 1 && forall k :: 0 <= k <= i ==> offsets[k] == |Flat(parts[..k])|
    {
      FlatSnoc(parts, i);
      assert page[i] in page;
      if page[i].Some? {
        data := data + page[i].value.s;
      } else {
        assert data + [] == data;
      }
      offsets := offsets + [|data|];
    }
    assert parts[..|page|] == parts;
    assert offsets == StringOffsets(page);
    out := PushAll(4, offsets, []);
    out := out + data;
  }

  lemma HeaderIs(payload: seq<byte>)
    ensures PageHeader(payload) == HeaderOf(|payload|, Crc32c(payload))
  {
  }

  /** One turn of the page loop: the page, its index entry and its zone map. */
  method EncodePage(col: Column, rpp: nat, stats: Stats, p: nat, nullable: bool, pageOffset: nat)
    returns (page: seq<byte>, entry: seq<byte>, zone: F.ZoneMap)
    requires col.values.WellTyped() && rpp >= 1 && p < NumPages(|col.values.cells|, rpp)
    requires nullable == col.values.HasNulls() && pageOffset == PageOffset(col.values, rpp, p)
    ensures page == PageBytes(col.values, rpp, p) && entry == PageEntry(col.values, rpp, p)
    ensures zone == ZoneMapOf(col, rpp, stats, p)
  {
    hide NumPages, PageOffset, PageHeader, HeaderOf, Crc32c, IndexEntry, EncodedPayload, NullCount, ColumnValues.WellTyped;
    var v := col.values;
    var n := |v.cells|;
    PageBounds(n, rpp, p);
    var s := p * rpp;
    var e := Min(s + rpp, n);
    var payload := EncodePagePayload(v, s, e, nullable);
    var crc := ComputeCrc32c(payload);
    HeaderIs(payload);
    page := HeaderOf(|payload|, crc) + payload;
    entry := IndexEntry(pageOffset, |payload|, e - s, s);
    var z := stats(v, s, e);
    zone := F.ZoneMap(col.columnId, ToU32(p), z.min, z.max, ToU64(NullCount(v.cells[s..e])), 0, ToU64(e - s), z.centroid, z.maxRadius);
  }

  /** `encode_column_chunk`: the chunk's bytes and its zone maps. */
  method EncodeColumnChunk(col: Column, rowsPerPage: u32, stats: Stats) returns (bytes: seq<byte>, zoneMaps: seq<F.ZoneMap>)
    requires col.values.WellTyped()
    ensures bytes == EncodedChunk(col, Rpp(rowsPerPage))
    ensures zoneMaps == ZoneMapsOf(col, Rpp(rowsPerPage), stats)
  {
    hide NumPages, Payload, EncodedChunkHeader, PageBytes, PageEntry, ZoneMapOf, Flat, ColumnValues.WellTyped;
    var v := col.values;
    var rpp := Rpp(rowsPerPage);
    var nullable := v.HasNulls();
    var numPages := NumPages(|v.cells|, rpp);
    var pages: seq<byte> := [];
    var index: seq<byte> := [];
    zoneMaps := [];
    ghost var pageParts, indexParts := PageParts(v, rpp), IndexParts(v, rpp);
    FlatNone(pageParts);
    FlatNone(indexParts);
    for p := 0 to numPages
      invariant pages == Flat(pageParts[..p]) && index == Flat(indexParts[..p])
      invariant zoneMaps == ZoneMapsOf(col, rpp, stats)[..p]
    {
      var page, entry, zone := EncodePage(col, rpp, stats, p, nullable, CHUNK_HEADER_LEN + |pages|);
      FlatSnoc(pageParts, p);
      FlatSnoc(indexParts, p);
      pages := pages + page;
      index := index + entry;
      zoneMaps := zoneMaps + [zone];
    }
    assert pageParts[..numPages] == pageParts && indexParts[..numPages] == indexParts;
    assert ZoneMapsOf(col, rpp, stats)[..numPages] == ZoneMapsOf(col, rpp, stats);
    ghost var rest := pages + index;
    var pageIndexOffset := CHUNK_HEADER_LEN + |pages|;
    var header := WriteChunkHeader(col, numPages, pageIndexOffset, pageIndexOffset + |index|, rest);
    bytes := header + pages + index;
    assert bytes == header + rest;
  }

  method WriteChunkHeader(col: Column, numPages: nat, indexOffset: nat, total: nat, ghost rest: seq<byte>)
    returns (bytes: seq<byte>)
    ensures bytes + rest == EncodedChunkHeader(col, numPages, indexOffset, total, rest)
  {
    hide EncodedChunkCounts, LE;
    var v := col.values;
    var w := new Writer();
    ghost var counts := EncodedChunkCounts(col, numPages, indexOffset, total, rest);
    ghost var h3 := LE(2, 0) + counts;
    ghost var h2 := LE(2, Flags(v.HasNulls(), col.isSystem)) + h3;
    w.U32(col.columnId, LE(2, v.lt.Tag()) + ([0] + ([0] + h2)));
    w.U16(v.lt.Tag(), [0] + ([0] + h2));
    w.U8(0, [0] + h2);
    w.U8(0, h2);
    w.U16(Flags(v.HasNulls(), col.isSystem), h3);
    w.U16(0, counts);
    WriteChunkCounts(w, col, numPages, indexOffset, total, rest);
    bytes := w.buf;
  }

  method WriteChunkCounts(w: Writer, col: Column, numPages: nat, indexOffset: nat, total: nat, ghost rest: seq<byte>)
    modifies w
    ensures w.buf + rest == old(w.buf) + EncodedChunkCounts(col, numPages, indexOffset, total, rest)
  {
    hide LE;
    var cells := col.values.cells;
    ghost var t5 := LE(8, total) + rest;
    ghost var t4 := LE(8, indexOffset) + t5;
    ghost var t3 := LE(4, numPages) + t4;
    ghost var t2 := LE(8, NullCount(cells)) + t3;
    w.U16(col.values.dim, LE(8, |cells|) + t2);
    w.U64(|cells|, t2);
    w.U64(NullCount(cells), t3);
    w.U32(numPages, t4);
    w.U64(indexOffset, t5);
    w.U64(total, rest);
  }

  method DecodeStrings(utf8: Utf8, valid: seq<bool>, offsets: seq<nat>, data: seq<byte>) returns (r: Result<Cells, FormatError>)
    requires |offsets| == |valid| + 1
    ensures r == ParseStrings(utf8, valid, offsets, data, 0)
  {
    hide ParseString;
    var out: Cells := [];
    ghost var all := ParseStrings(utf8, valid, offsets, data, 0);
    assert all.Ok? ==> [] + all.value == all.value;
    for j := 0 to |valid|
      invariant all == match ParseStrings(utf8, valid, offsets, data, j)
                       case Ok(rest) => Ok(out + rest)
                       case Err(e) => Err(e)
    {
      var cell :- ParseString(utf8, valid[j], offsets[j], offsets[j + 1], data);
      ghost var rest := ParseStrings(utf8, valid, offsets, data, j + 1);
      if rest.Ok? {
        assert out + ([cell] + rest.value) == (out + [cell]) + rest.value;
      }
      out := out + [cell];
    }
    assert out + [] == out;
    r := Ok(out);
  }

  /** `decode_page_payload`. */
  method DecodePagePayload(utf8: Utf8, buf: seq<byte>, m: nat, nullable: bool, lt: LogicalType, dim: u16)
    returns (r: Result<ColumnValues, FormatError>)
    ensures r == ParsePayload(utf8, buf, m, nullable, lt, dim)
  {
    hide ParseSlot, ParseStrings, ValidAt, LogicalType.Width;
    var pos := BitmapLen(m, nullable);
    var valid :- ParseValidity(buf, m, nullable);
    if lt == LogicalType.Utf8 {
      var offBytes :- SliceOf(buf, pos, 4 * (m + 1));
      pos := pos + 4 * (m + 1);
      var cells :- DecodeStrings(utf8, valid, Offsets(offBytes, m + 1), buf[pos..]);
      return Ok(ColumnValues(LogicalType.Utf8, 0, cells));
    }
    var vals :- SliceOf(buf, pos, m * lt.Width(dim));
    var cells := DecodeSlots(lt, dim, valid, vals);
    assert cells == ParseCells(utf8, buf, pos, valid, lt, dim).value;
    r := Ok(ColumnValues(lt, if lt == Vector then dim else 0, cells));
  }

  method DecodeSlots(lt: LogicalType, dim: u16, valid: seq<bool>, vals: seq<byte>) returns (out: Cells)
    requires lt != LogicalType.Utf8 && |vals| == |valid| * lt.Width(dim)
    ensures |out| == |valid| && forall i :: 0 <= i < |valid| ==> out[i] == ParseSlot(lt, dim, valid, vals, i)
  {
    hide CellFrom, LogicalType.Width;
    var w := lt.Width(dim);
    out := [];
    for j := 0 to |valid|
      invariant |out| == j && forall i :: 0 <= i < j ==> out[i] == ParseSlot(lt, dim, valid, vals, i)
    {
      SlotInBounds(|valid|, w, j);
      out := out + [if valid[j] then Some(CellFrom(lt, dim, vals[j * w..j * w + w])) else None];
    }
  }

  method ReadChunkHeader(r: Reader) returns (h: Result<ChunkHeader, FormatError>)
    requires r.Valid()
    modifies r
    ensures r.Did(ParseChunkHeader(old(r.Rest())), h)
  {
    var columnId :- r.U32();
    var tag :- r.U16();
    var lt :- LogicalType.FromTag(tag);
    var encoding :- r.U8();
    var compression :- r.U8();
    var flags :- r.U16();
    var quant :- r.U16();
    var c :- ReadChunkCounts(r);
    if encoding != 0 {
      return Err(Decode);
    }
    h := Ok(ChunkHeader(columnId, lt, flags % 2 == 1, flags / 8 % 2 == 1, c.dim, c.valueCount, c.numPages, c.indexOffset));
  }

  method ReadChunkCounts(r: Reader) returns (c: Result<ChunkCounts, FormatError>)
    requires r.Valid()
    modifies r
    ensures r.Did(ParseChunkCounts(old(r.Rest())), c)
  {
    var dim :- r.U16();
    var valueCount :- r.U64();
    var nullCount :- r.U64();
    var numPages :- r.U32();
    var indexOffset :- r.U64();
    var total :- r.U64();
    c := Ok(ChunkCounts(dim, valueCount, nullCount, numPages, indexOffset, total));
  }

  method DecodePage(utf8: Utf8, bytes: seq<byte>, h: ChunkHeader, p: nat) returns (r: Result<ColumnValues, FormatError>)
    ensures r == ParsePage(utf8, bytes, h, p)
  {
    hide ParsePayload, FromLE, Crc32c, At;
    var entry :- SliceOf(bytes, h.pageIndexOffset + p * PAGE_INDEX_ENTRY_LEN, PAGE_INDEX_ENTRY_LEN);
    var pageOffset, len, rows := FromLE(entry[0..8]), FromLE(entry[8..12]), FromLE(entry[16..20]);
    var header :- SliceOf(bytes, pageOffset, PAGE_HEADER_LEN);
    var stored := FromLE(header[12..16]);
    var payload :- SliceOf(bytes, pageOffset + PAGE_HEADER_LEN, len);
    var found := ComputeCrc32c(payload);
    if found != stored {
      return Err(PageCrcMismatch(h.columnId, p, stored, found));
    }
    r := DecodePagePayload(utf8, payload, rows, h.nullable, h.lt, h.dim);
  }

  /** The loop over the pages. */
  method DecodePages(utf8: Utf8, bytes: seq<byte>, h: ChunkHeader) returns (r: Result<seq<ColumnValues>, FormatError>)
    ensures r == ParsePages(utf8, bytes, h, 0)
  {
    hide ParsePage;
    var segments: seq<ColumnValues> := [];
    ghost var all := ParsePages(utf8, bytes, h, 0);
    assert all.Ok? ==> [] + all.value == all.value;
    for p := 0 to h.numPages
      invariant all == match ParsePages(utf8, bytes, h, p)
                       case Ok(rest) => Ok(segments + rest)
                       case Err(e) => Err(e)
    {
      var page :- DecodePage(utf8, bytes, h, p);
      ghost var rest := ParsePages(utf8, bytes, h, p + 1);
      if rest.Ok? {
        assert segments + ([page] + rest.value) == (segments + [page]) + rest.value;
      }
      segments := segments + [page];
    }
    assert segments + [] == segments;
    r := Ok(segments);
  }

  /** `decode_column_chunk`. */
  method DecodeColumnChunk(utf8: Utf8, bytes: seq<byte>) returns (r: Result<Column, FormatError>)
    ensures r == ParseChunk(utf8, bytes)
  {
    hide ParsePages, ParseChunkHeader, Concat;
    var reader := new Reader(bytes);
    var h :- ReadChunkHeader(reader);
    var segments :- DecodePages(utf8, bytes, h);
    var values :- ConcatParts(segments, h.lt);
    if |values.cells| != h.valueCount {
      return Err(Decode);
    }
    r := Ok(Column(h.columnId, h.isSystem, ColumnValues(h.lt, if h.lt == Vector then h.dim else 0, values.cells)));
  }
}
