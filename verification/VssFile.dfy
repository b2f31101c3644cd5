/**
 A complete `.vss` file as a byte sequence: preamble, section bodies, footer, trailer.
 Whatever the writer accepts reads back as itself, and a burst of corruption inside a
 section body or inside the footer makes reading fail.
 */
module VssFiles {
  import opened Wrappers
  import opened Bytes
  import opened Numbers
  import opened Checksum
  import opened Cursors
  import opened Preambles
  import opened Footers
  import opened Columns
  import opened Chunks
  import T = Types

  const TRAILER_LEN: nat := 16

  datatype FileMeta = FileMeta(
    fileUuid: Uuid,
    minLsn: u64,
    maxLsn: u64,
    rowCount: u64,
    schemaFingerprint: u64,
    creationUnixNanos: u64,
    schemaBlob: seq<byte>,
    mvcc: MvccSummary,
    writerVersion: seq<byte>
  )

  /** A section's bytes with its directory attributes. */
  datatype RawSection = RawSection(kind: SectionType, columnId: u32, encoding: SectionEncoding, bytes: seq<byte>)

  datatype LlFile = LlFile(
    preamble: Preamble,
    footer: Footer,
    columns: seq<Column>,
    rawSections: seq<RawSection>,
    translationTable: seq<u64>
  )

  /** What a caller hands to the writer. */
  datatype FileInput = FileInput(
    meta: FileMeta,
    columns: seq<Column>,
    translationTable: seq<u64>,
    extra: seq<RawSection>,
    rowsPerPage: u32,
    stats: Stats
  ) {
    /** Guaranteed by the source's types: typed cells, strings that are UTF-8. */
    predicate Typed(utf8: Utf8) {
      && utf8(meta.writerVersion)
      && WellTyped()
      && forall c <- columns, cell <- c.values.cells :: cell.Some? && cell.value.Utf8Cell? ==> utf8(cell.value.s)
    }

    predicate WellTyped() {
      forall c <- columns :: c.values.WellTyped()
    }

    /** The writer's own checks. */
    predicate Accepted() {
      && |translationTable| == meta.rowCount
      && (forall c <- columns :: ColumnAccepted(c, meta.rowCount))
      && (forall s <- extra :: !Reserved(s.kind))
    }

    function Head(): Preamble {
      Preamble(meta.fileUuid, meta.minLsn, meta.maxLsn, meta.rowCount, meta.schemaFingerprint,
                        meta.creationUnixNanos)
    }
  }

  predicate ColumnAccepted(c: Column, rowCount: nat) {
    |c.values.cells| == rowCount && forall cell <- c.values.cells :: cell.Some? ==> DimOk(c.values.dim, cell.value)
  }

  predicate Reserved(kind: SectionType) {
    kind == ColumnChunk || kind == TranslationTable
  }

  // ---- layout ----

  function ChunkSection(c: Column, rpp: nat): RawSection
    requires rpp >= 1 && c.values.WellTyped()
  {
    RawSection(ColumnChunk, c.columnId, Plain, EncodedChunk(c, rpp))
  }

  function TableSection(table: seq<u64>): RawSection {
    RawSection(TranslationTable, 0, Plain, LEs(8, table))
  }

  /** All sections in file order: column chunks, opaque extras, translation table. */
  function Parts(f: FileInput): (parts: seq<RawSection>)
    requires f.WellTyped()
    ensures |parts| == |f.columns| + |f.extra| + 1
  {
    seq(|f.columns|, i requires 0 <= i < |f.columns| => ChunkSection(f.columns[i], Rpp(f.rowsPerPage)))
    + f.extra + [TableSection(f.translationTable)]
  }

  function Bodies(parts: seq<RawSection>): (bodies: seq<seq<byte>>)
    ensures |bodies| == |parts|
  {
    seq(|parts|, i requires 0 <= i < |parts| => parts[i].bytes)
  }

  /** Where the body of section `i` starts. */
  function Offset(parts: seq<RawSection>, i: nat): (o: nat)
    requires i <= |parts|
    ensures o >= PREAMBLE_LEN
  {
    PREAMBLE_LEN + |Flat(Bodies(parts)[..i])|
  }

  predicate BodiesFit(parts: seq<RawSection>) {
    Offset(parts, |parts|) < U64_LIMIT
  }

  lemma OffsetBound(parts: seq<RawSection>, i: nat)
    requires i <= |parts|
    ensures Offset(parts, i) <= Offset(parts, |parts|)
    ensures i < |parts| ==> Offset(parts, i + 1) == Offset(parts, i) + |parts[i].bytes|
  {
    FlatMonotone(Bodies(parts), i, |parts|);
    if i < |parts| {
      FlatSnoc(Bodies(parts), i);
    }
  }

  function Entry(parts: seq<RawSection>, i: nat): (e: SectionEntry)
    requires i < |parts|
    ensures e.kind == parts[i].kind && e.encoding == parts[i].encoding && e.columnId == parts[i].columnId
  {
    SectionEntry(parts[i].kind, parts[i].encoding, parts[i].columnId, ToU64(Offset(parts, i)), ToU64(|parts[i].bytes|),
                 Crc32c(parts[i].bytes))
  }

  /** Offsets and lengths that fit 64 bits are stated as they are. */
  lemma EntryExact(parts: seq<RawSection>, i: nat)
    requires i < |parts| && BodiesFit(parts)
    ensures Entry(parts, i).offset == Offset(parts, i) && Entry(parts, i).length == |parts[i].bytes|
  {
    hide Offset, Crc32c, ToU64;
    OffsetBound(parts, i);
    OffsetBound(parts, i + 1);
    FitsU64(Offset(parts, i));
    FitsU64(|parts[i].bytes|);
  }

  function Entries(parts: seq<RawSection>): (entries: seq<SectionEntry>)
    ensures |entries| == |parts|
  {
    seq(|parts|, i requires 0 <= i < |parts| => Entry(parts, i))
  }

  predicate ColumnFits(c: Column, rpp: nat)
    requires rpp >= 1
  {
    c.values.WellTyped() && CountsFit(c, rpp) && ChunkFits(c, rpp)
  }

  function ColumnZones(f: FileInput, k: nat): seq<ZoneMap>
    requires k <= |f.columns|
  {
    if k == 0 then [] else ColumnZones(f, k - 1) + ZoneMapsOf(f.columns[k - 1], Rpp(f.rowsPerPage), f.stats)
  }

  /** Chunks, sections and footer fit the widths of the fields that describe them. */
  predicate Fits(f: FileInput) {
    && (forall c <- f.columns :: ColumnFits(c, Rpp(f.rowsPerPage)))
    && f.WellTyped()
    && BodiesFit(Parts(f))
    && FooterOf(f).Fits()
    && |EncodedFooter(FooterOf(f))| < U64_LIMIT
  }

  function FooterOf(f: FileInput): Footer
    requires f.WellTyped()
  {
    var m := f.meta;
    Footer(m.fileUuid, FORMAT_VERSION, m.minLsn, m.maxLsn, m.rowCount, m.schemaFingerprint, m.schemaBlob,
           Entries(Parts(f)), ColumnZones(f, |f.columns|), m.mvcc, m.writerVersion)
  }

  function Trailer(footerBytes: seq<byte>): (s: seq<byte>)
    ensures |s| == TRAILER_LEN
  {
    TrailerOf(Crc32c(footerBytes), |footerBytes|)
  }

  function TrailerOf(crc: u32, len: nat): (s: seq<byte>)
    ensures |s| == TRAILER_LEN
  {
    LE(4, crc) + LE(8, len) + LE(4, MAGIC)
  }

  /** The bytes between preamble and trailer are section bodies, then footer. */
  function Framed(preamble: seq<byte>, parts: seq<RawSection>, footerBytes: seq<byte>): seq<byte> {
    preamble + Flat(Bodies(parts)) + footerBytes + Trailer(footerBytes)
  }

  function EncodedFile(f: FileInput): seq<byte>
    requires f.WellTyped()
  {
    Framed(EncodedPreamble(f.Head()), Parts(f), EncodedFooter(FooterOf(f)))
  }

  /** What reading the file should give back. */
  function FileOf(f: FileInput): LlFile
    requires Fits(f)
  {
    LlFile(f.Head(), FooterOf(f), f.columns, f.extra, f.translationTable)
  }

  // ---- reading ----

  /** Slice a section's body, validating its bounds and CRC. */
  function SectionBody(bytes: seq<byte>, entry: SectionEntry): Result<seq<byte>, FormatError> {
    var body :- SliceOf(bytes, entry.offset, entry.length);
    var found := Crc32c(body);
    if found != entry.crc32 then Err(SectionCrcMismatch(entry.crc32, found)) else Ok(body)
  }

  function ReadTable(bytes: seq<byte>, entry: SectionEntry, rowCount: nat): Result<seq<u64>, FormatError> {
    var body :- SectionBody(bytes, entry);
    if |body| % 8 != 0 || |body| / 8 != rowCount then Err(Decode)
    else Ok(TableEntries(body))
  }

  function TableEntries(body: seq<byte>): seq<u64>
    requires |body| % 8 == 0
  {
    Pow256Values();
    seq(|body| / 8, i requires 0 <= i < |body| / 8 => FromLE(body[i * 8..i * 8 + 8]))
  }

  datatype Sections = Sections(columns: seq<Column>, raws: seq<RawSection>)

  /** One directory entry: a column, an opaque section, or the translation table, which is read later. */
  function ReadEntry(utf8: Utf8, bytes: seq<byte>, e: SectionEntry): Result<Sections, FormatError> {
    match e.kind
    case ColumnChunk =>
      var body :- SectionBody(bytes, e);
      var column :- ParseChunk(utf8, body);
      Ok(Sections([column], []))
    case TranslationTable => Ok(Sections([], []))
    case _ =>
      var body :- SectionBody(bytes, e);
      Ok(Sections([], [RawSection(e.kind, e.columnId, e.encoding, body)]))
  }

  /** The directory's first `k` entries, in order. */
  function ReadSections(utf8: Utf8, bytes: seq<byte>, entries: seq<SectionEntry>, k: nat): Result<Sections, FormatError>
    requires k <= |entries|
  {
    if k == 0 then Ok(Sections([], []))
    else
      var s :- ReadSections(utf8, bytes, entries, k - 1);
      var one :- ReadEntry(utf8, bytes, entries[k - 1]);
      Ok(Sections(s.columns + one.columns, s.raws + one.raws))
  }

  /** Trailer and footer, verified. */
  function ReadFooter(utf8: Utf8, bytes: seq<byte>): Result<Footer, FormatError>
    requires |bytes| >= PREAMBLE_LEN + TRAILER_LEN
  {
    var footerEnd := |bytes| - TRAILER_LEN;
    var trailer := bytes[footerEnd..];
    var expected, footerLen, endMagic := FromLE(trailer[0..4]), FromLE(trailer[4..12]), FromLE(trailer[12..16]);
    if endMagic != MAGIC then Err(BadMagic(MAGIC, endMagic))
    else if footerLen > footerEnd || footerEnd - footerLen < PREAMBLE_LEN then Err(Truncated)
    else
      var footerBytes := bytes[footerEnd - footerLen..footerEnd];
      var found := Crc32c(footerBytes);
      if found != expected then Err(FooterCrcMismatch(expected, found))
      else ParseFooter(utf8, footerBytes)
  }

  /** Read and validate a complete file. */
  function ReadFile(utf8: Utf8, bytes: seq<byte>): Result<LlFile, FormatError> {
    if |bytes| < PREAMBLE_LEN + TRAILER_LEN then Err(Truncated)
    else
      var footer :- ReadFooter(utf8, bytes);
      var preamble :- DecodePreamble(bytes[0..PREAMBLE_LEN]);
      if preamble.rowCount != footer.rowCount || preamble.fileUuid != footer.fileUuid then Err(Decode)
      else
        var s :- ReadSections(utf8, bytes, footer.sections, |footer.sections|);
        match footer.Section(TranslationTable)
        case None => Err(Decode)
        case Some(entry) =>
          var table :- ReadTable(bytes, entry, footer.rowCount);
          Ok(LlFile(preamble, footer, s.columns, s.raws, table))
  }

  // ---- round trip ----

  /** Every body is where its directory entry says, and the footer and trailer end the file. */
  lemma FrameLayout(preamble: seq<byte>, parts: seq<RawSection>, footerBytes: seq<byte>, i: nat)
    requires |preamble| == PREAMBLE_LEN
    ensures var bytes := Framed(preamble, parts, footerBytes);
            && |bytes| == Offset(parts, |parts|) + |footerBytes| + TRAILER_LEN
            && bytes[..PREAMBLE_LEN] == preamble
            && (i < |parts| ==> At(bytes, Offset(parts, i), parts[i].bytes))
            && bytes[Offset(parts, |parts|)..|bytes| - TRAILER_LEN] == footerBytes
            && bytes[|bytes| - TRAILER_LEN..] == Trailer(footerBytes)
  {
    hide Flat, Trailer;
    var bodies := Bodies(parts);
    var bytes := Framed(preamble, parts, footerBytes);
    assert bodies[..|parts|] == bodies;
    if i < |parts| {
      FlatAt(bodies, i);
      assert At(bytes, PREAMBLE_LEN, Flat(bodies));
      AtInner(bytes, PREAMBLE_LEN, Flat(bodies), |Flat(bodies[..i])|, bodies[i]);
    }
  }

  lemma TrailerFields(footerBytes: seq<byte>)
    requires |footerBytes| < U64_LIMIT
    ensures var t := Trailer(footerBytes);
            FromLE(t[0..4]) == Crc32c(footerBytes) && FromLE(t[4..12]) == |footerBytes| && FromLE(t[12..16]) == MAGIC
  {
    var t := Trailer(footerBytes);
    assert t[0..4] == LE(4, Crc32c(footerBytes)) && t[4..12] == LE(8, |footerBytes|) && t[12..16] == LE(4, MAGIC);
    Pow256Values();
    FromLEofLE(4, Crc32c(footerBytes));
    FromLEofLE(8, |footerBytes|);
    FromLEofLE(4, MAGIC);
  }

  /** Whatever lies before it, a footer in its frame is found, and parsed if its CRC is right. */
  lemma FooterIsRead(utf8: Utf8, bytes: seq<byte>, start: nat, stored: seq<byte>)
    requires PREAMBLE_LEN <= start && |stored| < U64_LIMIT && |bytes| == start + |stored| + TRAILER_LEN
    requires bytes[|bytes| - TRAILER_LEN..] == Trailer(stored)
    ensures var found := bytes[start..|bytes| - TRAILER_LEN];
            ReadFooter(utf8, bytes) ==
            if Crc32c(found) != Crc32c(stored) then Err(FooterCrcMismatch(Crc32c(stored), Crc32c(found)))
            else ParseFooter(utf8, found)
  {
    hide Trailer, Crc32c, ParseFooter, FromLE;
    TrailerFields(stored);
  }

  lemma TableRoundTrip(table: seq<u64>)
    ensures |LEs(8, table)| % 8 == 0 && |LEs(8, table)| / 8 == |table|
    ensures TableEntries(LEs(8, table)) == table
  {
    LEsLength(8, table);
    Pow256Values();
    forall i | 0 <= i < |table|
      ensures FromLE(LEs(8, table)[i * 8..i * 8 + 8]) == table[i]
    {
      LEsAt(8, table, i);
      FromLEofLE(8, table[i]);
    }
  }

  /** What section `k` of an accepted file reads as. */
  function SectionsOf(f: FileInput, k: nat): Sections
    requires k <= |f.columns| + |f.extra| + 1
  {
    Sections(f.columns[..Min(k, |f.columns|)], f.extra[..Min(if k < |f.columns| then 0 else k - |f.columns|, |f.extra|)])
  }

  lemma SectionRead(bytes: seq<byte>, parts: seq<RawSection>, i: nat)
    requires i < |parts| && BodiesFit(parts) && At(bytes, Offset(parts, i), parts[i].bytes)
    ensures SectionBody(bytes, Entry(parts, i)) == Ok(parts[i].bytes)
  {
    hide At, Offset, Crc32c;
    EntryExact(parts, i);
    SliceAt(bytes, Offset(parts, i), parts[i].bytes);
  }

  lemma ColumnSound(utf8: Utf8, f: FileInput, i: nat)
    requires f.Typed(utf8) && f.Accepted() && i < |f.columns|
    ensures Sound(utf8, f.columns[i].values)
  {
    assert f.columns[i] in f.columns;
    assert ColumnAccepted(f.columns[i], f.meta.rowCount);
  }

  /** What directory entry `k` of an accepted file contributes. */
  function EntryContents(f: FileInput, k: nat): Sections
    requires k < |f.columns| + |f.extra| + 1
  {
    if k < |f.columns| then Sections([f.columns[k]], [])
    else if k < |f.columns| + |f.extra| then Sections([], [f.extra[k - |f.columns|]])
    else Sections([], [])
  }

  lemma ContentsAddUp(f: FileInput, k: nat)
    requires k < |f.columns| + |f.extra| + 1
    ensures SectionsOf(f, k + 1).columns == SectionsOf(f, k).columns + EntryContents(f, k).columns
    ensures SectionsOf(f, k + 1).raws == SectionsOf(f, k).raws + EntryContents(f, k).raws
  {
  }

  lemma EntryRead(utf8: Utf8, f: FileInput, bytes: seq<byte>, k: nat)
    requires Fits(f) && f.Typed(utf8) && f.Accepted() && k < |Parts(f)|
    requires At(bytes, Offset(Parts(f), k), Parts(f)[k].bytes)
    ensures ReadEntry(utf8, bytes, Entry(Parts(f), k)) == Ok(EntryContents(f, k))
  {
    hide At, Offset, Entry, EncodedChunk, ParseChunk, SectionBody, FooterOf, BodiesFit, ChunkFits, LEs, Sound,
      EncodedFooter, Footer.Fits;
    var parts, n := Parts(f), |f.columns|;
    SectionRead(bytes, parts, k);
    if k < n {
      ColumnSound(utf8, f, k);
      ChunkRoundTrip(utf8, f.columns[k], Rpp(f.rowsPerPage));
    } else if k < n + |f.extra| {
      assert parts[k] == f.extra[k - n] && parts[k] in f.extra;
    }
  }

  lemma {:induction false} SectionsRead(utf8: Utf8, f: FileInput, bytes: seq<byte>, k: nat)
    requires Fits(f) && f.Typed(utf8) && f.Accepted() && k <= |Parts(f)|
    requires forall i :: 0 <= i < |Parts(f)| ==> At(bytes, Offset(Parts(f), i), Parts(f)[i].bytes)
    ensures ReadSections(utf8, bytes, Entries(Parts(f)), k) == Ok(SectionsOf(f, k))
  {
    hide At, Offset, ReadEntry, Entry, Fits, FileInput.Typed, FileInput.Accepted, Parts, SectionsOf, EntryContents;
    if k == 0 {
      assert f.columns[..0] == [] && f.extra[..0] == [];
      assert SectionsOf(f, 0) == Sections([], []) by { NoSections(f); }
    } else {
      SectionsRead(utf8, f, bytes, k - 1);
      assert Fits(f) ==> BodiesFit(Parts(f)) by { FitsMeans(f); }
      EntryRead(utf8, f, bytes, k - 1);
      ContentsAddUp(f, k - 1);
    }
  }

  lemma NoSections(f: FileInput)
    ensures SectionsOf(f, 0) == Sections([], [])
  {
  }

  lemma FitsMeans(f: FileInput)
    ensures Fits(f) ==> f.WellTyped() && BodiesFit(Parts(f))
  {
  }

  /** The first translation table in the directory is the one written last. */
  lemma {:induction false} TableEntryFound(entries: seq<SectionEntry>)
    requires entries != [] && entries[|entries| - 1].kind == TranslationTable
    requires forall i :: 0 <= i < |entries| - 1 ==> entries[i].kind != TranslationTable
    ensures FirstOf(entries, TranslationTable) == Some(entries[|entries| - 1])
  {
    if |entries| > 1 {
      TableEntryFound(entries[1..]);
    }
  }

  lemma OnlyLastIsTable(f: FileInput)
    requires f.WellTyped() && f.Accepted()
    ensures forall i :: 0 <= i < |Parts(f)| - 1 ==> Parts(f)[i].kind != TranslationTable
    ensures Parts(f)[|Parts(f)| - 1] == TableSection(f.translationTable)
  {
    hide EncodedChunk, LEs;
    var parts := Parts(f);
    forall i | 0 <= i < |parts| - 1
      ensures parts[i].kind != TranslationTable
    {
      if |f.columns| <= i {
        assert parts[i] == f.extra[i - |f.columns|] && parts[i] in f.extra;
      }
    }
  }

  lemma OneTable(f: FileInput)
    requires Fits(f) && f.Accepted()
    ensures FooterOf(f).Section(TranslationTable) == Some(Entry(Parts(f), |Parts(f)| - 1))
    ensures Parts(f)[|Parts(f)| - 1] == TableSection(f.translationTable)
  {
    hide Crc32c, Offset, Parts, LEs, BodiesFit, ColumnZones, EncodedFooter;
    OnlyLastIsTable(f);
    TableEntryFound(Entries(Parts(f)));
  }

  /** Reading back a written file returns everything that was put in. */
  lemma FileRoundTrip(utf8: Utf8, f: FileInput)
    requires f.Typed(utf8) && f.Accepted() && Fits(f)
    ensures ReadFile(utf8, EncodedFile(f)) == Ok(FileOf(f))
  {
    hide At, Offset, Trailer, EncodedFooter, ParseFooter, ReadFooter, EncodedPreamble, DecodePreamble, Parts, Entry,
      ReadSections, ReadTable, TableEntries, Crc32c, ColumnZones, Flat;
    var parts, footer, bytes := Parts(f), FooterOf(f), EncodedFile(f);
    var preamble, footerBytes := EncodedPreamble(f.Head()), EncodedFooter(footer);
    FrameLayout(preamble, parts, footerBytes, 0);
    FooterIsRead(utf8, bytes, Offset(parts, |parts|), footerBytes);
    FooterRoundTrip(utf8, footer);
    PreambleRoundTrip(f.Head(), []);
    assert preamble + [] == preamble;
    forall i | 0 <= i < |parts|
      ensures At(bytes, Offset(parts, i), parts[i].bytes)
    {
      FrameLayout(preamble, parts, footerBytes, i);
    }
    SectionsRead(utf8, f, bytes, |parts|);
    assert SectionsOf(f, |parts|) == Sections(f.columns, f.extra);
    OneTable(f);
    TableRead(f, bytes);
  }

  lemma TableRead(f: FileInput, bytes: seq<byte>)
    requires Fits(f) && f.Accepted()
    requires At(bytes, Offset(Parts(f), |Parts(f)| - 1), Parts(f)[|Parts(f)| - 1].bytes)
    ensures ReadTable(bytes, Entry(Parts(f), |Parts(f)| - 1), f.meta.rowCount) == Ok(f.translationTable)
  {
    hide At, Offset, Entry, TableEntries, SectionBody, LEs, FooterOf, BodiesFit;
    SectionRead(bytes, Parts(f), |Parts(f)| - 1);
    OneTable(f);
    TableRoundTrip(f.translationTable);
  }

  // ---- corruption ----

  /** `after` is `before` with the `len` bytes at `off` overwritten. */
  ghost predicate Overwritten(before: seq<byte>, after: seq<byte>, off: nat, len: nat) {
    && |after| == |before| && off + len <= |before|
    && after[..off] == before[..off] && after[off + len..] == before[off + len..]
  }

  lemma OverwrittenKeeps(before: seq<byte>, after: seq<byte>, off: nat, len: nat, lo: nat, hi: nat)
    requires Overwritten(before, after, off, len) && lo <= hi <= |before| && (hi <= off || off + len <= lo)
    ensures after[lo..hi] == before[lo..hi]
  {
    forall k | lo <= k < hi
      ensures after[k] == before[k]
    {
      if k < off {
        assert after[..off][k] == before[..off][k];
      } else {
        var d := off + len;
        assert after[d..][k - d] == before[d..][k - d];
      }
    }
  }

  /** `after` is `before` but for a burst of up to 32 bits inside the `len` bytes at `off`. */
  ghost predicate BurstIn(before: seq<byte>, after: seq<byte>, off: nat, len: nat) {
    Overwritten(before, after, off, len) && Burst(before[off..off + len], after[off..off + len])
  }

  function FooterStart(f: FileInput): nat
    requires Fits(f)
  {
    Offset(Parts(f), |Parts(f)|)
  }

  function FooterLen(f: FileInput): nat
    requires Fits(f)
  {
    |EncodedFooter(FooterOf(f))|
  }

  /** A burst of up to 32 bits inside the footer is caught by the footer's CRC. */
  lemma FooterBurstDetected(utf8: Utf8, f: FileInput, after: seq<byte>)
    requires Fits(f) && BurstIn(EncodedFile(f), after, FooterStart(f), FooterLen(f))
    ensures ReadFile(utf8, after).Err? && ReadFile(utf8, after).error.FooterCrcMismatch?
  {
    hide Offset, Trailer, EncodedFooter, ParseFooter, ReadFooter, EncodedPreamble, Parts, Crc32c, FooterOf, Burst, Footer.Fits,
      BodiesFit, Framed, ReadSections, ReadTable;
    var parts, before := Parts(f), EncodedFile(f);
    var preamble, footerBytes := EncodedPreamble(f.Head()), EncodedFooter(FooterOf(f));
    FrameLayout(preamble, parts, footerBytes, 0);
    var start, n := Offset(parts, |parts|), |before| - TRAILER_LEN;
    OverwrittenKeeps(before, after, start, n - start, n, |before|);
    assert after[n..] == after[n..|after|] && before[n..] == before[n..|before|];
    FooterIsRead(utf8, after, start, footerBytes);
    BurstChangesCrc(before[start..n], after[start..n]);
  }

  lemma {:induction false} SectionsNeedBodies(utf8: Utf8, bytes: seq<byte>, entries: seq<SectionEntry>, k: nat, i: nat)
    requires i < k <= |entries| && entries[i].kind != TranslationTable
    requires ReadSections(utf8, bytes, entries, k).Ok?
    ensures SectionBody(bytes, entries[i]).Ok?
  {
    hide ParseChunk, SectionBody;
    if i < k - 1 {
      SectionsNeedBodies(utf8, bytes, entries, k - 1, i);
    }
  }

  /** A burst of up to 32 bits inside any section body is caught. */
  lemma SectionBurstDetected(utf8: Utf8, f: FileInput, i: nat, after: seq<byte>)
    requires f.Typed(utf8) && f.Accepted() && Fits(f) && i < |Parts(f)|
    requires BurstIn(EncodedFile(f), after, Offset(Parts(f), i), |Parts(f)[i].bytes|)
    ensures ReadFile(utf8, after).Err?
  {
    hide Offset, Trailer, EncodedFooter, ParseFooter, ReadFooter, EncodedPreamble, Parts, Crc32c, Burst, Entry,
      ReadSections, Footer.Section, SectionBody, At, FileInput.Typed, DecodePreamble, Framed, ColumnZones, Footer.Fits;
    var parts, before := Parts(f), EncodedFile(f);
    var preamble, footerBytes := EncodedPreamble(f.Head()), EncodedFooter(FooterOf(f));
    var off, len, start, n := Offset(parts, i), |parts[i].bytes|, Offset(parts, |parts|), |before| - TRAILER_LEN;
    FrameLayout(preamble, parts, footerBytes, i);
    OffsetBound(parts, i);
    OffsetBound(parts, i + 1);
    OverwrittenKeeps(before, after, off, len, n, |before|);
    assert after[n..] == after[n..|after|] && before[n..] == before[n..|before|];
    OverwrittenKeeps(before, after, off, len, start, n);
    FooterIsRead(utf8, after, start, footerBytes);
    assert f.Typed(utf8) ==> utf8(f.meta.writerVersion) by { TypedMeans(utf8, f); }
    FooterRoundTrip(utf8, FooterOf(f));
    assert ReadFooter(utf8, after) == Ok(FooterOf(f));
    BodyRejected(before, after, parts, i);
    if ReadFile(utf8, after).Ok? {
      DirectoryIs(f, i);
      if parts[i].kind == TranslationTable {
        OnlyLastIsTable(f);
        OneTable(f);
      } else {
        SectionsNeedBodies(utf8, after, FooterOf(f).sections, |parts|, i);
      }
      assert false;
    }
  }

  lemma TypedMeans(utf8: Utf8, f: FileInput)
    ensures f.Typed(utf8) ==> utf8(f.meta.writerVersion)
  {
  }

  lemma DirectoryIs(f: FileInput, i: nat)
    requires Fits(f) && i < |Parts(f)|
    ensures |FooterOf(f).sections| == |Parts(f)| && FooterOf(f).sections[i] == Entry(Parts(f), i)
  {
    hide Entry, Parts, ColumnZones, Offset, EncodedFooter;
  }

  lemma BodyRejected(before: seq<byte>, after: seq<byte>, parts: seq<RawSection>, i: nat)
    requires i < |parts| && BodiesFit(parts)
    requires At(before, Offset(parts, i), parts[i].bytes) && |after| == |before|
    requires var off, len := Offset(parts, i), |parts[i].bytes|; Burst(before[off..off + len], after[off..off + len])
    ensures SectionBody(after, Entry(parts, i)).Err?
  {
    hide Offset, Crc32c, Burst;
    EntryExact(parts, i);
    var off, len := Offset(parts, i), |parts[i].bytes|;
    BurstChangesCrc(before[off..off + len], after[off..off + len]);
  }

  // ---- the code ----

  /** The column checks of `write_file_with`, in the order it makes them. */
  method CheckColumns(columns: seq<Column>, rowCount: nat) returns (ok: bool)
    ensures ok <==> forall c <- columns :: ColumnAccepted(c, rowCount)
  {
    for i := 0 to |columns|
      invariant forall k :: 0 <= k < i ==> ColumnAccepted(columns[k], rowCount)
    {
      var c := columns[i];
      if |c.values.cells| != rowCount {
        assert !ColumnAccepted(columns[i], rowCount);
        return false;
      }
      for j := 0 to |c.values.cells|
        invariant forall k :: 0 <= k < j ==> (c.values.cells[k].Some? ==> DimOk(c.values.dim, c.values.cells[k].value))
      {
        if c.values.cells[j].Some? && !DimOk(c.values.dim, c.values.cells[j].value) {
          assert c.values.cells[j] in c.values.cells;
          assert !ColumnAccepted(columns[i], rowCount);
          return false;
        }
      }
    }
    ok := true;
  }

  method CheckExtra(extra: seq<RawSection>) returns (ok: bool)
    ensures ok <==> forall s <- extra :: !Reserved(s.kind)
  {
    for i := 0 to |extra|
      invariant forall k :: 0 <= k < i ==> !Reserved(extra[k].kind)
    {
      if Reserved(extra[i].kind) {
        return false;
      }
    }
    ok := true;
  }

  /** The file under construction: bytes so far and the directory of the sections in them. */
  class FileBuilder {
    var buf: seq<byte>
    var sections: seq<SectionEntry>

    /** `buf` is the preamble and the first `k` bodies of `parts`, `sections` their entries. */
    ghost predicate Holds(preamble: seq<byte>, parts: seq<RawSection>, k: nat)
      reads this
    {
      && |preamble| == PREAMBLE_LEN && k <= |parts|
      && buf == preamble + Flat(Bodies(parts)[..k])
      && sections == Entries(parts)[..k]
    }

    constructor (preamble: seq<byte>)
      ensures buf == preamble && sections == []
    {
      buf := preamble;
      sections := [];
    }

    /** Append one section's body and its directory entry. */
    method AddSection(s: RawSection, ghost preamble: seq<byte>, ghost parts: seq<RawSection>, ghost k: nat)
      requires Holds(preamble, parts, k) && k < |parts| && s == parts[k]
      modifies this
      ensures Holds(preamble, parts, k + 1)
    {
      hide Flat, Crc32c;
      FlatSnoc(Bodies(parts), k);
      var offset := |buf|;
      var crc := ComputeCrc32c(s.bytes);
      buf := buf + s.bytes;
      sections := sections + [SectionEntry(s.kind, s.encoding, s.columnId, ToU64(offset), ToU64(|s.bytes|), crc)];
      assert sections[k] == Entry(parts, k);
    }
  }

  method EncodeTable(table: seq<u64>) returns (body: seq<byte>)
    ensures body == LEs(8, table)
  {
    hide LE;
    body := [];
    for i := 0 to |table|
      invariant body == LEs(8, table[..i])
    {
      LEsSnoc(8, table, i);
      body := body + LE(8, table[i]);
    }
    assert table[..|table|] == table;
  }

  /** `write_file_with`, returning the bytes it would put on disk. */
  method WriteFileWith(f: FileInput) returns (r: Result<seq<byte>, FormatError>)
    requires f.WellTyped()
    ensures r == if f.Accepted() then Ok(EncodedFile(f)) else Err(Decode)
  {
    hide Flat, Fits, Parts, Bodies, BodiesFit, FooterOf, Framed, ColumnAccepted, ZoneMapsOf, EncodedFooter, EncodedChunk;
    if |f.translationTable| != f.meta.rowCount {
      return Err(Decode);
    }
    var columnsOk := CheckColumns(f.columns, f.meta.rowCount);
    if !columnsOk {
      return Err(Decode);
    }
    var extraOk := CheckExtra(f.extra);
    if !extraOk {
      return Err(Decode);
    }
    var bytes := BuildFile(f);
    r := Ok(bytes);
  }

  method BuildFile(f: FileInput) returns (bytes: seq<byte>)
    requires f.WellTyped()
    ensures bytes == EncodedFile(f)
  {
    hide Flat, Bodies, BodiesFit, EncodedFooter, EncodedChunk, EncodedPreamble, Entries, ChunkFits, Trailer,
      Footer.Fits, LEs, ZoneMapsOf, FileBuilder.Holds, T.ColumnValues.WellTyped;
    var rpp := Rpp(f.rowsPerPage);
    ghost var parts := Parts(f);
    var pre := EncodePreamble(f.Head());
    var preamble := pre[..];
    var b := new FileBuilder(preamble);
    StartsEmpty(b, preamble, parts);

    var zoneMaps: seq<ZoneMap> := [];
    for i := 0 to |f.columns|
      invariant b.Holds(preamble, parts, i) && zoneMaps == ColumnZones(f, i)
    {
      assert f.columns[i] in f.columns;
      var chunk, zones := EncodeColumnChunk(f.columns[i], f.rowsPerPage, f.stats);
      b.AddSection(RawSection(ColumnChunk, f.columns[i].columnId, Plain, chunk), preamble, parts, i);
      zoneMaps := zoneMaps + zones;
    }
    for i := 0 to |f.extra|
      invariant b.Holds(preamble, parts, |f.columns| + i)
    {
      b.AddSection(f.extra[i], preamble, parts, |f.columns| + i);
    }
    var table := EncodeTable(f.translationTable);
    b.AddSection(RawSection(TranslationTable, 0, Plain, table), preamble, parts, |f.columns| + |f.extra|);
    AllEntries(b, preamble, parts);

    var m := f.meta;
    var footer := Footer(m.fileUuid, FORMAT_VERSION, m.minLsn, m.maxLsn, m.rowCount, m.schemaFingerprint, m.schemaBlob,
                         b.sections, zoneMaps, m.mvcc, m.writerVersion);
    var footerBytes := EncodeFooter(footer);
    var crc := ComputeCrc32c(footerBytes);
    assert Trailer(footerBytes) == TrailerOf(crc, |footerBytes|) by { TrailerIs(footerBytes); }
    bytes := b.buf + footerBytes + TrailerOf(crc, |footerBytes|);
  }

  lemma TrailerIs(footerBytes: seq<byte>)
    ensures Trailer(footerBytes) == TrailerOf(Crc32c(footerBytes), |footerBytes|)
  {
  }

  lemma StartsEmpty(b: FileBuilder, preamble: seq<byte>, parts: seq<RawSection>)
    requires b.buf == preamble && b.sections == [] && |preamble| == PREAMBLE_LEN
    ensures b.Holds(preamble, parts, 0)
  {
    FlatNone(Bodies(parts));
  }

  lemma AllEntries(b: FileBuilder, preamble: seq<byte>, parts: seq<RawSection>)
    requires b.Holds(preamble, parts, |parts|)
    ensures b.buf == preamble + Flat(Bodies(parts)) && b.sections == Entries(parts)
  {
    assert Bodies(parts)[..|parts|] == Bodies(parts);
  }

  method GetSectionBody(bytes: seq<byte>, entry: SectionEntry) returns (r: Result<seq<byte>, FormatError>)
    ensures r == SectionBody(bytes, entry)
  {
    var body :- SliceOf(bytes, entry.offset, entry.length);
    var found := ComputeCrc32c(body);
    r := if found != entry.crc32 then Err(SectionCrcMismatch(entry.crc32, found)) else Ok(body);
  }

  method ReadTranslationTable(bytes: seq<byte>, entry: SectionEntry, rowCount: nat) returns (r: Result<seq<u64>, FormatError>)
    ensures r == ReadTable(bytes, entry, rowCount)
  {
    hide SectionBody;
    var body :- GetSectionBody(bytes, entry);
    if |body| % 8 != 0 {
      return Err(Decode);
    }
    var count := |body| / 8;
    if count != rowCount {
      return Err(Decode);
    }
    var out: seq<u64> := [];
    Pow256Values();
    for i := 0 to count
      invariant out == TableEntries(body)[..i]
    {
      out := out + [FromLE(body[i * 8..i * 8 + 8])];
    }
    assert TableEntries(body)[..count] == TableEntries(body);
    r := Ok(out);
  }

  lemma {:induction false} SectionsStop(utf8: Utf8, bytes: seq<byte>, entries: seq<SectionEntry>, k: nat)
    requires k <= |entries| && ReadSections(utf8, bytes, entries, k).Err?
    ensures ReadSections(utf8, bytes, entries, |entries|) == ReadSections(utf8, bytes, entries, k)
    decreases |entries| - k
  {
    hide ReadEntry;
    if k < |entries| {
      SectionsStop(utf8, bytes, entries, k + 1);
    }
  }

  /** The section loop of `read_file`. */
  method ReadAllSections(utf8: Utf8, bytes: seq<byte>, entries: seq<SectionEntry>) returns (r: Result<Sections, FormatError>)
    ensures r == ReadSections(utf8, bytes, entries, |entries|)
  {
    hide ParseChunk, SectionBody;
    var columns: seq<Column> := [];
    var raws: seq<RawSection> := [];
    for i := 0 to |entries|
      invariant ReadSections(utf8, bytes, entries, i) == Ok(Sections(columns, raws))
    {
      var e := entries[i];
      assert columns + [] == columns && raws + [] == raws;
      match e.kind {
        case ColumnChunk =>
          var body := GetSectionBody(bytes, e);
          if body.Err? {
            SectionsStop(utf8, bytes, entries, i + 1);
            return Err(body.error);
          }
          var column := DecodeColumnChunk(utf8, body.value);
          if column.Err? {
            SectionsStop(utf8, bytes, entries, i + 1);
            return Err(column.error);
          }
          columns := columns + [column.value];
        case TranslationTable =>
        case _ =>
          var body := GetSectionBody(bytes, e);
          if body.Err? {
            SectionsStop(utf8, bytes, entries, i + 1);
            return Err(body.error);
          }
          raws := raws + [RawSection(e.kind, e.columnId, e.encoding, body.value)];
      }
    }
    r := Ok(Sections(columns, raws));
  }

  /** `read_file` on the file's bytes. */
  method ReadLlFile(utf8: Utf8, bytes: seq<byte>) returns (r: Result<LlFile, FormatError>)
    ensures r == ReadFile(utf8, bytes)
  {
    hide ReadSections, ReadTable, ParseFooter, Crc32c, DecodePreamble, FromLE;
    var len := |bytes|;
    if len < PREAMBLE_LEN + TRAILER_LEN {
      return Err(Truncated);
    }
    var trailer := bytes[len - TRAILER_LEN..];
    var expected, footerLen, endMagic := FromLE(trailer[0..4]), FromLE(trailer[4..12]), FromLE(trailer[12..16]);
    if endMagic != MAGIC {
      return Err(BadMagic(MAGIC, endMagic));
    }
    var footerEnd := len - TRAILER_LEN;
    if footerLen > footerEnd || footerEnd - footerLen < PREAMBLE_LEN {
      return Err(Truncated);
    }
    var footerBytes := bytes[footerEnd - footerLen..footerEnd];
    var found := ComputeCrc32c(footerBytes);
    if found != expected {
      return Err(FooterCrcMismatch(expected, found));
    }
    var footer :- DecodeFooter(utf8, footerBytes);
    var preamble :- DecodePreamble(bytes[0..PREAMBLE_LEN]);
    if preamble.rowCount != footer.rowCount || preamble.fileUuid != footer.fileUuid {
      return Err(Decode);
    }
    var s :- ReadAllSections(utf8, bytes, footer.sections);
    var entry := footer.Section(TranslationTable);
    if entry.None? {
      return Err(Decode);
    }
    var table :- ReadTranslationTable(bytes, entry.value, footer.rowCount);
    r := Ok(LlFile(preamble, footer, s.columns, s.raws, table));
  }
}
