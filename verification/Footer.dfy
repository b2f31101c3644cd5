/** The footer: the file's table of contents, its section directory and zone maps. */
module Footers {
  import opened Wrappers
  import opened Bytes
  import opened Cursors
  import opened Preambles

  const FOOTER_CODEC_VERSION: u16 := 1

  datatype SectionType = ColumnChunk | Hnsw | Text | Edge | OptimizerStats | TranslationTable {
    function Tag(): byte {
      match this
      case ColumnChunk => 0
      case Hnsw => 1
      case Text => 2
      case Edge => 3
      case OptimizerStats => 4
      case TranslationTable => 5
    }

    static function FromTag(v: byte): Result<SectionType, FormatError> {
      match v
      case 0 => Ok(ColumnChunk)
      case 1 => Ok(Hnsw)
      case 2 => Ok(Text)
      case 3 => Ok(Edge)
      case 4 => Ok(OptimizerStats)
      case 5 => Ok(TranslationTable)
      case _ => Err(Decode)
    }
  }

  datatype SectionEncoding = Plain | Delta | Pfor {
    function Tag(): byte {
      match this
      case Plain => 0
      case Delta => 1
      case Pfor => 2
    }

    static function FromTag(v: byte): Result<SectionEncoding, FormatError> {
      match v
      case 0 => Ok(Plain)
      case 1 => Ok(Delta)
      case 2 => Ok(Pfor)
      case _ => Err(Decode)
    }
  }

  datatype SectionEntry = SectionEntry(
    kind: SectionType,
    encoding: SectionEncoding,
    columnId: u32,
    offset: u64,
    length: u64,
    crc32: u32
  )

  /** Per-page statistics; `f32` values are carried as their bits. */
  datatype ZoneMap = ZoneMap(
    columnId: u32,
    pageIndex: u32,
    min: seq<byte>,
    max: seq<byte>,
    nullCount: u64,
    distinctEstimate: u64,
    total: u64,
    centroid: seq<u32>,
    maxRadius: u32
  ) {
    predicate Fits() {
      |min| < U32_LIMIT && |max| < U32_LIMIT && |centroid| < U32_LIMIT
    }
  }

  datatype MvccSummary = MvccSummary(minXmin: u64, maxXmax: u64, tombstoneCount: u64, liveCount: u64)

  datatype Footer = Footer(
    fileUuid: Uuid,
    formatVersion: u16,
    minLsn: u64,
    maxLsn: u64,
    rowCount: u64,
    schemaFingerprint: u64,
    schemaBlob: seq<byte>,
    sections: seq<SectionEntry>,
    zoneMaps: seq<ZoneMap>,
    mvcc: MvccSummary,
    writerVersion: seq<byte>
  ) {
    /** The first section of a given type. */
    function Section(kind: SectionType): Option<SectionEntry> {
      FirstOf(sections, kind)
    }

    /** Every length fits the 32-bit field it is written to. */
    predicate Fits() {
      && |schemaBlob| < U32_LIMIT && |writerVersion| < U32_LIMIT
      && |sections| < U32_LIMIT && |zoneMaps| < U32_LIMIT
      && forall z <- zoneMaps :: z.Fits()
    }
  }

  function FirstOf(sections: seq<SectionEntry>, kind: SectionType): Option<SectionEntry> {
    if sections == [] then None
    else if sections[0].kind == kind then Some(sections[0])
    else FirstOf(sections[1..], kind)
  }

  // ---- lists of entries ----

  /** Encode `xs` one after the other, followed by `rest`. */
  function EncodedMany<T>(xs: seq<T>, enc: (T, seq<byte>) -> seq<byte>, rest: seq<byte>): seq<byte> {
    if xs == [] then rest else enc(xs[0], EncodedMany(xs[1..], enc, rest))
  }

  function ParseMany<T>(n: nat, s: seq<byte>, parse: seq<byte> -> Cursor<T>): (r: Cursor<seq<T>>)
    ensures r.Ok? ==> |r.value.0| == n
  {
    if n == 0 then Ok(([], s))
    else
      var (x, s') :- parse(s);
      var (more, s'') :- ParseMany(n - 1, s', parse);
      Ok(([x] + more, s''))
  }

  /** Prepend entries already read to those still to come. */
  function Prepend<T>(xs: seq<T>, c: Cursor<seq<T>>): Cursor<seq<T>> {
    if c.Ok? && xs != [] then Ok((xs + c.value.0, c.value.1)) else c
  }

  /** One turn of a loop that reads entries and pushes them. */
  lemma PrependStep<T>(xs: seq<T>, n: nat, s: seq<byte>, parse: seq<byte> -> Cursor<T>)
    requires n > 0
    ensures Prepend(xs, ParseMany(n, s, parse)) ==
            match parse(s)
            case Ok((x, s')) => Prepend(xs + [x], ParseMany(n - 1, s', parse))
            case Err(e) => Err(e)
  {
    if parse(s).Ok? && ParseMany(n - 1, parse(s).value.1, parse).Ok? {
      var (x, s') := parse(s).value;
      var more := ParseMany(n - 1, s', parse).value.0;
      if xs == [] {
        assert xs + [x] == [x];
      }
      assert (xs + [x]) + more == xs + ([x] + more);
    }
  }

  /** A list of entries reads back when each entry does. */
  lemma {:induction false} ManyRoundTrip<T(!new)>(
      xs: seq<T>, enc: (T, seq<byte>) -> seq<byte>, parse: seq<byte> -> Cursor<T>, rest: seq<byte>)
    requires forall x, r | x in xs :: parse(enc(x, r)) == Ok((x, r))
    ensures ParseMany(|xs|, EncodedMany(xs, enc, rest), parse) == Ok((xs, rest))
  {
    if xs != [] {
      ManyRoundTrip(xs[1..], enc, parse, rest);
      assert [xs[0]] + xs[1..] == xs;
    }
  }

  // ---- the parts of the footer ----

  function EncodedSection(s: SectionEntry, rest: seq<byte>): seq<byte> {
    [s.kind.Tag()] + ([s.encoding.Tag()] + (LE(4, s.columnId) + (LE(8, s.offset) + (LE(8, s.length)
    + (LE(4, s.crc32) + rest)))))
  }

  function ParseSection(s: seq<byte>): Cursor<SectionEntry> {
    var (k, s) :- ReadU8(s);
    var kind :- SectionType.FromTag(k);
    var (e, s) :- ReadU8(s);
    var encoding :- SectionEncoding.FromTag(e);
    var (columnId, s) :- ReadU32(s);
    var (offset, s) :- ReadU64(s);
    var (length, s) :- ReadU64(s);
    var (crc32, s) :- ReadU32(s);
    Ok((SectionEntry(kind, encoding, columnId, offset, length, crc32), s))
  }

  lemma SectionRoundTrip(s: SectionEntry, rest: seq<byte>)
    ensures ParseSection(EncodedSection(s, rest)) == Ok((s, rest))
  {
    hide ReadU8, ReadU16, ReadU32, ReadU64, ReadLp, Lp, LE;
    var t4 := LE(4, s.crc32) + rest;
    var t3 := LE(8, s.length) + t4;
    var t2 := LE(8, s.offset) + t3;
    var t1 := LE(4, s.columnId) + t2;
    ReadsU8(s.kind.Tag(), [s.encoding.Tag()] + t1);
    ReadsU8(s.encoding.Tag(), t1);
    ReadsU32(s.columnId, t2);
    ReadsU64(s.offset, t3);
    ReadsU64(s.length, t4);
    ReadsU32(s.crc32, rest);
  }

  function EncodedBits(f: u32, rest: seq<byte>): seq<byte> {
    LE(4, f) + rest
  }

  function EncodedZoneMap(z: ZoneMap, rest: seq<byte>): seq<byte> {
    LE(4, z.columnId) + (LE(4, z.pageIndex) + Lp(z.min, Lp(z.max, EncodedZoneCounts(z, rest))))
  }

  function EncodedZoneCounts(z: ZoneMap, rest: seq<byte>): seq<byte> {
    LE(8, z.nullCount) + (LE(8, z.distinctEstimate) + (LE(8, z.total) + (LE(4, |z.centroid|)
    + EncodedMany(z.centroid, EncodedBits, LE(4, z.maxRadius) + rest))))
  }

  function ParseZoneMap(s: seq<byte>): Cursor<ZoneMap> {
    var (columnId, s) :- ReadU32(s);
    var (pageIndex, s) :- ReadU32(s);
    var (min, s) :- ReadLp(s);
    var (max, s) :- ReadLp(s);
    var (nullCount, s) :- ReadU64(s);
    var (distinctEstimate, s) :- ReadU64(s);
    var (total, s) :- ReadU64(s);
    var (n, s) :- ReadU32(s);
    var (centroid, s) :- ParseMany(n, s, ReadU32);
    var (maxRadius, s) :- ReadU32(s);
    Ok((ZoneMap(columnId, pageIndex, min, max, nullCount, distinctEstimate, total, centroid, maxRadius), s))
  }

  lemma ZoneMapRoundTrip(z: ZoneMap, rest: seq<byte>)
    requires z.Fits()
    ensures ParseZoneMap(EncodedZoneMap(z, rest)) == Ok((z, rest))
  {
    hide ReadU8, ReadU16, ReadU32, ReadU64, ReadLp, Lp, LE, EncodedMany, ParseMany;
    var radius := LE(4, z.maxRadius) + rest;
    var coords := EncodedMany(z.centroid, EncodedBits, radius);
    var t3 := LE(4, |z.centroid|) + coords;
    var t2 := LE(8, z.total) + t3;
    var t1 := LE(8, z.distinctEstimate) + t2;
    var counts := EncodedZoneCounts(z, rest);
    ReadsU32(z.columnId, LE(4, z.pageIndex) + Lp(z.min, Lp(z.max, counts)));
    ReadsU32(z.pageIndex, Lp(z.min, Lp(z.max, counts)));
    ReadsLp(z.min, Lp(z.max, counts));
    ReadsLp(z.max, counts);
    ReadsU64(z.nullCount, t1);
    ReadsU64(z.distinctEstimate, t2);
    ReadsU64(z.total, t3);
    ReadsU32(|z.centroid|, coords);
    CoordsRoundTrip(z.centroid, radius);
    ReadsU32(z.maxRadius, rest);
  }

  lemma CoordsRoundTrip(v: seq<u32>, rest: seq<byte>)
    ensures ParseMany(|v|, EncodedMany(v, EncodedBits, rest), ReadU32) == Ok((v, rest))
  {
    forall x: u32, r | x in v
      ensures ReadU32(EncodedBits(x, r)) == Ok((x, r))
    {
      ReadsU32(x, r);
    }
    ManyRoundTrip(v, EncodedBits, ReadU32, rest);
  }

  function EncodedHead(f: Footer, rest: seq<byte>): seq<byte> {
    LE(2, FOOTER_CODEC_VERSION) + (f.fileUuid + (LE(2, f.formatVersion) + (LE(8, f.minLsn) + (LE(8, f.maxLsn)
    + (LE(8, f.rowCount) + (LE(8, f.schemaFingerprint) + Lp(f.schemaBlob, rest)))))))
  }

  function EncodedDirectory(f: Footer, rest: seq<byte>): seq<byte> {
    LE(4, |f.sections|) + EncodedMany(f.sections, EncodedSection, rest)
  }

  function EncodedZoneMaps(f: Footer, rest: seq<byte>): seq<byte> {
    LE(4, |f.zoneMaps|) + EncodedMany(f.zoneMaps, EncodedZoneMap, rest)
  }

  function EncodedTail(f: Footer, rest: seq<byte>): seq<byte> {
    LE(4, 0) + (LE(4, 0) + (LE(8, f.mvcc.minXmin) + (LE(8, f.mvcc.maxXmax) + (LE(8, f.mvcc.tombstoneCount)
    + (LE(8, f.mvcc.liveCount) + Lp(f.writerVersion, rest))))))
  }

  /** The footer's bytes. */
  function EncodedFooter(f: Footer): seq<byte> {
    EncodedHead(f, EncodedDirectory(f, EncodedZoneMaps(f, EncodedTail(f, []))))
  }

  datatype Head = Head(
    fileUuid: Uuid, formatVersion: u16, minLsn: u64, maxLsn: u64, rowCount: u64, schemaFingerprint: u64,
    schemaBlob: seq<byte>)

  function ParseHead(s: seq<byte>): Cursor<Head> {
    var (codecVersion, s) :- ReadU16(s);
    if codecVersion != FOOTER_CODEC_VERSION then Err(Decode)
    else
      var (fileUuid, s) :- Take(s, 16);
      var (formatVersion, s) :- ReadU16(s);
      if formatVersion != FORMAT_VERSION then Err(UnsupportedVersion(formatVersion))
      else
        var (minLsn, s) :- ReadU64(s);
        var (maxLsn, s) :- ReadU64(s);
        var (rowCount, s) :- ReadU64(s);
        var (schemaFingerprint, s) :- ReadU64(s);
        var (schemaBlob, s) :- ReadLp(s);
        Ok((Head(fileUuid, formatVersion, minLsn, maxLsn, rowCount, schemaFingerprint, schemaBlob), s))
  }

  function ParseDirectory(s: seq<byte>): Cursor<seq<SectionEntry>> {
    var (n, s) :- ReadU32(s);
    ParseMany(n, s, ParseSection)
  }

  function ParseZoneMaps(s: seq<byte>): Cursor<seq<ZoneMap>> {
    var (n, s) :- ReadU32(s);
    ParseMany(n, s, ParseZoneMap)
  }

  function ParseTail(utf8: Utf8, s: seq<byte>): Cursor<(MvccSummary, seq<byte>)> {
    var (blooms, s) :- ReadU32(s);
    if blooms != 0 then Err(Decode)
    else
      var (dicts, s) :- ReadU32(s);
      if dicts != 0 then Err(Decode)
      else
        var (minXmin, s) :- ReadU64(s);
        var (maxXmax, s) :- ReadU64(s);
        var (tombstoneCount, s) :- ReadU64(s);
        var (liveCount, s) :- ReadU64(s);
        var (writerVersion, s) :- ReadLpStr(utf8, s);
        Ok(((MvccSummary(minXmin, maxXmax, tombstoneCount, liveCount), writerVersion), s))
  }

  /** The footer those bytes hold. */
  function ParseFooter(utf8: Utf8, s: seq<byte>): Result<Footer, FormatError> {
    var (h, s) :- ParseHead(s);
    var (sections, s) :- ParseDirectory(s);
    var (zoneMaps, s) :- ParseZoneMaps(s);
    var (t, s) :- ParseTail(utf8, s);
    Ok(Footer(h.fileUuid, h.formatVersion, h.minLsn, h.maxLsn, h.rowCount, h.schemaFingerprint, h.schemaBlob,
              sections, zoneMaps, t.0, t.1))
  }

  lemma HeadRoundTrip(f: Footer, rest: seq<byte>)
    requires f.Fits() && f.formatVersion == FORMAT_VERSION
    ensures ParseHead(EncodedHead(f, rest)) == Ok((Head(f.fileUuid, f.formatVersion, f.minLsn, f.maxLsn, f.rowCount,
                                                        f.schemaFingerprint, f.schemaBlob), rest))
  {
    hide ReadU8, ReadU16, ReadU32, ReadU64, ReadLp, Lp, LE;
    var blob := Lp(f.schemaBlob, rest);
    var t6 := LE(8, f.schemaFingerprint) + blob;
    var t5 := LE(8, f.rowCount) + t6;
    var t4 := LE(8, f.maxLsn) + t5;
    var t3 := LE(8, f.minLsn) + t4;
    var t2 := LE(2, f.formatVersion) + t3;
    var t1 := f.fileUuid + t2;
    ReadsU16(FOOTER_CODEC_VERSION, t1);
    TakesFront(f.fileUuid, t2);
    ReadsU16(f.formatVersion, t3);
    ReadsU64(f.minLsn, t4);
    ReadsU64(f.maxLsn, t5);
    ReadsU64(f.rowCount, t6);
    ReadsU64(f.schemaFingerprint, blob);
    ReadsLp(f.schemaBlob, rest);
  }

  lemma DirectoryRoundTrip(f: Footer, rest: seq<byte>)
    requires f.Fits()
    ensures ParseDirectory(EncodedDirectory(f, rest)) == Ok((f.sections, rest))
  {
    ReadsU32(|f.sections|, EncodedMany(f.sections, EncodedSection, rest));
    forall s, r | s in f.sections
      ensures ParseSection(EncodedSection(s, r)) == Ok((s, r))
    {
      SectionRoundTrip(s, r);
    }
    ManyRoundTrip(f.sections, EncodedSection, ParseSection, rest);
  }

  lemma ZoneMapsRoundTrip(f: Footer, rest: seq<byte>)
    requires f.Fits()
    ensures ParseZoneMaps(EncodedZoneMaps(f, rest)) == Ok((f.zoneMaps, rest))
  {
    ReadsU32(|f.zoneMaps|, EncodedMany(f.zoneMaps, EncodedZoneMap, rest));
    forall z, r | z in f.zoneMaps
      ensures ParseZoneMap(EncodedZoneMap(z, r)) == Ok((z, r))
    {
      ZoneMapRoundTrip(z, r);
    }
    ManyRoundTrip(f.zoneMaps, EncodedZoneMap, ParseZoneMap, rest);
  }

  lemma TailRoundTrip(utf8: Utf8, f: Footer, rest: seq<byte>)
    requires f.Fits() && utf8(f.writerVersion)
    ensures ParseTail(utf8, EncodedTail(f, rest)) == Ok(((f.mvcc, f.writerVersion), rest))
  {
    hide ReadU8, ReadU16, ReadU32, ReadU64, ReadLp, Lp, LE;
    var m := f.mvcc;
    var version := Lp(f.writerVersion, rest);
    var t5 := LE(8, m.liveCount) + version;
    var t4 := LE(8, m.tombstoneCount) + t5;
    var t3 := LE(8, m.maxXmax) + t4;
    var t2 := LE(8, m.minXmin) + t3;
    ReadsU32(0, LE(4, 0) + t2);
    ReadsU32(0, t2);
    ReadsU64(m.minXmin, t3);
    ReadsU64(m.maxXmax, t4);
    ReadsU64(m.tombstoneCount, t5);
    ReadsU64(m.liveCount, version);
    ReadsLp(f.writerVersion, rest);
  }

  /** A footer whose lengths fit reads back as itself. */
  lemma FooterRoundTrip(utf8: Utf8, f: Footer)
    requires f.Fits() && f.formatVersion == FORMAT_VERSION && utf8(f.writerVersion)
    ensures ParseFooter(utf8, EncodedFooter(f)) == Ok(f)
  {
    var tail := EncodedTail(f, []);
    var zones := EncodedZoneMaps(f, tail);
    HeadRoundTrip(f, EncodedDirectory(f, zones));
    DirectoryRoundTrip(f, zones);
    ZoneMapsRoundTrip(f, tail);
    TailRoundTrip(utf8, f, []);
  }

  // ---- the code ----

  method EncodeSection(w: Writer, s: SectionEntry, ghost rest: seq<byte>)
    modifies w
    ensures w.buf + rest == old(w.buf) + EncodedSection(s, rest)
  {
    hide LE, Lp;
    ghost var t4 := LE(4, s.crc32) + rest;
    ghost var t3 := LE(8, s.length) + t4;
    ghost var t2 := LE(8, s.offset) + t3;
    ghost var t1 := LE(4, s.columnId) + t2;
    w.U8(s.kind.Tag(), [s.encoding.Tag()] + t1);
    w.U8(s.encoding.Tag(), t1);
    w.U32(s.columnId, t2);
    w.U64(s.offset, t3);
    w.U64(s.length, t4);
    w.U32(s.crc32, rest);
  }

  method EncodeZoneMap(w: Writer, z: ZoneMap, ghost rest: seq<byte>)
    modifies w
    ensures w.buf + rest == old(w.buf) + EncodedZoneMap(z, rest)
  {
    hide LE, Lp;
    ghost var radius := LE(4, z.maxRadius) + rest;
    ghost var coords := EncodedMany(z.centroid, EncodedBits, radius);
    ghost var t3 := LE(4, |z.centroid|) + coords;
    ghost var t2 := LE(8, z.total) + t3;
    ghost var t1 := LE(8, z.distinctEstimate) + t2;
    ghost var counts := EncodedZoneCounts(z, rest);
    w.U32(z.columnId, LE(4, z.pageIndex) + Lp(z.min, Lp(z.max, counts)));
    w.U32(z.pageIndex, Lp(z.min, Lp(z.max, counts)));
    w.LpBytes(z.min, Lp(z.max, counts));
    w.LpBytes(z.max, counts);
    w.U64(z.nullCount, t1);
    w.U64(z.distinctEstimate, t2);
    w.U64(z.total, t3);
    w.U32(|z.centroid|, coords);
    for i := 0 to |z.centroid|
      invariant w.buf + EncodedMany(z.centroid[i..], EncodedBits, radius) == old(w.buf) + EncodedZoneMap(z, rest)
    {
      assert z.centroid[i..][1..] == z.centroid[i + 1..];
      w.U32(z.centroid[i], EncodedMany(z.centroid[i + 1..], EncodedBits, radius));
    }
    w.U32(z.maxRadius, rest);
  }

  method EncodeHead(w: Writer, f: Footer, ghost rest: seq<byte>)
    modifies w
    ensures w.buf + rest == old(w.buf) + EncodedHead(f, rest)
  {
    hide LE, Lp;
    ghost var blob := Lp(f.schemaBlob, rest);
    ghost var t6 := LE(8, f.schemaFingerprint) + blob;
    ghost var t5 := LE(8, f.rowCount) + t6;
    ghost var t4 := LE(8, f.maxLsn) + t5;
    ghost var t3 := LE(8, f.minLsn) + t4;
    ghost var t2 := LE(2, f.formatVersion) + t3;
    w.U16(FOOTER_CODEC_VERSION, f.fileUuid + t2);
    w.Append(f.fileUuid, t2);
    w.U16(f.formatVersion, t3);
    w.U64(f.minLsn, t4);
    w.U64(f.maxLsn, t5);
    w.U64(f.rowCount, t6);
    w.U64(f.schemaFingerprint, blob);
    w.LpBytes(f.schemaBlob, rest);
  }

  method EncodeTail(w: Writer, f: Footer, ghost rest: seq<byte>)
    modifies w
    ensures w.buf + rest == old(w.buf) + EncodedTail(f, rest)
  {
    hide LE, Lp;
    ghost var version := Lp(f.writerVersion, rest);
    ghost var t5 := LE(8, f.mvcc.liveCount) + version;
    ghost var t4 := LE(8, f.mvcc.tombstoneCount) + t5;
    ghost var t3 := LE(8, f.mvcc.maxXmax) + t4;
    ghost var t2 := LE(8, f.mvcc.minXmin) + t3;
    w.U32(0, LE(4, 0) + t2);
    w.U32(0, t2);
    w.U64(f.mvcc.minXmin, t3);
    w.U64(f.mvcc.maxXmax, t4);
    w.U64(f.mvcc.tombstoneCount, t5);
    w.U64(f.mvcc.liveCount, version);
    w.LpBytes(f.writerVersion, rest);
  }

  /** `Footer::encode`. */
  method EncodeFooter(f: Footer) returns (bytes: seq<byte>)
    ensures bytes == EncodedFooter(f)
  {
    hide LE, EncodedHead, EncodedTail, EncodedSection, EncodedZoneMap;
    var w := new Writer();
    ghost var tail := EncodedTail(f, []);
    ghost var zones := EncodedZoneMaps(f, tail);
    EncodeHead(w, f, EncodedDirectory(f, zones));

    w.U32(|f.sections|, EncodedMany(f.sections, EncodedSection, zones));
    for i := 0 to |f.sections|
      invariant w.buf + EncodedMany(f.sections[i..], EncodedSection, zones) == EncodedFooter(f)
    {
      assert f.sections[i..][1..] == f.sections[i + 1..];
      EncodeSection(w, f.sections[i], EncodedMany(f.sections[i + 1..], EncodedSection, zones));
    }

    w.U32(|f.zoneMaps|, EncodedMany(f.zoneMaps, EncodedZoneMap, tail));
    for i := 0 to |f.zoneMaps|
      invariant w.buf + EncodedMany(f.zoneMaps[i..], EncodedZoneMap, tail) == EncodedFooter(f)
    {
      assert f.zoneMaps[i..][1..] == f.zoneMaps[i + 1..];
      EncodeZoneMap(w, f.zoneMaps[i], EncodedMany(f.zoneMaps[i + 1..], EncodedZoneMap, tail));
    }

    EncodeTail(w, f, []);
    bytes := w.buf;
    assert bytes + [] == bytes;
  }

  method DecodeSection(r: Reader) returns (s: Result<SectionEntry, FormatError>)
    requires r.Valid()
    modifies r
    ensures r.Did(ParseSection(old(r.Rest())), s)
  {
    var k :- r.U8();
    var kind :- SectionType.FromTag(k);
    var e :- r.U8();
    var encoding :- SectionEncoding.FromTag(e);
    var columnId :- r.U32();
    var offset :- r.U64();
    var length :- r.U64();
    var crc32 :- r.U32();
    s := Ok(SectionEntry(kind, encoding, columnId, offset, length, crc32));
  }

  method DecodeZoneMap(r: Reader) returns (z: Result<ZoneMap, FormatError>)
    requires r.Valid()
    modifies r
    ensures r.Did(ParseZoneMap(old(r.Rest())), z)
  {
    var columnId :- r.U32();
    var pageIndex :- r.U32();
    var min :- r.LpBytes();
    var max :- r.LpBytes();
    var nullCount :- r.U64();
    var distinctEstimate :- r.U64();
    var total :- r.U64();
    var n :- r.U32();
    var centroid :- DecodeCoords(r, n);
    var maxRadius :- r.U32();
    z := Ok(ZoneMap(columnId, pageIndex, min, max, nullCount, distinctEstimate, total, centroid, maxRadius));
  }

  method DecodeCoords(r: Reader, n: nat) returns (v: Result<seq<u32>, FormatError>)
    requires r.Valid()
    modifies r
    ensures r.Did(ParseMany(n, old(r.Rest()), ReadU32), v)
  {
    var out: seq<u32> := [];
    for i := 0 to n
      invariant r.Valid()
      invariant Prepend(out, ParseMany(n - i, r.Rest(), ReadU32)) == ParseMany(n, old(r.Rest()), ReadU32)
    {
      PrependStep(out, n - i, r.Rest(), ReadU32);
      var f :- r.U32();
      out := out + [f];
    }
    assert out + [] == out;
    v := Ok(out);
  }

  method DecodeHead(r: Reader) returns (h: Result<Head, FormatError>)
    requires r.Valid()
    modifies r
    ensures r.Did(ParseHead(old(r.Rest())), h)
  {
    var codecVersion :- r.U16();
    if codecVersion != FOOTER_CODEC_VERSION {
      return Err(Decode);
    }
    var fileUuid :- r.Slice(16);
    var formatVersion :- r.U16();
    if formatVersion != FORMAT_VERSION {
      return Err(UnsupportedVersion(formatVersion));
    }
    var minLsn :- r.U64();
    var maxLsn :- r.U64();
    var rowCount :- r.U64();
    var schemaFingerprint :- r.U64();
    var schemaBlob :- r.LpBytes();
    h := Ok(Head(fileUuid, formatVersion, minLsn, maxLsn, rowCount, schemaFingerprint, schemaBlob));
  }

  method DecodeTail(utf8: Utf8, r: Reader) returns (t: Result<(MvccSummary, seq<byte>), FormatError>)
    requires r.Valid()
    modifies r
    ensures r.Did(ParseTail(utf8, old(r.Rest())), t)
  {
    var blooms :- r.U32();
    if blooms != 0 {
      return Err(Decode);
    }
    var dicts :- r.U32();
    if dicts != 0 {
      return Err(Decode);
    }
    var minXmin :- r.U64();
    var maxXmax :- r.U64();
    var tombstoneCount :- r.U64();
    var liveCount :- r.U64();
    var writerVersion :- r.LpStr(utf8);
    t := Ok((MvccSummary(minXmin, maxXmax, tombstoneCount, liveCount), writerVersion));
  }

  method DecodeSections(r: Reader, n: nat) returns (v: Result<seq<SectionEntry>, FormatError>)
    requires r.Valid()
    modifies r
    ensures r.Did(ParseMany(n, old(r.Rest()), ParseSection), v)
  {
    var out: seq<SectionEntry> := [];
    for i := 0 to n
      invariant r.Valid()
      invariant Prepend(out, ParseMany(n - i, r.Rest(), ParseSection)) == ParseMany(n, old(r.Rest()), ParseSection)
    {
      PrependStep(out, n - i, r.Rest(), ParseSection);
      var s :- DecodeSection(r);
      out := out + [s];
    }
    assert out + [] == out;
    v := Ok(out);
  }

  method DecodeZones(r: Reader, n: nat) returns (v: Result<seq<ZoneMap>, FormatError>)
    requires r.Valid()
    modifies r
    ensures r.Did(ParseMany(n, old(r.Rest()), ParseZoneMap), v)
  {
    hide ParseZoneMap;
    var out: seq<ZoneMap> := [];
    for i := 0 to n
      invariant r.Valid()
      invariant Prepend(out, ParseMany(n - i, r.Rest(), ParseZoneMap)) == ParseMany(n, old(r.Rest()), ParseZoneMap)
    {
      PrependStep(out, n - i, r.Rest(), ParseZoneMap);
      var z :- DecodeZoneMap(r);
      out := out + [z];
    }
    assert out + [] == out;
    v := Ok(out);
  }

  /** `Footer::decode`. */
  method DecodeFooter(utf8: Utf8, buf: seq<byte>) returns (footer: Result<Footer, FormatError>)
    ensures footer == ParseFooter(utf8, buf)
  {
    var r := new Reader(buf);
    var h :- DecodeHead(r);
    var sectionCount :- r.U32();
    var sections :- DecodeSections(r, sectionCount);
    var zoneMapCount :- r.U32();
    var zoneMaps :- DecodeZones(r, zoneMapCount);
    var t :- DecodeTail(utf8, r);
    footer := Ok(Footer(h.fileUuid, h.formatVersion, h.minLsn, h.maxLsn, h.rowCount, h.schemaFingerprint,
                        h.schemaBlob, sections, zoneMaps, t.0, t.1));
  }
}
