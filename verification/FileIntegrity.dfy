/** What a reader may rely on when a file was accepted: every check was made, on the bytes it was read from. */
module FileIntegrity {
  import opened Wrappers
  import opened Bytes
  import opened Numbers
  import opened Checksum
  import opened Cursors
  import opened Preambles
  import opened Footers
  import opened Columns
  import Types
  import opened Chunks
  import opened VssFiles

  /** The bytes of "VSS1". */
  const MARK: seq<byte> := [0x56, 0x53, 0x53, 0x31]

  lemma MarkIs(b: seq<byte>)
    requires |b| == 4
    ensures FromLE(b) == MAGIC <==> b == MARK
  {
    assert FromLE(b) == b[0] as nat + 256 * (b[1] as nat + 256 * (b[2] as nat + 256 * b[3] as nat)) by {
      Unfold(b);
    }
  }

  lemma Unfold(b: seq<byte>)
    requires |b| == 4
    ensures FromLE(b) == b[0] as nat + 256 * (b[1] as nat + 256 * (b[2] as nat + 256 * b[3] as nat))
  {
    assert b[1..][1..] == b[2..] && b[2..][1..] == b[3..] && b[3..][1..] == [];
    assert FromLE(b[3..]) == b[3] as nat;
    assert FromLE(b[2..]) == b[2] as nat + 256 * FromLE(b[3..]);
    assert FromLE(b[1..]) == b[1] as nat + 256 * FromLE(b[2..]);
  }

  lemma UnfoldTwo(b: seq<byte>)
    requires |b| == 2
    ensures FromLE(b) == b[0] as nat + 256 * b[1] as nat
  {
    assert b[1..][1..] == [];
    assert FromLE(b[1..]) == b[1] as nat;
  }

  // ---- preamble ----

  /** The first 64 bytes are accepted exactly when they begin with the mark, version 1 and a set byte-order flag; the first that fails is reported. */
  lemma PreambleChecks(buf: seq<byte>)
    ensures var r := DecodePreamble(buf);
            && (r == Err(Truncated) <==> |buf| < 64)
            && (|buf| >= 64 ==>
                  && (r.Ok? <==> buf[0..4] == MARK && buf[4..6] == [1, 0] && buf[6] as nat % 2 == 1)
                  && (buf[0..4] != MARK ==> r == Err(BadMagic(MAGIC, FromLE(buf[0..4]))))
                  && (buf[0..4] == MARK && buf[4..6] != [1, 0] ==> r == Err(UnsupportedVersion(FromLE(buf[4..6])))))
  {
    if |buf| >= 64 {
      MarkIs(buf[0..4]);
      UnfoldTwo(buf[4..6]);
      UnfoldTwo(buf[6..8]);
      assert buf[4..6] == [buf[4], buf[5]] && buf[6..8] == [buf[6], buf[7]];
    }
  }

  // ---- the whole file ----

  /** The section lies inside the file, and its bytes have the checksum the directory gives. */
  predicate Intact(bytes: seq<byte>, e: SectionEntry) {
    e.offset + e.length <= |bytes| && Crc32c(bytes[e.offset..e.offset + e.length]) == e.crc32
  }

  lemma BodyMeans(bytes: seq<byte>, e: SectionEntry)
    ensures SectionBody(bytes, e).Ok? <==> Intact(bytes, e)
    ensures SectionBody(bytes, e).Ok? ==> SectionBody(bytes, e).value == bytes[e.offset..e.offset + e.length]
  {
    hide Crc32c;
  }

  lemma {:induction false} SectionsMean(utf8: Utf8, bytes: seq<byte>, entries: seq<SectionEntry>, k: nat)
    requires k <= |entries| && ReadSections(utf8, bytes, entries, k).Ok?
    ensures forall j :: 0 <= j < k && entries[j].kind != TranslationTable ==> Intact(bytes, entries[j])
  {
    hide SectionBody, ParseChunk, Intact;
    if k > 0 {
      SectionsMean(utf8, bytes, entries, k - 1);
      BodyMeans(bytes, entries[k - 1]);
    }
  }

  /** Where the trailer says the footer begins. */
  function FooterFrom(bytes: seq<byte>): int
    requires |bytes| >= PREAMBLE_LEN + TRAILER_LEN
  {
    |bytes| - TRAILER_LEN - FromLE(bytes[|bytes| - 12..|bytes| - 4])
  }

  /**
   A file that is accepted has its mark at both ends, a footer behind the preamble with the checksum the trailer gives,
   the same row count and id in preamble and footer, every section intact, and a translation table with one entry a row.
   */
  lemma ReadMeans(utf8: Utf8, bytes: seq<byte>)
    requires ReadFile(utf8, bytes).Ok?
    ensures var f, n := ReadFile(utf8, bytes).value, |bytes|;
            && n >= PREAMBLE_LEN + TRAILER_LEN && bytes[0..4] == bytes[n - 4..] == MARK && bytes[4..6] == [1, 0]
            && PREAMBLE_LEN <= FooterFrom(bytes) <= n - TRAILER_LEN
            && Crc32c(bytes[FooterFrom(bytes)..n - TRAILER_LEN]) == FromLE(bytes[n - 16..n - 12])
            && f.preamble.rowCount == f.footer.rowCount && f.preamble.fileUuid == f.footer.fileUuid
            && (forall e <- f.footer.sections :: e.kind != TranslationTable ==> Intact(bytes, e))
            && f.footer.Section(TranslationTable).Some? && Intact(bytes, f.footer.Section(TranslationTable).value)
            && |f.translationTable| == f.footer.rowCount
  {
    hide Crc32c, ParseFooter, DecodePreamble, SectionBody, ReadSections, Intact;
    var f, n := ReadFile(utf8, bytes).value, |bytes|;
    FooterMeans(utf8, bytes);
    PreambleChecks(bytes[0..PREAMBLE_LEN]);
    assert bytes[0..64][0..4] == bytes[0..4] && bytes[0..64][4..6] == bytes[4..6];
    var entries := f.footer.sections;
    SectionsMean(utf8, bytes, entries, |entries|);
    forall e | e in entries && e.kind != TranslationTable
      ensures Intact(bytes, e)
    {
      var j :| 0 <= j < |entries| && entries[j] == e;
    }
    BodyMeans(bytes, f.footer.Section(TranslationTable).value);
  }

  lemma FooterMeans(utf8: Utf8, bytes: seq<byte>)
    requires |bytes| >= PREAMBLE_LEN + TRAILER_LEN && ReadFooter(utf8, bytes).Ok?
    ensures var n := |bytes|;
            && bytes[n - 4..] == MARK && PREAMBLE_LEN <= FooterFrom(bytes) <= n - TRAILER_LEN
            && Crc32c(bytes[FooterFrom(bytes)..n - TRAILER_LEN]) == FromLE(bytes[n - 16..n - 12])
            && ParseFooter(utf8, bytes[FooterFrom(bytes)..n - TRAILER_LEN]) == ReadFooter(utf8, bytes)
  {
    hide Crc32c, ParseFooter, FromLE;
    var n := |bytes|;
    var trailer := bytes[n - 16..];
    assert trailer[0..4] == bytes[n - 16..n - 12] && trailer[4..12] == bytes[n - 12..n - 4] && trailer[12..16] == bytes[n - 4..];
    MarkIs(bytes[n - 4..]);
  }

  // ---- a column ----

  /** The pages as the index lists them: inside the chunk, each with the checksum its header gives. */
  predicate PageIntact(bytes: seq<byte>, h: ChunkHeader, p: nat) {
    var at := h.pageIndexOffset + p * PAGE_INDEX_ENTRY_LEN;
    at + PAGE_INDEX_ENTRY_LEN <= |bytes| &&
    var offset, len := FromLE(bytes[at..at + 8]), FromLE(bytes[at + 8..at + 12]);
    && offset + PAGE_HEADER_LEN + len <= |bytes|
    && Crc32c(bytes[offset + PAGE_HEADER_LEN..offset + PAGE_HEADER_LEN + len]) == FromLE(bytes[offset + 12..offset + 16])
  }

  lemma PageMeans(utf8: Utf8, bytes: seq<byte>, h: ChunkHeader, p: nat)
    requires ParsePage(utf8, bytes, h, p).Ok?
    ensures PageIntact(bytes, h, p)
  {
    hide Crc32c, FromLE, ParsePayload;
    var at := h.pageIndexOffset + p * PAGE_INDEX_ENTRY_LEN;
    var entry := bytes[at..at + PAGE_INDEX_ENTRY_LEN];
    assert entry[0..8] == bytes[at..at + 8] && entry[8..12] == bytes[at + 8..at + 12];
    var offset := FromLE(entry[0..8]);
    var header := bytes[offset..offset + PAGE_HEADER_LEN];
    assert header[12..16] == bytes[offset + 12..offset + 16];
  }

  lemma {:induction false} PagesMean(utf8: Utf8, bytes: seq<byte>, h: ChunkHeader, p: nat)
    requires p <= h.numPages && ParsePages(utf8, bytes, h, p).Ok?
    ensures forall q: nat :: p <= q < h.numPages ==> PageIntact(bytes, h, q)
    decreases h.numPages - p
  {
    hide ParsePage, PageIntact;
    if p < h.numPages {
      PageMeans(utf8, bytes, h, p);
      PagesMean(utf8, bytes, h, p + 1);
    }
  }

  /** A column that is accepted is what its header says, and all its pages are intact. */
  lemma ChunkMeans(utf8: Utf8, bytes: seq<byte>)
    requires ParseChunk(utf8, bytes).Ok?
    ensures ParseChunkHeader(bytes).Ok?
    ensures var h, c := ParseChunkHeader(bytes).value.0, ParseChunk(utf8, bytes).value;
            && (forall p: nat :: p < h.numPages ==> PageIntact(bytes, h, p))
            && c.columnId == h.columnId && c.isSystem == h.isSystem && c.values.lt == h.lt && |c.values.cells| == h.valueCount
  {
    hide ParseChunkHeader, ParsePages, PageIntact, Types.Concat;
    PagesMean(utf8, bytes, ParseChunkHeader(bytes).value.0, 0);
  }
}
