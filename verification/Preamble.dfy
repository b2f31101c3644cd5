/** The fixed 64-byte file preamble. */
module Preambles {
  import opened Wrappers
  import opened Bytes
  import opened Cursors

  /** On-disk bytes `VSS1`. */
  const MAGIC: u32 := 0x3153_5356
  const FORMAT_VERSION: u16 := 1
  const PREAMBLE_LEN: nat := 64
  const FLAG_LITTLE_ENDIAN: u16 := 1

  type Uuid = s: seq<byte> | |s| == 16 witness seq(16, _ => 0)

  datatype Preamble = Preamble(
    fileUuid: Uuid,
    minLsn: u64,
    maxLsn: u64,
    rowCount: u64,
    schemaFingerprint: u64,
    creationUnixNanos: u64
  )

  function EncodedPreamble(p: Preamble): (s: seq<byte>)
    ensures |s| == PREAMBLE_LEN
  {
    LE(4, MAGIC) + LE(2, FORMAT_VERSION) + LE(2, FLAG_LITTLE_ENDIAN) + p.fileUuid + LE(8, p.minLsn)
    + LE(8, p.maxLsn) + LE(8, p.rowCount) + LE(8, p.schemaFingerprint) + LE(8, p.creationUnixNanos)
  }

  /** Fills the 64 bytes in place, field by field. */
  method EncodePreamble(p: Preamble) returns (b: array<byte>)
    ensures fresh(b) && b[..] == EncodedPreamble(p)
  {
    b := new byte[PREAMBLE_LEN](_ => 0);
    CopyFromSlice(b, 0, LE(4, MAGIC));
    assert b[..4] == LE(4, MAGIC);
    CopyFromSlice(b, 4, LE(2, FORMAT_VERSION));
    CopyFromSlice(b, 6, LE(2, FLAG_LITTLE_ENDIAN));
    CopyFromSlice(b, 8, p.fileUuid);
    CopyFromSlice(b, 24, LE(8, p.minLsn));
    CopyFromSlice(b, 32, LE(8, p.maxLsn));
    CopyFromSlice(b, 40, LE(8, p.rowCount));
    CopyFromSlice(b, 48, LE(8, p.schemaFingerprint));
    CopyFromSlice(b, 56, LE(8, p.creationUnixNanos));
    assert b[..] == b[..64];
  }

  /** Parse from the first 64 bytes, validating magic, version and byte order. */
  function DecodePreamble(buf: seq<byte>): Result<Preamble, FormatError> {
    if |buf| < PREAMBLE_LEN then Err(Truncated)
    else
      Pow256Values();
      var magic := FromLE(buf[0..4]);
      var version := FromLE(buf[4..6]);
      var flags := FromLE(buf[6..8]);
      if magic != MAGIC then Err(BadMagic(MAGIC, magic))
      else if version != FORMAT_VERSION then Err(UnsupportedVersion(version))
      else if flags % 2 == 0 then Err(Decode)
      else Ok(Preamble(buf[8..24], FromLE(buf[24..32]), FromLE(buf[32..40]), FromLE(buf[40..48]),
                       FromLE(buf[48..56]), FromLE(buf[56..64])))
  }

  lemma PreambleRoundTrip(p: Preamble, rest: seq<byte>)
    ensures DecodePreamble(EncodedPreamble(p) + rest) == Ok(p)
  {
    var e := EncodedPreamble(p);
    var buf := e + rest;
    assert buf[0..4] == LE(4, MAGIC);
    assert buf[4..6] == LE(2, FORMAT_VERSION);
    assert buf[6..8] == LE(2, FLAG_LITTLE_ENDIAN);
    assert buf[8..24] == p.fileUuid;
    assert buf[24..32] == LE(8, p.minLsn);
    assert buf[32..40] == LE(8, p.maxLsn);
    assert buf[40..48] == LE(8, p.rowCount);
    assert buf[48..56] == LE(8, p.schemaFingerprint);
    assert buf[56..64] == LE(8, p.creationUnixNanos);
    Pow256Values();
    FromLEofLE(4, MAGIC);
    FromLEofLE(2, FORMAT_VERSION);
    FromLEofLE(2, FLAG_LITTLE_ENDIAN);
    FromLEofLE(8, p.minLsn);
    FromLEofLE(8, p.maxLsn);
    FromLEofLE(8, p.rowCount);
    FromLEofLE(8, p.schemaFingerprint);
    FromLEofLE(8, p.creationUnixNanos);
  }
}
