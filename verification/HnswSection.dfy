/**
 The bytes of an HNSW section and the view that reads them without rebuilding the graph.
 */
module HnswSections {
  import opened Wrappers
  import opened Numbers
  import opened Bytes
  import opened Beams
  import opened HnswIndex
  import opened HnswPages

  const NO_NEIGHBOR: nat := 0xFFFF_FFFF

  /** What `serialize_hnsw` takes from a quantized index; `f32` parameters as bits. */
  datatype IndexData = IndexData(
    columnId: u32, dim: u16, m: nat, links: Links, entry: Option<nat>, maxLevel: nat,
    codes: seq<seq<byte>>, qmin: seq<u32>, qscale: seq<u32>, localOffsets: seq<u32>)
  {
    function N(): nat { |links| }

    function M0(): nat { 2 * m }

    function Level(x: nat): nat
      requires x < |links| && |links[x]| > 0
    {
      |links[x]| - 1
    }

    function SlotSize(): nat { SlotSizeOf(M0(), dim) }

    /** A well-formed, quantized index with a row offset for every node. */
    ghost predicate Valid() {
      && GraphOk(links, m) && Grounded(links)
      && |codes| == |localOffsets| == |links| && |qmin| == |qscale| == dim
      && (forall x :: 0 <= x < |links| ==> |codes[x]| == dim && |links[x]| - 1 <= maxLevel)
      && (entry.Some? ==> entry.value < |links|)
    }
  }

  function SlotSizeOf(m0: nat, dim: nat): nat {
    8 + m0 * 4 + dim
  }

  function SlotBase(pagesOff: nat, id: nat, size: nat): nat {
    pagesOff + id * size
  }

  /** `x.min(255) as u8`. */
  function Clamped(x: nat): byte {
    Min(x, 255) as byte
  }

  // ---- layout ----

  /** New ids of a list of nodes. */
  function Ranks(order: seq<nat>, list: seq<nat>): (r: seq<nat>)
    requires forall y <- list :: y in order
    ensures |r| == |list|
  {
    seq(|list|, i requires 0 <= i < |list| => Rank(order, list[i]))
  }

  /** `order` is the renumbering: node `order[i]` becomes `i`. */
  ghost predicate Renumbers(x: IndexData, order: seq<nat>) {
    x.Valid() && Permutation(order, x.N())
  }

  /** The node with new id `id`. */
  function Node(x: IndexData, order: seq<nat>, id: nat): (node: nat)
    requires Renumbers(x, order) && id < x.N()
    ensures node == order[id] && node in order && node < x.N() && |x.links[node]| > 0
  {
    assert order[id] in order;
    order[id]
  }

  lemma ListsRenumber(x: IndexData, order: seq<nat>, node: nat, layer: nat)
    requires Renumbers(x, order) && node < x.N() && layer < |x.links[node]|
    ensures forall y <- x.links[node][layer] :: y in order
    ensures |x.links[node][layer]| <= Cap(x.m, layer)
  {
    PermutationHits(order, x.N());
    ListIsOk(x.links, x.m, node, layer);
  }

  function Neighbors(x: IndexData, order: seq<nat>, node: nat, layer: nat): seq<nat>
    requires Renumbers(x, order) && node < x.N() && layer < |x.links[node]|
  {
    ListsRenumber(x, order, node, layer);
    Ranks(order, x.links[node][layer])
  }

  /** The `m0` neighbor words of a slot, padded. */
  function Padded(list: seq<nat>, m0: nat): (w: seq<nat>)
    ensures |w| == m0
  {
    seq(m0, i requires 0 <= i < m0 => if i < |list| then list[i] else NO_NEIGHBOR)
  }

  function Slot(x: IndexData, order: seq<nat>, id: nat): seq<byte>
    requires Renumbers(x, order) && id < x.N()
  {
    var node := Node(x, order, id);
    SlotBytes(x.localOffsets[node], x.Level(node), |x.links[node][0]|, Neighbors(x, order, node, 0), x.M0(), x.codes[node])
  }

  function SlotHead(local: u32, level: nat, degree: nat, m0: nat): (s: seq<byte>)
    ensures |s| == 8
  {
    LE(4, local) + [Clamped(level)] + [(Min(degree, m0) % 256) as byte] + [0, 0]
  }

  function SlotBytes(local: u32, level: nat, degree: nat, neighbors: seq<nat>, m0: nat, code: seq<byte>): seq<byte> {
    SlotHead(local, level, degree, m0) + (LEs(4, Padded(neighbors, m0)) + code)
  }

  function SlotParts(x: IndexData, order: seq<nat>): (parts: seq<seq<byte>>)
    requires Renumbers(x, order)
    ensures |parts| == x.N()
  {
    seq(x.N(), id requires 0 <= id < x.N() => Slot(x, order, id))
  }

  /** New ids, below `k`, of nodes that reach an upper layer. */
  function UpperIds(x: IndexData, order: seq<nat>, k: nat): (ids: seq<nat>)
    requires Renumbers(x, order) && k <= x.N()
    ensures forall i :: 0 <= i < |ids| ==> ids[i] < k && x.Level(Node(x, order, ids[i])) > 0
    ensures forall i, j :: 0 <= i < j < |ids| ==> ids[i] < ids[j]
    ensures forall id: nat :: id < k && x.Level(Node(x, order, id)) > 0 ==> id in ids
  {
    if k == 0 then []
    else
      var ids := UpperIds(x, order, k - 1);
      if x.Level(Node(x, order, k - 1)) > 0 then ids + [k - 1] else ids
  }

  function LayerRecord(list: seq<nat>): seq<byte> {
    [Clamped(|list|)] + LEs(4, list)
  }

  function LayerRecords(x: IndexData, order: seq<nat>, node: nat): (parts: seq<seq<byte>>)
    requires Renumbers(x, order) && node < x.N()
    ensures |parts| == x.Level(node)
  {
    seq(x.Level(node), l requires 0 <= l < x.Level(node) => LayerRecord(Neighbors(x, order, node, l + 1)))
  }

  function Record(x: IndexData, order: seq<nat>, node: nat): seq<byte>
    requires Renumbers(x, order) && node < x.N()
  {
    [Clamped(x.Level(node))] + Flat(LayerRecords(x, order, node))
  }

  function RecordParts(x: IndexData, order: seq<nat>): (parts: seq<seq<byte>>)
    requires Renumbers(x, order)
    ensures |parts| == |UpperIds(x, order, x.N())|
  {
    var ids := UpperIds(x, order, x.N());
    seq(|ids|, i requires 0 <= i < |ids| => Record(x, order, Node(x, order, ids[i])))
  }

  function RecordOffset(x: IndexData, order: seq<nat>, i: nat): nat
    requires Renumbers(x, order) && i <= |RecordParts(x, order)|
  {
    |Flat(RecordParts(x, order)[..i])|
  }

  function EntryParts(x: IndexData, order: seq<nat>): (parts: seq<seq<byte>>)
    requires Renumbers(x, order)
    ensures |parts| == |UpperIds(x, order, x.N())|
    ensures forall i :: 0 <= i < |parts| ==> |parts[i]| == 8
  {
    var ids := UpperIds(x, order, x.N());
    seq(|ids|, i requires 0 <= i < |ids| => LE(4, ids[i]) + LE(4, RecordOffset(x, order, i)))
  }

  function UpperBlob(x: IndexData, order: seq<nat>): seq<byte>
    requires Renumbers(x, order)
  {
    LE(4, |UpperIds(x, order, x.N())|) + (Flat(EntryParts(x, order)) + Flat(RecordParts(x, order)))
  }

  function NodesPerPage(slotSize: nat): nat
    requires slotSize > 0
  {
    Max(4096 / slotSize, 1)
  }

  function EntryPoint(x: IndexData, order: seq<nat>): nat
    requires Renumbers(x, order)
  {
    PermutationHits(order, x.N());
    if x.entry.Some? then Rank(order, x.entry.value) else 0
  }

  const QUANT_OFF: nat := 66

  function PagesOff(dim: nat): nat {
    QUANT_OFF + dim * 8
  }

  function HeaderCounts(x: IndexData, entryPoint: nat): (s: seq<byte>)
    ensures |s| == 34
  {
    var perPage := NodesPerPage(x.SlotSize());
    LE(4, x.columnId) + LE(2, x.dim) + LE(2, x.m) + LE(2, x.M0()) + LE(2, 0) + [QUANT_FLAG_8BIT] + [Clamped(x.maxLevel + 1)]
    + LE(4, entryPoint) + LE(4, perPage) + LE(4, (x.N() + perPage - 1) / perPage) + LE(4, x.N()) + LE(4, 0)
  }

  function HeaderOffsets(dim: nat, slotsLen: nat, upperLen: nat): (s: seq<byte>)
    ensures |s| == 32
  {
    LE(8, QUANT_OFF) + LE(8, PagesOff(dim)) + LE(8, PagesOff(dim) + slotsLen) + LE(8, upperLen)
  }

  function Header(x: IndexData, entryPoint: nat, slotsLen: nat, upperLen: nat): (s: seq<byte>)
    ensures |s| == HEADER_LEN
  {
    HeaderCounts(x, entryPoint) + HeaderOffsets(x.dim, slotsLen, upperLen)
  }

  /** The section's bytes. */
  function EncodedHnsw(x: IndexData, order: seq<nat>): seq<byte>
    requires Renumbers(x, order)
  {
    var slots, blob := Flat(SlotParts(x, order)), UpperBlob(x, order);
    Header(x, EntryPoint(x, order), |slots|, |blob|) + (LEs(4, x.qmin) + (LEs(4, x.qscale) + (slots + blob)))
  }

  /** Counts and offsets fit their fields. */
  ghost predicate Fits(x: IndexData, order: seq<nat>)
    requires Renumbers(x, order)
  {
    && x.M0() < 0x1_0000 && x.N() < U32_LIMIT
    && |Flat(RecordParts(x, order))| < U32_LIMIT
    && |EncodedHnsw(x, order)| < U64_LIMIT
  }

  // ---- the view ----

  datatype HnswView = HnswView(
    bytes: seq<byte>, dim: nat, m0: nat, numLevels: nat, entryPoint: u32, numNodes: nat, pagesOff: nat, upperOff: nat,
    qmin: seq<nat>, qscale: seq<nat>)
  {
    function SlotSize(): nat { SlotSizeOf(m0, dim) }

    function SlotAt(id: nat): (s: Option<seq<byte>>)
      ensures s.Some? ==> |s.value| == SlotSize()
    {
      var base := SlotBase(pagesOff, id, SlotSize());
      if base + SlotSize() <= |bytes| then Some(bytes[base..base + SlotSize()]) else None
    }

    function LocalOffset(id: nat): Option<nat> {
      var s :- SlotAt(id);
      Some(Read(4, s, 0))
    }

    function Code(id: nat): Option<seq<byte>> {
      var s :- SlotAt(id);
      Some(s[8 + m0 * 4..8 + m0 * 4 + dim])
    }

    /** `neighbors(id, layer)`. */
    function Neighbors(id: nat, layer: nat): seq<u32> {
      if layer == 0 then
        var s := SlotAt(id);
        if s.None? then [] else Words(s.value, 8, Min(s.value[5] as nat, m0))
      else if upperOff > |bytes| then []
      else BlobNeighbors(bytes[upperOff..], id, layer)
    }
  }

  /** Up to `count` words from `off`, stopping at the end of the bytes. */
  function Words(b: seq<byte>, off: nat, count: nat): seq<u32>
    decreases count
  {
    if count == 0 then []
    else
      var w := Get(4, b, off);
      Pow256Values();
      if w.None? then [] else [w.value] + Words(b, off + 4, count - 1)
  }

  function ByteAt(b: seq<byte>, p: nat): Option<nat> {
    if p < |b| then Some(b[p] as nat) else None
  }

  /** Binary search of the sorted index for `id`: its record's offset. */
  function Search(blob: seq<byte>, lo: nat, hi: nat, id: nat): Option<nat>
    decreases hi - lo
  {
    if lo >= hi then None
    else
      var mid := (lo + hi) / 2;
      var key :- Get(4, blob, 4 + mid * 8);
      if key == id then Get(4, blob, 4 + mid * 8 + 4)
      else if key < id then Search(blob, mid + 1, hi, id)
      else Search(blob, lo, mid, id)
  }

  /** Walk a record from the list of layer `l` to that of `layer`. */
  function WalkRecord(blob: seq<byte>, p: nat, l: nat, level: nat, layer: nat): seq<u32>
    decreases level + 1 - l
  {
    if l > level then []
    else
      var cnt := ByteAt(blob, p);
      if cnt.None? then []
      else if l == layer then Words(blob, p + 1, cnt.value)
      else WalkRecord(blob, p + 1 + cnt.value * 4, l + 1, level, layer)
  }

  function BlobNeighbors(blob: seq<byte>, id: nat, layer: nat): seq<u32> {
    var count := Get(4, blob, 0);
    if count.None? || 4 + count.value * 8 > |blob| then []
    else
      var base := 4 + count.value * 8;
      var off := Search(blob, 0, count.value, id);
      if off.None? then []
      else
        var level := ByteAt(blob, base + off.value);
        if level.None? then [] else WalkRecord(blob, base + off.value + 1, 1, level.value, layer)
  }

  /** `HnswView::parse`. */
  function ParseHnsw(bytes: seq<byte>): Option<HnswView> {
    if |bytes| < HEADER_LEN then None
    else
      Pow256Values();
      var dim, m0, numLevels := Read(2, bytes, 4), Read(2, bytes, 8), bytes[13] as nat;
      var entryPoint, numNodes := Read(4, bytes, 14), Read(4, bytes, 26);
      var quantOff, pagesOff, upperOff := Read(8, bytes, 34), Read(8, bytes, 42), Read(8, bytes, 50);
      if quantOff + dim * 8 > |bytes| then None
      else if pagesOff + numNodes * SlotSizeOf(m0, dim) > |bytes| then None
      else if upperOff > |bytes| then None
      else
        Some(HnswView(bytes, dim, m0, numLevels, entryPoint, numNodes, pagesOff, upperOff,
                      seq(dim, d requires 0 <= d => Read(4, bytes, quantOff + d * 4)),
                      seq(dim, d requires 0 <= d => Read(4, bytes, quantOff + dim * 4 + d * 4))))
  }

  // ---- the view of a serialized index ----

  lemma ReadAt(n: nat, b: seq<byte>, o: nat, v: nat)
    requires At(b, o, LE(n, v)) && v < Pow256(n)
    ensures Read(n, b, o) == v
  {
    GetAt(n, b, o, v);
  }

  lemma CountsFields(x: IndexData, entryPoint: u32, rest: seq<byte>)
    requires x.M0() < 0x1_0000 && x.N() < U32_LIMIT
    ensures var b := HeaderCounts(x, entryPoint) + rest;
            && Read(2, b, 4) == x.dim && Read(2, b, 8) == x.M0() && b[13] as nat == Min(x.maxLevel + 1, 255)
            && Read(4, b, 14) == entryPoint && Read(4, b, 26) == x.N()
  {
    hide LE, Get, FromLE, Read;
    var b := HeaderCounts(x, entryPoint) + rest;
    Pow256Values();
    assert b[4..6] == LE(2, x.dim);
    assert b[8..10] == LE(2, x.M0());
    assert b[14..18] == LE(4, entryPoint);
    assert b[26..30] == LE(4, x.N());
    ReadAt(2, b, 4, x.dim);
    ReadAt(2, b, 8, x.M0());
    ReadAt(4, b, 14, entryPoint);
    ReadAt(4, b, 26, x.N());
  }

  lemma OffsetsFields(head: seq<byte>, dim: nat, slotsLen: nat, upperLen: nat, rest: seq<byte>)
    requires |head| == 34 && PagesOff(dim) + slotsLen < U64_LIMIT
    ensures var b := head + (HeaderOffsets(dim, slotsLen, upperLen) + rest);
            && Read(8, b, 34) == QUANT_OFF && Read(8, b, 42) == PagesOff(dim) && Read(8, b, 50) == PagesOff(dim) + slotsLen
  {
    hide LE, Get, FromLE, Read;
    var b := head + (HeaderOffsets(dim, slotsLen, upperLen) + rest);
    Pow256Values();
    assert b[34..42] == LE(8, QUANT_OFF);
    assert b[42..50] == LE(8, PagesOff(dim));
    assert b[50..58] == LE(8, PagesOff(dim) + slotsLen);
    ReadAt(8, b, 34, QUANT_OFF);
    ReadAt(8, b, 42, PagesOff(dim));
    ReadAt(8, b, 50, PagesOff(dim) + slotsLen);
  }

  lemma SlotLengths(x: IndexData, order: seq<nat>)
    requires Renumbers(x, order)
    ensures forall i :: 0 <= i < x.N() ==> |SlotParts(x, order)[i]| == x.SlotSize()
    ensures |Flat(SlotParts(x, order))| == x.N() * x.SlotSize()
  {
    hide Flat, LEs, SlotHead, Neighbors;
    forall i | 0 <= i < x.N()
      ensures |SlotParts(x, order)[i]| == x.SlotSize()
    {
      LEsLength(4, Padded(Neighbors(x, order, Node(x, order, i), 0), x.M0()));
    }
    FlatLength(SlotParts(x, order), x.SlotSize());
  }

  /** Where the section's regions lie. */
  lemma SectionRegions(x: IndexData, order: seq<nat>)
    requires Renumbers(x, order)
    ensures var b, slots, blob := EncodedHnsw(x, order), Flat(SlotParts(x, order)), UpperBlob(x, order);
            && At(b, QUANT_OFF, LEs(4, x.qmin)) && At(b, QUANT_OFF + x.dim * 4, LEs(4, x.qscale))
            && At(b, PagesOff(x.dim), slots)
            && |b| == PagesOff(x.dim) + |slots| + |blob| && b[PagesOff(x.dim) + |slots|..] == blob
  {
    hide Flat, LEs, UpperBlob, Header, SlotParts, EntryPoint;
    LEsLength(4, x.qmin);
    LEsLength(4, x.qscale);
    var slots, blob := Flat(SlotParts(x, order)), UpperBlob(x, order);
    RegionsOf(Header(x, EntryPoint(x, order), |slots|, |blob|), LEs(4, x.qmin), LEs(4, x.qscale), slots, blob);
  }

  lemma RegionsOf(h: seq<byte>, qmin: seq<byte>, qscale: seq<byte>, slots: seq<byte>, blob: seq<byte>)
    ensures var b := h + (qmin + (qscale + (slots + blob)));
            && At(b, |h|, qmin) && At(b, |h| + |qmin|, qscale) && At(b, |h| + |qmin| + |qscale|, slots)
            && |b| == |h| + |qmin| + |qscale| + |slots| + |blob|
            && b[|h| + |qmin| + |qscale| + |slots|..] == blob
  {
  }

  /** The view of a serialized index. */
  function ViewOf(x: IndexData, order: seq<nat>): HnswView
    requires Renumbers(x, order) && EntryPoint(x, order) < U32_LIMIT
  {
    HnswView(EncodedHnsw(x, order), x.dim, x.M0(), Min(x.maxLevel + 1, 255), EntryPoint(x, order), x.N(), PagesOff(x.dim),
             PagesOff(x.dim) + |Flat(SlotParts(x, order))|, x.qmin, x.qscale)
  }

  lemma EntryPointFits(x: IndexData, order: seq<nat>)
    requires Renumbers(x, order) && x.N() < U32_LIMIT
    ensures EntryPoint(x, order) < U32_LIMIT
  {
  }

  lemma WordsRead(b: seq<byte>, off: nat, vs: seq<nat>)
    requires At(b, off, LEs(4, vs)) && forall k :: 0 <= k < |vs| ==> vs[k] < U32_LIMIT
    ensures forall k :: 0 <= k < |vs| ==> Read(4, b, off + k * 4) == vs[k]
    ensures forall k :: 0 <= k < |vs| ==> Get(4, b, off + k * 4) == Some(vs[k])
  {
    hide LE, LEs, At;
    Pow256Values();
    forall k | 0 <= k < |vs|
      ensures Read(4, b, off + k * 4) == vs[k] && Get(4, b, off + k * 4) == Some(vs[k])
    {
      LEsAt(4, vs, k);
      AtInner(b, off, LEs(4, vs), k * 4, LE(4, vs[k]));
      GetAt(4, b, off + k * 4, vs[k]);
    }
  }

  /** Parsing a serialized index succeeds and finds its header fields and quantizer. */
  lemma ParseSerialized(x: IndexData, order: seq<nat>)
    requires Renumbers(x, order) && Fits(x, order)
    ensures EntryPoint(x, order) < U32_LIMIT
    ensures ParseHnsw(EncodedHnsw(x, order)) == Some(ViewOf(x, order))
  {
    hide Flat, LEs, UpperBlob, HeaderCounts, HeaderOffsets, SlotParts, EntryPoint, Read, At, EncodedHnsw;
    EntryPointFits(x, order);
    SectionRegions(x, order);
    SlotLengths(x, order);
    var b, slots, blob := EncodedHnsw(x, order), Flat(SlotParts(x, order)), UpperBlob(x, order);
    HeaderRead(x, order);
    WordsRead(b, QUANT_OFF, x.qmin);
    WordsRead(b, QUANT_OFF + x.dim * 4, x.qscale);
    var v := ParseHnsw(b);
    assert v.value.qmin == x.qmin;
    assert v.value.qscale == x.qscale;
  }

  lemma HeaderRead(x: IndexData, order: seq<nat>)
    requires Renumbers(x, order) && Fits(x, order) && EntryPoint(x, order) < U32_LIMIT
    ensures var b := EncodedHnsw(x, order);
            && |b| >= HEADER_LEN
            && Read(2, b, 4) == x.dim && Read(2, b, 8) == x.M0() && b[13] as nat == Min(x.maxLevel + 1, 255)
            && Read(4, b, 14) == EntryPoint(x, order) && Read(4, b, 26) == x.N()
            && Read(8, b, 34) == QUANT_OFF && Read(8, b, 42) == PagesOff(x.dim)
            && Read(8, b, 50) == PagesOff(x.dim) + |Flat(SlotParts(x, order))|
  {
    hide Flat, LEs, UpperBlob, HeaderCounts, HeaderOffsets, SlotParts, EntryPoint, Read, At;
    var b, slots, blob := EncodedHnsw(x, order), Flat(SlotParts(x, order)), UpperBlob(x, order);
    SectionRegions(x, order);
    var rest := LEs(4, x.qmin) + (LEs(4, x.qscale) + (slots + blob));
    var counts, offsets := HeaderCounts(x, EntryPoint(x, order)), HeaderOffsets(x.dim, |slots|, |blob|);
    assert b == counts + (offsets + rest);
    CountsFields(x, EntryPoint(x, order), offsets + rest);
    OffsetsFields(counts, x.dim, |slots|, |blob|, rest);
  }

  // ---- slots ----

  lemma SlotFields(local: u32, level: nat, neighbors: seq<nat>, m0: nat, code: seq<byte>)
    requires |neighbors| <= m0 && IdsFit(neighbors)
    ensures var s := SlotBytes(local, level, |neighbors|, neighbors, m0, code);
            && |s| == SlotSizeOf(m0, |code|)
            && Read(4, s, 0) == local && s[5] as nat == |neighbors| % 256
            && s[8 + m0 * 4..8 + m0 * 4 + |code|] == code
            && Words(s, 8, |neighbors| % 256) == SlotListed(neighbors)
  {
    hide LE, LEs, Read, Words, At;
    var head, words := SlotHead(local, level, |neighbors|, m0), LEs(4, Padded(neighbors, m0));
    var s := head + (words + code);
    LEsLength(4, Padded(neighbors, m0));
    assert s[0..4] == LE(4, local);
    assert At(s, 0, LE(4, local)) by { AtMeans(s, 0, LE(4, local)); }
    Pow256Values();
    ReadAt(4, s, 0, local);
    assert At(s, 8, words) by { AtMeans(s, 8, words); }
    WordsRead(s, 8, Padded(neighbors, m0));
    var listed := neighbors[..|neighbors| % 256];
    forall i | 0 <= i < |listed|
      ensures Get(4, s, 8 + i * 4) == Some(listed[i])
    {
      assert Padded(neighbors, m0)[i] == neighbors[i];
    }
    WordsAre(s, 8, listed, 0);
  }

  /** Words in place are taken one after the other. */
  lemma {:induction false} WordsAre(b: seq<byte>, off: nat, vs: seq<nat>, k: nat)
    requires k <= |vs| && forall i :: 0 <= i < |vs| ==> vs[i] < U32_LIMIT && Get(4, b, off + i * 4) == Some(vs[i])
    ensures Words(b, off + k * 4, |vs| - k) == vs[k..]
    decreases |vs| - k
  {
    hide Get;
    if k < |vs| {
      WordsAre(b, off, vs, k + 1);
      assert off + k * 4 + 4 == off + (k + 1) * 4;
      assert vs[k..] == [vs[k]] + vs[k + 1..];
    }
  }

  /** Ids that fit a word. */
  predicate IdsFit(list: seq<nat>) {
    forall i :: 0 <= i < |list| ==> list[i] < U32_LIMIT
  }

  lemma NeighborsFit(x: IndexData, order: seq<nat>, node: nat, layer: nat)
    requires Renumbers(x, order) && x.N() < U32_LIMIT && node < x.N() && layer < |x.links[node]|
    ensures |Neighbors(x, order, node, layer)| == |x.links[node][layer]| <= Cap(x.m, layer)
    ensures IdsFit(Neighbors(x, order, node, layer))
  {
    ListsRenumber(x, order, node, layer);
  }

  /** Slot `id` of the view is the slot written for the node renumbered `id`. */
  lemma SlotRead(x: IndexData, order: seq<nat>, id: nat)
    requires Renumbers(x, order) && Fits(x, order) && id < x.N() && EntryPoint(x, order) < U32_LIMIT
    ensures ViewOf(x, order).SlotAt(id) == Some(Slot(x, order, id))
    ensures |Slot(x, order, id)| == x.SlotSize()
  {
    hide Flat, LEs, UpperBlob, Slot, EntryPoint, EncodedHnsw, At, SlotSizeOf, Fits;
    SlotPlace(x, order, id, x.SlotSize());
    AtMeans(EncodedHnsw(x, order), SlotBase(PagesOff(x.dim), id, x.SlotSize()), Slot(x, order, id));
  }

  lemma SlotPlace(x: IndexData, order: seq<nat>, id: nat, size: nat)
    requires Renumbers(x, order) && id < x.N() && size == x.SlotSize()
    ensures At(EncodedHnsw(x, order), SlotBase(PagesOff(x.dim), id, size), Slot(x, order, id)) && |Slot(x, order, id)| == size
  {
    hide Flat, LEs, UpperBlob, Slot, EntryPoint, EncodedHnsw, At, IndexData.SlotSize, PagesOff;
    SectionRegions(x, order);
    SlotLengths(x, order);
    EvenAt(SlotParts(x, order), size, id);
    assert SlotParts(x, order)[id] == Slot(x, order, id);
    AtInner(EncodedHnsw(x, order), PagesOff(x.dim), Flat(SlotParts(x, order)), id * size, Slot(x, order, id));
  }

  /** What the count byte of a slot admits of a list. */
  function SlotListed(list: seq<nat>): seq<nat> {
    list[..|list| % 256]
  }

  /** Row offset and code of every node survive; of its layer-0 neighbors as many as the count byte says. */
  lemma SlotAgrees(x: IndexData, order: seq<nat>, id: nat)
    requires Renumbers(x, order) && Fits(x, order) && id < x.N() && EntryPoint(x, order) < U32_LIMIT
    ensures var v, node := ViewOf(x, order), Node(x, order, id);
            && v.LocalOffset(id) == Some(x.localOffsets[node])
            && v.Code(id) == Some(x.codes[node])
            && v.Neighbors(id, 0) == SlotListed(Neighbors(x, order, node, 0))
  {
    hide Flat, LEs, UpperBlob, EntryPoint, EncodedHnsw, HnswView.SlotAt, SlotBytes, Words, Read, Neighbors, RecordParts;
    var node := Node(x, order, id);
    SlotRead(x, order, id);
    NeighborsFit(x, order, node, 0);
    SlotFields(x.localOffsets[node], x.Level(node), Neighbors(x, order, node, 0), x.M0(), x.codes[node]);
  }

  /** At layer 0 the view lists a node's neighbors if and only if there are at most 255 of them. */
  lemma SlotExact(x: IndexData, order: seq<nat>, id: nat)
    requires Renumbers(x, order) && Fits(x, order) && id < x.N() && EntryPoint(x, order) < U32_LIMIT
    ensures var node := Node(x, order, id);
            ViewOf(x, order).Neighbors(id, 0) == Neighbors(x, order, node, 0) <==> |x.links[node][0]| <= 255
  {
    hide ViewOf, HnswView.Neighbors, Neighbors, Fits, SlotListed;
    SlotAgrees(x, order, id);
    DegreeKept(x, order, Node(x, order, id), 0);
    ListedExact(Neighbors(x, order, Node(x, order, id), 0));
  }

  lemma ListedExact(list: seq<nat>)
    ensures SlotListed(list) == list <==> |list| <= 255
    ensures Listed(list) == list <==> |list| <= 255
  {
    assert list[..|list|] == list;
  }

  // ---- upper layers ----

  /** The sorted index finds a key that is there, and only that. */
  lemma {:induction false} SearchFinds(blob: seq<byte>, keys: seq<nat>, offs: seq<nat>, lo: nat, hi: nat, id: nat)
    requires lo <= hi <= |keys| == |offs|
    requires forall i, j :: 0 <= i < j < |keys| ==> keys[i] < keys[j]
    requires forall i :: 0 <= i < |keys| ==> Get(4, blob, 4 + i * 8) == Some(keys[i]) && Get(4, blob, 4 + i * 8 + 4) == Some(offs[i])
    ensures forall i :: lo <= i < hi && keys[i] == id ==> Search(blob, lo, hi, id) == Some(offs[i])
    ensures (forall i :: lo <= i < hi ==> keys[i] != id) ==> Search(blob, lo, hi, id) == None
    decreases hi - lo
  {
    hide Get;
    if lo < hi {
      var mid := (lo + hi) / 2;
      if keys[mid] < id {
        SearchFinds(blob, keys, offs, mid + 1, hi, id);
      } else if keys[mid] > id {
        SearchFinds(blob, keys, offs, lo, mid, id);
      }
    }
  }

  /** Lists whose lengths fit a byte and whose ids fit a word. */
  predicate ListFits(list: seq<nat>) {
    |list| <= 255 && IdsFit(list)
  }

  /** What a list's count byte admits of it. */
  function Listed(list: seq<nat>): seq<nat> {
    list[..Min(|list|, 255)]
  }

  /** Past the last layer there is nothing. */
  lemma {:induction false} WalkPast(blob: seq<byte>, p: nat, l: nat, level: nat, layer: nat)
    requires layer > level
    ensures WalkRecord(blob, p, l, level, layer) == []
    decreases level + 1 - l
  {
    hide Words;
    if l <= level && ByteAt(blob, p).Some? {
      WalkPast(blob, p + 1 + ByteAt(blob, p).value * 4, l + 1, level, layer);
    }
  }

  /** The walk skips the lists below `layer`, if their counts are right, and takes that of `layer`. */
  lemma {:induction false} WalkFinds(blob: seq<byte>, p: nat, lists: seq<seq<nat>>, l: nat, level: nat, layer: nat)
    requires 1 <= l <= layer <= level <= |lists|
    requires forall i :: 0 <= i < layer - 1 ==> ListFits(lists[i])
    requires IdsFit(lists[layer - 1]) && At(blob, p, Flat(RecordsOf(lists)))
    ensures WalkRecord(blob, p + RecordStart(lists, l), l, level, layer) == Listed(lists[layer - 1])
    decreases layer - l
  {
    hide LayerRecord, Words, At, ListFits, IdsFit, ByteAt, RecordStart, RecordsOf, Listed;
    ListFitsIds(lists[l - 1]);
    WalkStep(blob, p, lists, l);
    if l < layer {
      FitsListed(lists[l - 1]);
      WalkFinds(blob, p, lists, l + 1, level, layer);
    }
  }

  lemma ListFitsIds(list: seq<nat>)
    ensures ListFits(list) ==> IdsFit(list)
  {
  }

  lemma FitsListed(list: seq<nat>)
    requires ListFits(list)
    ensures Listed(list) == list && |list| <= 255
  {
  }

  /** Where the list of layer `l` starts in a record's lists. */
  function RecordStart(lists: seq<seq<nat>>, l: nat): nat
    requires 1 <= l <= |lists| + 1
  {
    |Flat(RecordsOf(lists)[..l - 1])|
  }

  lemma WalkStep(blob: seq<byte>, p: nat, lists: seq<seq<nat>>, l: nat)
    requires 1 <= l <= |lists| && IdsFit(lists[l - 1]) && At(blob, p, Flat(RecordsOf(lists)))
    ensures var q, list := p + RecordStart(lists, l), lists[l - 1];
            && ByteAt(blob, q) == Some(Min(|list|, 255)) && Words(blob, q + 1, Min(|list|, 255)) == Listed(list)
            && p + RecordStart(lists, l + 1) == q + 1 + |list| * 4
            && At(blob, q + 1, LEs(4, list))
  {
    hide Flat, LayerRecord, Words, At, IdsFit, ByteAt, LEs;
    var parts := RecordsOf(lists);
    FlatAt(parts, l - 1);
    AtInner(blob, p, Flat(parts), RecordStart(lists, l), LayerRecord(lists[l - 1]));
    FlatSnoc(parts, l - 1);
    LayerRecordRead(blob, p + RecordStart(lists, l), lists[l - 1]);
  }

  function RecordsOf(lists: seq<seq<nat>>): (parts: seq<seq<byte>>)
    ensures |parts| == |lists|
  {
    seq(|lists|, i requires 0 <= i < |lists| => LayerRecord(lists[i]))
  }

  lemma LayerRecordRead(blob: seq<byte>, p: nat, list: seq<nat>)
    requires At(blob, p, LayerRecord(list)) && IdsFit(list)
    ensures ByteAt(blob, p) == Some(Min(|list|, 255)) && Words(blob, p + 1, Min(|list|, 255)) == Listed(list)
    ensures |LayerRecord(list)| == 1 + |list| * 4 && At(blob, p + 1, LEs(4, list))
  {
    hide LEs, Words;
    LEsLength(4, list);
    AtSplit(blob, p, [Clamped(|list|)], LEs(4, list));
    assert blob[p] == blob[p..p + 1][0];
    WordsRead(blob, p + 1, list);
    WordsAre(blob, p + 1, Listed(list), 0);
  }

  /** The lists of a node's upper layers, renumbered. */
  function UpperLists(x: IndexData, order: seq<nat>, node: nat): (lists: seq<seq<nat>>)
    requires Renumbers(x, order) && node < x.N()
    ensures |lists| == x.Level(node)
  {
    seq(x.Level(node), l requires 0 <= l < x.Level(node) => Neighbors(x, order, node, l + 1))
  }

  lemma RecordIs(x: IndexData, order: seq<nat>, node: nat)
    requires Renumbers(x, order) && node < x.N()
    ensures LayerRecords(x, order, node) == RecordsOf(UpperLists(x, order, node))
  {
    hide LayerRecord;
  }

  /** The lists of a node's upper layers below `layer` have counts that fit their byte. */
  predicate ShortBelow(x: IndexData, node: nat, layer: nat)
    requires node < |x.links|
  {
    forall l :: 1 <= l < layer < |x.links[node]| ==> |x.links[node][l]| <= 255
  }

  /** What the view can list of a node's neighbors at an upper layer. */
  function UpperListed(x: IndexData, order: seq<nat>, node: nat, layer: nat): seq<nat>
    requires Renumbers(x, order) && node < x.N()
  {
    if layer < |x.links[node]| && layer <= 255 then Listed(Neighbors(x, order, node, layer)) else []
  }

  lemma RecordFinds(x: IndexData, order: seq<nat>, blob: seq<byte>, p: nat, node: nat, layer: nat)
    requires Renumbers(x, order) && Fits(x, order) && node < x.N() && layer >= 1 && ShortBelow(x, node, layer)
    requires At(blob, p, Record(x, order, node))
    ensures ByteAt(blob, p) == Some(Min(x.Level(node), 255))
    ensures WalkRecord(blob, p + 1, 1, Min(x.Level(node), 255), layer) == UpperListed(x, order, node, layer)
  {
    hide Flat, LayerRecords, WalkRecord, EncodedHnsw, RecordParts, Neighbors, Listed, IdsFit;
    RecordHead(x, order, blob, p, node);
    var lists, level := UpperLists(x, order, node), Min(x.Level(node), 255);
    if layer > level {
      WalkPast(blob, p + 1, 1, level, layer);
    } else {
      forall i | 0 <= i < layer
        ensures IdsFit(lists[i]) && (i < layer - 1 ==> |lists[i]| <= 255)
      {
        NeighborsFit(x, order, node, i + 1);
      }
      WalkFinds(blob, p + 1, lists, 1, level, layer);
      assert RecordStart(lists, 1) == 0 by { FlatNone(RecordsOf(lists)); }
    }
  }

  lemma RecordHead(x: IndexData, order: seq<nat>, blob: seq<byte>, p: nat, node: nat)
    requires Renumbers(x, order) && node < x.N() && At(blob, p, Record(x, order, node))
    ensures ByteAt(blob, p) == Some(Min(x.Level(node), 255))
    ensures At(blob, p + 1, Flat(RecordsOf(UpperLists(x, order, node))))
  {
    hide Flat, LayerRecords, Neighbors;
    RecordIs(x, order, node);
    AtSplit(blob, p, [Clamped(x.Level(node))], Flat(LayerRecords(x, order, node)));
    assert blob[p] == blob[p..p + 1][0];
  }

  /** Keys and record offsets of the blob's index. */
  lemma IndexRead(x: IndexData, order: seq<nat>, i: nat)
    requires Renumbers(x, order) && Fits(x, order)
    ensures var blob, ids := UpperBlob(x, order), UpperIds(x, order, x.N());
            && Get(4, blob, 0) == Some(|ids|)
            && |blob| == 4 + |ids| * 8 + |Flat(RecordParts(x, order))|
            && (i < |ids| ==>
                  && Get(4, blob, 4 + i * 8) == Some(ids[i])
                  && Get(4, blob, 4 + i * 8 + 4) == Some(RecordOffset(x, order, i))
                  && At(blob, 4 + |ids| * 8 + RecordOffset(x, order, i), Record(x, order, Node(x, order, ids[i]))))
  {
    hide Flat, LE, Record, Get, UpperIds, EncodedHnsw, At;
    var ids, entries, records := UpperIds(x, order, x.N()), Flat(EntryParts(x, order)), Flat(RecordParts(x, order));
    var blob := LE(4, |ids|) + (entries + records);
    FlatLength(EntryParts(x, order), 8);
    Pow256Values();
    UpperFew(x, order, x.N());
    assert At(blob, 0, LE(4, |ids|)) by { AtMeans(blob, 0, LE(4, |ids|)); }
    GetAt(4, blob, 0, |ids|);
    if i < |ids| {
      EvenAt(EntryParts(x, order), 8, i);
      assert At(blob, 4, entries) by { AtMeans(blob, 4, entries); }
      AtInner(blob, 4, entries, i * 8, LE(4, ids[i]) + LE(4, RecordOffset(x, order, i)));
      AtSplit(blob, 4 + i * 8, LE(4, ids[i]), LE(4, RecordOffset(x, order, i)));
      FlatShrinks(RecordParts(x, order), i);
      GetAt(4, blob, 4 + i * 8, ids[i]);
      GetAt(4, blob, 4 + i * 8 + 4, RecordOffset(x, order, i));
      FlatAt(RecordParts(x, order), i);
      assert At(blob, 4 + |ids| * 8, records) by { AtMeans(blob, 4 + |ids| * 8, records); }
      AtInner(blob, 4 + |ids| * 8, records, RecordOffset(x, order, i), Record(x, order, Node(x, order, ids[i])));
    }
  }

  lemma {:induction false} UpperFew(x: IndexData, order: seq<nat>, k: nat)
    requires Renumbers(x, order) && k <= x.N()
    ensures |UpperIds(x, order, k)| <= k
  {
    if k > 0 {
      UpperFew(x, order, k - 1);
    }
  }

  lemma {:induction false} FlatShrinks(parts: seq<seq<byte>>, k: nat)
    requires k <= |parts|
    ensures |Flat(parts[..k])| <= |Flat(parts)|
    decreases |parts| - k
  {
    if k < |parts| {
      FlatSnoc(parts, k);
      FlatShrinks(parts, k + 1);
    } else {
      assert parts[..k] == parts;
    }
  }

  /** The index entry of node `id`, or the index's length if it has none. */
  lemma Locate(x: IndexData, order: seq<nat>, id: nat) returns (i: nat)
    requires Renumbers(x, order) && Fits(x, order) && id < x.N()
    ensures var ids := UpperIds(x, order, x.N());
            && i <= |ids| && (i < |ids| <==> x.Level(Node(x, order, id)) > 0)
            && (i < |ids| ==> ids[i] == id)
            && Search(UpperBlob(x, order), 0, |ids|, id) == if i < |ids| then Some(RecordOffset(x, order, i)) else None
  {
    hide Flat, UpperBlob, Record, Get, EncodedHnsw, At, Search, RecordOffset, RecordParts, Fits;
    var blob, ids := UpperBlob(x, order), UpperIds(x, order, x.N());
    var offs := seq(|ids|, k requires 0 <= k < |ids| => RecordOffset(x, order, k));
    forall k | 0 <= k < |ids|
      ensures Get(4, blob, 4 + k * 8) == Some(ids[k]) && Get(4, blob, 4 + k * 8 + 4) == Some(offs[k])
    {
      IndexRead(x, order, k);
    }
    SearchFinds(blob, ids, offs, 0, |ids|, id);
    if id in ids {
      i :| 0 <= i < |ids| && ids[i] == id;
    } else {
      i := |ids|;
    }
  }

  /** Upper-layer neighbors survive, renumbered, as far as their count byte and those below it say; above its level a node has none. */
  lemma UpperAgrees(x: IndexData, order: seq<nat>, id: nat, layer: nat)
    requires Renumbers(x, order) && Fits(x, order) && id < x.N() && layer >= 1
    requires ShortBelow(x, Node(x, order, id), layer)
    ensures BlobNeighbors(UpperBlob(x, order), id, layer) == UpperListed(x, order, Node(x, order, id), layer)
  {
    hide Flat, UpperBlob, UpperIds, Record, Get, EncodedHnsw, At, Neighbors, WalkRecord, Search, RecordOffset, ByteAt,
      RecordParts, Fits, ShortBelow, Listed;
    var ids, node := UpperIds(x, order, x.N()), Node(x, order, id);
    var i := Locate(x, order, id);
    IndexRead(x, order, i);
    if i < |ids| {
      RecordFinds(x, order, UpperBlob(x, order), 4 + |ids| * 8 + RecordOffset(x, order, i), node, layer);
    }
  }

  /** The true neighbors of a node at a layer, renumbered. */
  function TrueNeighbors(x: IndexData, order: seq<nat>, node: nat, layer: nat): seq<nat>
    requires Renumbers(x, order) && node < x.N()
  {
    if layer < |x.links[node]| then Neighbors(x, order, node, layer) else []
  }

  /** The node's count byte at this layer says what it should, and the level byte reaches the layer. */
  predicate CountsRight(x: IndexData, node: nat, layer: nat)
    requires node < |x.links|
  {
    layer < |x.links[node]| && x.links[node][layer] != [] ==> |x.links[node][layer]| <= 255 && layer <= 255
  }

  /**
   The view of a serialized index is the same graph under the renumbering: provided the counts of the
   layers below fit their byte, a node's neighbors at a layer are read back if and only if their own
   count does, on a layer the level byte reaches.
   */
  lemma SameGraph(x: IndexData, order: seq<nat>, id: nat, layer: nat)
    requires Renumbers(x, order) && Fits(x, order) && id < x.N() && EntryPoint(x, order) < U32_LIMIT
    requires ShortBelow(x, Node(x, order, id), layer)
    ensures ViewOf(x, order).Neighbors(id, layer) == TrueNeighbors(x, order, Node(x, order, id), layer)
       <==> CountsRight(x, Node(x, order, id), layer)
  {
    hide Flat, UpperBlob, EncodedHnsw, At, Neighbors, BlobNeighbors, EntryPoint, HnswView.SlotAt, RecordParts, ShortBelow, Fits;
    var node := Node(x, order, id);
    if layer < |x.links[node]| {
      DegreeKept(x, order, node, layer);
      ListedExact(Neighbors(x, order, node, layer));
    }
    if layer == 0 {
      SlotExact(x, order, id);
    } else {
      SectionRegions(x, order);
      UpperAgrees(x, order, id, layer);
    }
  }

  lemma DegreeKept(x: IndexData, order: seq<nat>, node: nat, layer: nat)
    requires Renumbers(x, order) && Fits(x, order) && node < x.N() && layer < |x.links[node]|
    ensures |Neighbors(x, order, node, layer)| == |x.links[node][layer]|
  {
    NeighborsFit(x, order, node, layer);
  }

  /** Every degree fits one byte, and every level too. */
  predicate DegreesFit(x: IndexData) {
    forall node, l :: 0 <= node < |x.links| && 0 <= l < |x.links[node]| ==> |x.links[node][l]| <= 255 && l <= 255
  }

  /** Then the view is the same graph at every node and layer. */
  lemma SameEverywhere(x: IndexData, order: seq<nat>, id: nat, layer: nat)
    requires Renumbers(x, order) && Fits(x, order) && id < x.N() && EntryPoint(x, order) < U32_LIMIT && DegreesFit(x)
    ensures ViewOf(x, order).Neighbors(id, layer) == TrueNeighbors(x, order, Node(x, order, id), layer)
  {
    hide HnswView.Neighbors, ViewOf, TrueNeighbors, Fits;
    SameGraph(x, order, id, layer);
  }

  /** After a list too long for its count byte, the next layer's count is read out of that list: from the 256th neighbor's first byte. */
  lemma LaterLayerMisread(x: IndexData, order: seq<nat>, id: nat, l: nat)
    requires Renumbers(x, order) && Fits(x, order) && id < x.N() && EntryPoint(x, order) < U32_LIMIT
    requires var node := Node(x, order, id);
             1 <= l < x.Level(node) && l < 255 && |x.links[node][l]| > 255 && ShortBelow(x, node, l)
    ensures var list := Neighbors(x, order, Node(x, order, id), l);
            |list| > 255 && |ViewOf(x, order).Neighbors(id, l + 1)| <= list[255] % 256
  {
    hide Flat, UpperBlob, UpperIds, Record, Get, EncodedHnsw, At, Neighbors, WalkRecord, Search, RecordOffset, ByteAt,
      RecordParts, Fits, ShortBelow, HnswView.SlotAt;
    var ids, node := UpperIds(x, order, x.N()), Node(x, order, id);
    SectionRegions(x, order);
    var i := Locate(x, order, id);
    IndexRead(x, order, i);
    RecordMisread(x, order, UpperBlob(x, order), 4 + |ids| * 8 + RecordOffset(x, order, i), node, l);
  }

  lemma RecordMisread(x: IndexData, order: seq<nat>, blob: seq<byte>, p: nat, node: nat, l: nat)
    requires Renumbers(x, order) && Fits(x, order) && node < x.N() && At(blob, p, Record(x, order, node))
    requires 1 <= l < x.Level(node) && l < 255 && |x.links[node][l]| > 255 && ShortBelow(x, node, l)
    ensures ByteAt(blob, p) == Some(Min(x.Level(node), 255))
    ensures |Neighbors(x, order, node, l)| > 255
    ensures |WalkRecord(blob, p + 1, 1, Min(x.Level(node), 255), l + 1)| <= Neighbors(x, order, node, l)[255] % 256
  {
    hide Flat, WalkRecord, EncodedHnsw, RecordParts, Neighbors, IdsFit, At;
    RecordHead(x, order, blob, p, node);
    var lists, level := UpperLists(x, order, node), Min(x.Level(node), 255);
    forall i | 0 <= i < l
      ensures IdsFit(lists[i]) && |lists[i]| == |x.links[node][i + 1]| && (i < l - 1 ==> |lists[i]| <= 255)
    {
      DegreeKept(x, order, node, i + 1);
      NeighborsFit(x, order, node, i + 1);
    }
    assert RecordStart(lists, 1) == 0 by { FlatNone(RecordsOf(lists)); }
    WalkInto(blob, p + 1, lists, 1, level, l);
  }

  /** The walk that reaches an overlong list at layer `l` goes on inside it. */
  lemma {:induction false} WalkInto(blob: seq<byte>, p: nat, lists: seq<seq<nat>>, at: nat, level: nat, l: nat)
    requires 1 <= at <= l < level <= |lists| && |lists[l - 1]| > 255
    requires forall i :: 0 <= i < l - 1 ==> ListFits(lists[i])
    requires IdsFit(lists[l - 1]) && At(blob, p, Flat(RecordsOf(lists)))
    ensures |WalkRecord(blob, p + RecordStart(lists, at), at, level, l + 1)| <= lists[l - 1][255] % 256
    decreases l - at
  {
    hide LayerRecord, Words, At, ListFits, IdsFit, ByteAt, RecordStart, RecordsOf, Listed, LEs;
    ListFitsIds(lists[at - 1]);
    WalkStep(blob, p, lists, at);
    if at < l {
      FitsListed(lists[at - 1]);
      WalkInto(blob, p, lists, at + 1, level, l);
    } else {
      var q := p + RecordStart(lists, l) + 1 + 255 * 4;
      WordByte(blob, p + RecordStart(lists, l) + 1, lists[l - 1], 255);
      WordsFew(blob, q + 1, lists[l - 1][255] % 256);
    }
  }

  /** The first byte of a stored word. */
  lemma WordByte(blob: seq<byte>, off: nat, list: seq<nat>, k: nat)
    requires At(blob, off, LEs(4, list)) && k < |list|
    ensures ByteAt(blob, off + k * 4) == Some(list[k] % 256)
  {
    hide LEs;
    LEsAt(4, list, k);
    AtInner(blob, off, LEs(4, list), k * 4, LE(4, list[k]));
    assert blob[off + k * 4] == blob[off + k * 4..off + k * 4 + 4][0];
  }

  lemma {:induction false} WordsFew(b: seq<byte>, off: nat, count: nat)
    ensures |Words(b, off, count)| <= count
    decreases count
  {
    hide Get;
    if count > 0 {
      WordsFew(b, off + 4, count - 1);
    }
  }
}
