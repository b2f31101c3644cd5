/**
 Writing an HNSW section and searching it: the loops of `serialize_hnsw`, the cursor of
 `HnswView::neighbors`, and the gated search over the bytes.
 */
module HnswSearch {
  import opened Wrappers
  import opened Numbers
  import opened Bytes
  import opened Beams
  import opened HnswIndex
  import opened HnswPages
  import opened HnswSections

  // ---- the writer ----

  /** `old_to_new`, the inverse of the BFS order. */
  method Invert(order: seq<nat>, n: nat) returns (oldToNew: array<nat>)
    requires Permutation(order, n)
    ensures fresh(oldToNew) && oldToNew.Length == n
    ensures forall node: nat :: node < n ==> node in order && oldToNew[node] == Rank(order, node)
  {
    PermutationHits(order, n);
    oldToNew := new nat[n](_ => 0);
    for i := 0 to n
      invariant forall k :: 0 <= k < i ==> order[k] < n && oldToNew[order[k]] == k
    {
      assert order[i] in order;
      oldToNew[order[i]] := i;
    }
    forall node: nat | node < n
      ensures oldToNew[node] == Rank(order, node)
    {
      assert order[Rank(order, node)] == node;
    }
  }

  method Renumbered(list: seq<nat>, order: seq<nat>, n: nat, oldToNew: array<nat>) returns (r: seq<nat>)
    requires oldToNew.Length == n && forall node: nat :: node < n ==> node in order && oldToNew[node] == Rank(order, node)
    requires forall y <- list :: y < n
    ensures (forall y <- list :: y in order) && r == Ranks(order, list)
  {
    r := [];
    for i := 0 to |list|
      invariant |r| == i && forall k :: 0 <= k < i ==> list[k] in order && r[k] == Rank(order, list[k])
    {
      assert list[i] in list;
      r := r + [oldToNew[list[i]]];
    }
  }

  /** `all` with `src` written over it at `at`. */
  function Patch(all: seq<byte>, at: nat, src: seq<byte>): (r: seq<byte>)
    requires at + |src| <= |all|
    ensures |r| == |all|
  {
    all[..at] + (src + all[at + |src|..])
  }

  method Overwrite(b: array<byte>, at: nat, src: seq<byte>)
    requires at + |src| <= b.Length
    modifies b
    ensures b[..] == Patch(old(b[..]), at, src)
  {
    CopyFromSlice(b, at, src);
    assert b[..] == b[..at + |src|] + b[at + |src|..];
  }

  /** Two writes side by side are one. */
  lemma PatchTwice(all: seq<byte>, at: nat, a: seq<byte>, b: seq<byte>)
    requires at + |a| + |b| <= |all|
    ensures Patch(Patch(all, at, a), at + |a|, b) == Patch(all, at, a + b)
  {
  }

  /** The `m0` neighbor words of a slot, in place. */
  method FillWords(slots: array<byte>, at: nat, neighbors: seq<nat>, m0: nat)
    requires at + m0 * 4 <= slots.Length
    modifies slots
    ensures |LEs(4, Padded(neighbors, m0))| == m0 * 4
    ensures slots[..] == Patch(old(slots[..]), at, LEs(4, Padded(neighbors, m0)))
  {
    hide LE, LEs, Patch;
    ghost var words, all := Padded(neighbors, m0), slots[..];
    LEsLength(4, words);
    LEsLength(4, words[..0]);
    PatchNone(all, at, LEs(4, words[..0]));
    for i := 0 to m0
      invariant |LEs(4, words[..i])| == i * 4
      invariant slots[..] == Patch(all, at, LEs(4, words[..i]))
    {
      LEsSnoc(4, words, i);
      PatchTwice(all, at, LEs(4, words[..i]), LE(4, words[i]));
      Overwrite(slots, at + i * 4, LE(4, if i < |neighbors| then neighbors[i] else NO_NEIGHBOR));
    }
    assert words[..m0] == words;
  }

  lemma PatchNone(all: seq<byte>, at: nat, none: seq<byte>)
    requires at <= |all| && |none| == 0
    ensures Patch(all, at, none) == all
  {
  }

  /** Fill the slot at `base` in place. */
  method FillSlot(slots: array<byte>, base: nat, local: u32, level: nat, degree: nat, neighbors: seq<nat>, m0: nat, code: seq<byte>)
    requires base + SlotSizeOf(m0, |code|) <= slots.Length
    modifies slots
    ensures |SlotBytes(local, level, degree, neighbors, m0, code)| == SlotSizeOf(m0, |code|)
    ensures slots[..] == Patch(old(slots[..]), base, SlotBytes(local, level, degree, neighbors, m0, code))
  {
    hide LE, LEs, SlotHead, Patch;
    ghost var all, head, words := slots[..], SlotHead(local, level, degree, m0), LEs(4, Padded(neighbors, m0));
    LEsLength(4, Padded(neighbors, m0));
    Overwrite(slots, base, SlotHead(local, level, degree, m0));
    FillWords(slots, base + 8, neighbors, m0);
    PatchTwice(all, base, head, words);
    Overwrite(slots, base + 8 + m0 * 4, code);
    PatchTwice(all, base, head + words, code);
    assert head + words + code == SlotBytes(local, level, degree, neighbors, m0, code);
  }

  /** `oldToNew` is the inverse of `order`. */
  ghost predicate Inverse(oldToNew: array<nat>, order: seq<nat>, n: nat)
    reads oldToNew
  {
    oldToNew.Length == n && forall node: nat :: node < n ==> node in order && oldToNew[node] == Rank(order, node)
  }

  /** The slot region: one slot per node, in the new order. */
  method FillSlots(x: IndexData, order: seq<nat>, oldToNew: array<nat>) returns (slots: array<byte>)
    requires Renumbers(x, order) && Inverse(oldToNew, order, x.N())
    ensures fresh(slots) && slots[..] == Flat(SlotParts(x, order))
  {
    hide LE, LEs, Flat, SlotBytes, SlotSizeOf, Patch, Rank;
    var size := x.SlotSize();
    slots := new byte[SlotBase(0, x.N(), size)](_ => 0);
    ghost var zeros := slots[..];
    ghost var parts := SlotParts(x, order);
    SlotLengths(x, order);
    FlatNone(parts);
    PatchNone(zeros, 0, Flat(parts[..0]));
    for i := 0 to x.N()
      invariant |Flat(parts[..i])| == SlotBase(0, i, size)
      invariant slots[..] == Patch(zeros, 0, Flat(parts[..i]))
    {
      var node := Node(x, order, i);
      ListsRenumber(x, order, node, 0);
      var neighbors := Renumbered(x.links[node][0], order, x.N(), oldToNew);
      SlotsFit(i, x.N(), size);
      FlatSnoc(parts, i);
      assert |parts[i]| == size;
      PatchTwice(zeros, 0, Flat(parts[..i]), parts[i]);
      FillSlot(slots, SlotBase(0, i, size), x.localOffsets[node], x.Level(node), |x.links[node][0]|, neighbors, x.M0(), x.codes[node]);
    }
    assert parts[..x.N()] == parts;
    PatchAll(zeros, Flat(parts));
  }

  lemma SlotsFit(i: nat, n: nat, size: nat)
    requires i < n
    ensures SlotBase(0, i, size) + size == SlotBase(0, i + 1, size) <= SlotBase(0, n, size)
  {
  }

  lemma PatchAll(all: seq<byte>, src: seq<byte>)
    requires |src| == |all|
    ensures Patch(all, 0, src) == src
  {
  }

  method UpperNodes(x: IndexData, order: seq<nat>) returns (upper: seq<nat>)
    requires Renumbers(x, order)
    ensures upper == UpperIds(x, order, x.N())
  {
    hide GraphOk, Permutation;
    upper := [];
    for id := 0 to x.N()
      invariant upper == UpperIds(x, order, id)
    {
      if x.Level(Node(x, order, id)) > 0 {
        upper := upper + [id];
      }
    }
  }

  /** The records of the upper layers, and the index of their offsets. */
  method UpperRecords(x: IndexData, order: seq<nat>, oldToNew: array<nat>) returns (idx: seq<byte>, count: nat, records: seq<byte>)
    requires Renumbers(x, order) && Inverse(oldToNew, order, x.N())
    ensures idx == Flat(EntryParts(x, order)) && records == Flat(RecordParts(x, order)) && count == |UpperIds(x, order, x.N())|
  {
    hide LE, LEs, Flat, Rank, Record, UpperIds;
    var upper := UpperNodes(x, order);
    idx, records, count := [], [], |upper|;
    FlatNone(EntryParts(x, order));
    FlatNone(RecordParts(x, order));
    for i := 0 to |upper|
      invariant idx == Flat(EntryParts(x, order)[..i]) && records == Flat(RecordParts(x, order)[..i])
    {
      FlatSnoc(EntryParts(x, order), i);
      FlatSnoc(RecordParts(x, order), i);
      idx := idx + (LE(4, upper[i]) + LE(4, |records|));
      records := PushRecord(x, order, oldToNew, Node(x, order, upper[i]), records);
    }
    assert EntryParts(x, order)[..|upper|] == EntryParts(x, order);
    assert RecordParts(x, order)[..|upper|] == RecordParts(x, order);
  }

  method PushRecord(x: IndexData, order: seq<nat>, oldToNew: array<nat>, node: nat, was: seq<byte>) returns (records: seq<byte>)
    requires Renumbers(x, order) && Inverse(oldToNew, order, x.N()) && node < x.N()
    ensures records == was + Record(x, order, node)
  {
    hide LE, LEs, Flat, Rank;
    records := was + [Clamped(x.Level(node))];
    ghost var head, parts := records, LayerRecords(x, order, node);
    FlatNone(parts);
    for l := 0 to x.Level(node)
      invariant records == head + Flat(parts[..l])
    {
      FlatSnoc(parts, l);
      ListsRenumber(x, order, node, l + 1);
      var neighbors := Renumbered(x.links[node][l + 1], order, x.N(), oldToNew);
      records := records + [Clamped(|neighbors|)];
      records := PushAll(4, neighbors, records);
      assert records == head + Flat(parts[..l]) + LayerRecord(neighbors);
    }
    assert parts[..x.Level(node)] == parts;
  }

  /** `quantize`, and what serialization reads of the index: any index that insertion built can be serialized. */
  method Quantized<V(!new)>(h: Hnsw<V>, columnId: u32, dim: u16, quantize: V -> seq<byte>, qmin: seq<u32>, qscale: seq<u32>,
                            localOffsets: seq<u32>) returns (x: IndexData)
    requires h.Valid() && |localOffsets| == |h.vectors| && |qmin| == |qscale| == dim
    requires forall v: V :: |quantize(v)| == dim
    ensures x.Valid() && x.links == h.links && x.m == h.m && x.entry == h.entry && x.maxLevel == h.maxLevel
    ensures x.localOffsets == localOffsets && forall k :: 0 <= k < |h.vectors| ==> x.codes[k] == quantize(h.vectors[k])
  {
    var codes: seq<seq<byte>> := [];
    for k := 0 to |h.vectors|
      invariant |codes| == k && forall j :: 0 <= j < k ==> codes[j] == quantize(h.vectors[j])
    {
      codes := codes + [quantize(h.vectors[k])];
    }
    x := IndexData(columnId, dim, h.m, h.links, h.entry, h.maxLevel, codes, qmin, qscale, localOffsets);
  }

  /** `serialize_hnsw`. */
  method SerializeHnsw(x: IndexData) returns (bytes: seq<byte>)
    requires x.Valid()
    ensures Closed(Layer(x.links, 0), LayerNodes(x.links, 0))
    ensures exists order :: Renumbers(x, order) && BfsOrder(x.links, order) && bytes == EncodedHnsw(x, order)
  {
    hide LE, LEs, Flat, Rank, SlotParts, EntryParts, RecordParts, BfsOrder, Header, UpperIds;
    LayerClosed(x.links, x.m, 0);
    var newToOld := ComputeBfsOrder(x.links);
    var oldToNew := Invert(newToOld, x.N());
    var entryPoint := if x.entry.Some? then oldToNew[x.entry.value] else 0;
    var slots := FillSlots(x, newToOld, oldToNew);
    var idx, count, records := UpperRecords(x, newToOld, oldToNew);
    var blob := LE(4, count) + (idx + records);
    bytes := Assemble(x, entryPoint, slots[..], blob);
  }

  /** Header, quantizer, slots and upper layers, in file order. */
  method Assemble(x: IndexData, entryPoint: nat, slots: seq<byte>, blob: seq<byte>) returns (bytes: seq<byte>)
    ensures bytes == Header(x, entryPoint, |slots|, |blob|) + (LEs(4, x.qmin) + (LEs(4, x.qscale) + (slots + blob)))
  {
    hide LEs, Header;
    bytes := Header(x, entryPoint, |slots|, |blob|);
    bytes := PushAll(4, x.qmin, bytes);
    bytes := PushAll(4, x.qscale, bytes);
    bytes := bytes + slots;
    bytes := bytes + blob;
  }

  // ---- reading the view ----

  /** Binary search of the upper-layer index. */
  method FindRecord(blob: seq<byte>, count: nat, id: nat) returns (off: Option<nat>)
    ensures off == Search(blob, 0, count, id)
  {
    hide Get;
    var lo: nat, hi: nat := 0, count;
    while lo < hi
      invariant lo <= hi
      invariant Search(blob, 0, count, id) == Search(blob, lo, hi, id)
      decreases hi - lo
    {
      var mid := (lo + hi) / 2;
      var key := Get(4, blob, 4 + mid * 8);
      if key.None? {
        return None;
      }
      if key.value == id {
        return Get(4, blob, 4 + mid * 8 + 4);
      }
      if key.value < id {
        lo := mid + 1;
      } else {
        hi := mid;
      }
    }
    off := None;
  }

  method PushIds(b: seq<byte>, off: nat, count: nat) returns (out: seq<u32>)
    ensures out == Words(b, off, count)
  {
    hide Get, Words;
    Pow256Values();
    out := [];
    ghost var all := Words(b, off, count);
    for i := 0 to count
      invariant all == out + Words(b, off + i * 4, count - i)
    {
      WordsUnfold(b, off + i * 4, count - i);
      var w := Get(4, b, off + i * 4);
      if w.None? {
        return;
      }
      out := out + [w.value];
    }
    NoWords(b, off + count * 4);
  }

  lemma WordsUnfold(b: seq<byte>, off: nat, count: nat)
    requires count > 0
    ensures var w := Get(4, b, off);
            && (w.None? ==> Words(b, off, count) == [])
            && (w.Some? ==> w.value < U32_LIMIT && Words(b, off, count) == [w.value] + Words(b, off + 4, count - 1))
  {
    hide Get;
    Pow256Values();
  }

  lemma NoWords(b: seq<byte>, off: nat)
    ensures Words(b, off, 0) == []
  {
  }

  /** `neighbors`: the cursor `p` skips the lists below `layer`. */
  method GetNeighbors(v: HnswView, id: nat, layer: nat) returns (out: seq<u32>)
    ensures out == v.Neighbors(id, layer)
  {
    hide Get, Words, Search, ByteAt;
    if layer == 0 {
      var s := v.SlotAt(id);
      if s.None? {
        return [];
      }
      out := PushIds(s.value, 8, Min(s.value[5] as nat, v.m0));
      return;
    }
    if v.upperOff > |v.bytes| {
      return [];
    }
    var blob := v.bytes[v.upperOff..];
    var count := Get(4, blob, 0);
    if count.None? || 4 + count.value * 8 > |blob| {
      return [];
    }
    var off := FindRecord(blob, count.value, id);
    if off.None? {
      return [];
    }
    var p: nat := 4 + count.value * 8 + off.value;
    var level := ByteAt(blob, p);
    if level.None? {
      return [];
    }
    p := p + 1;
    out := [];
    for l := 1 to level.value + 1
      invariant v.Neighbors(id, layer) == WalkRecord(blob, p, l, level.value, layer)
    {
      var cnt := ByteAt(blob, p);
      if cnt.None? {
        return;
      }
      p := p + 1;
      if l == layer {
        out := PushIds(blob, p, cnt.value);
        return;
      }
      p := p + cnt.value * 4;
    }
  }

  // ---- searching the view ----

  function ViewGraph(v: HnswView, layer: nat): Graph {
    (id: nat) => v.Neighbors(id, layer)
  }

  function ViewLayers(v: HnswView): nat -> Graph {
    (lc: nat) => ViewGraph(v, lc)
  }

  /** A set of ids that no neighbor list of the view leaves. */
  ghost predicate Holds(v: HnswView, nodes: set<nat>) {
    forall layer: nat :: Closed(ViewGraph(v, layer), nodes)
  }

  /** For arbitrary bytes, the 32-bit ids are such a set. */
  lemma AnyBytesHold(v: HnswView)
    ensures Holds(v, UpTo(U32_LIMIT)) && v.entryPoint in UpTo(U32_LIMIT)
  {
    hide HnswView.Neighbors;
    UpToIs(U32_LIMIT);
  }

  /** Distance to a node's code; a fixed far value where no code can be read. */
  function CodeDistance(v: HnswView, l2: seq<byte> -> real, far: real): Distance {
    (id: nat) => var c := v.Code(id); if c.Some? then l2(c.value) else far
  }

  /** A node is admitted when it has a row offset and the caller's predicate accepts it. */
  function AdmitRow(v: HnswView, admit: nat -> bool): Admit {
    (id: nat) => var lo := v.LocalOffset(id); lo.Some? && admit(lo.value)
  }

  datatype Neighbor = Neighbor(node: nat, localOffset: nat, dist: real)

  /** How many nodes were visited in all, layer by layer. */
  ghost function Sizes(layers: seq<set<nat>>): nat {
    if layers == [] then 0 else Sizes(layers[..|layers| - 1]) + |layers[|layers| - 1]|
  }

  lemma SizesSnoc(layers: seq<set<nat>>, visited: set<nat>)
    ensures Sizes(layers + [visited]) == Sizes(layers) + |visited|
  {
    assert (layers + [visited])[..|layers|] == layers;
  }

  /**
   `search_inner` over any bytes: the gated beam's nodes, none of them lost on the way out, and one distance
   evaluated for each node visited on each layer.
   */
  method SearchInner(v: HnswView, ghost nodes: set<nat>, l2: seq<byte> -> real, far: real, ef: nat, admit: nat -> bool)
    returns (out: seq<Neighbor>, evals: nat, ghost ep: nat, ghost found: seq<nat>, ghost visited: set<nat>, ghost above: seq<set<nat>>)
    requires Holds(v, nodes) && v.entryPoint in nodes
    ensures v.numNodes == 0 ==> out == [] && evals == 0
    ensures v.numNodes > 0 ==> evals == Sizes(above) + |visited| && |above| == if v.numLevels > 0 then v.numLevels - 1 else 0
    ensures v.numNodes > 0 ==>
              && ep in nodes
              && Descent(ViewLayers(v), _ => nodes, CodeDistance(v, l2, far), v.entryPoint, ep, if v.numLevels > 0 then v.numLevels - 1 else 0, 0, above)
              && GatedFound(ViewGraph(v, 0), nodes, CodeDistance(v, l2, far), AdmitRow(v, admit), ep, ef, found, visited)
              && |out| == |found|
              && forall i :: 0 <= i < |out| ==>
                   && out[i].node == found[i] && v.LocalOffset(found[i]) == Some(out[i].localOffset)
                   && admit(out[i].localOffset) && out[i].dist == CodeDistance(v, l2, far)(found[i])
  {
    hide HnswView.Neighbors, HnswView.Code, HnswView.LocalOffset, GatedFound, BeamFound, Descent;
    out, evals, ep, found, visited, above := [], 0, 0, [], {}, [];
    if v.numNodes == 0 {
      return;
    }
    var d := CodeDistance(v, l2, far);
    var at: nat := v.entryPoint;
    var lc := if v.numLevels > 0 then v.numLevels - 1 else 0;
    ghost var layers, within := lc, _ => nodes;
    NoDescent(ViewLayers(v), within, d, at, layers, layers);
    while lc > 0
      invariant at in nodes && 0 <= lc <= layers && Descent(ViewLayers(v), within, d, v.entryPoint, at, layers, lc, above)
      invariant evals == Sizes(above) && lc >= 0 && lc + |above| == layers
    {
      var w, more, seen := SearchLayer(ViewGraph(v, lc), nodes, d, at, 1);
      FirstInside(ViewGraph(v, lc), nodes, d, at, 1, w, seen);
      OneResult(ViewGraph(v, lc), nodes, d, at, w, seen);
      DescentMore(ViewLayers(v), within, d, v.entryPoint, at, w[0], layers, lc - 1, above, seen);
      at := w[0];
      SizesSnoc(above, seen);
      evals, above := evals + more, above + [seen];
      lc := lc - 1;
    }
    var w, more, seen := BeamGated(ViewGraph(v, 0), nodes, d, AdmitRow(v, admit), at, ef);
    evals := evals + more;
    for i := 0 to |w|
      invariant |out| == i
      invariant forall k :: 0 <= k < i ==> && out[k].node == w[k] && v.LocalOffset(w[k]) == Some(out[k].localOffset)
                                           && admit(out[k].localOffset) && out[k].dist == d(w[k])
    {
      ResultAdmitted(ViewGraph(v, 0), nodes, d, AdmitRow(v, admit), at, ef, w, seen, i);
      var lo := v.LocalOffset(w[i]);
      if lo.Some? {
        out := out + [Neighbor(w[i], lo.value, d(w[i]))];
      }
    }
    ep, found, visited := at, w, seen;
  }

  /** Parse any bytes and search them: at most `ef` different nodes, nearest first, each an admitted row of the section. */
  method SearchBytes(bytes: seq<byte>, l2: seq<byte> -> real, far: real, ef: nat, admit: nat -> bool) returns (out: Option<seq<Neighbor>>)
    ensures out.None? <==> ParseHnsw(bytes).None?
    ensures out.Some? ==>
              && |out.value| <= ef
              && (forall i, j :: 0 <= i < j < |out.value| ==>
                    out.value[i].node != out.value[j].node && out.value[i].dist <= out.value[j].dist)
              && forall i :: 0 <= i < |out.value| ==>
                   && ParseHnsw(bytes).value.LocalOffset(out.value[i].node) == Some(out.value[i].localOffset)
                   && admit(out.value[i].localOffset)
  {
    hide HnswView.LocalOffset, HnswView.Code, ParseHnsw, Reach;
    var v := ParseHnsw(bytes);
    if v.None? {
      return None;
    }
    AnyBytesHold(v.value);
    var rows, evals, ep, found, visited, above := SearchInner(v.value, UpTo(U32_LIMIT), l2, far, ef, admit);
    out := Some(rows);
  }

  lemma FirstInside(g: Graph, nodes: set<nat>, d: Distance, ep: nat, ef: nat, w: seq<nat>, visited: set<nat>)
    requires Closed(g, nodes) && BeamFound(g, nodes, d, ep, ef, w, visited)
    ensures |w| > 0 && w[0] in nodes && d(w[0]) <= d(ep)
  {
    hide Reach;
    FoundNearest(g, nodes, d, ep, ef, w, visited);
    assert w[0] in Elements(w);
  }

  lemma ResultAdmitted(g: Graph, nodes: set<nat>, d: Distance, admit: Admit, ep: nat, ef: nat, w: seq<nat>, visited: set<nat>, i: nat)
    requires Closed(g, nodes) && GatedFound(g, nodes, d, admit, ep, ef, w, visited) && i < |w|
    ensures admit(w[i])
  {
    hide Reach;
    assert w[i] in Elements(w);
  }

  // ---- the same search space ----

  /** Ids of a serialized index lead only to ids of that index. */
  lemma SerializedHolds(x: IndexData, order: seq<nat>)
    requires Renumbers(x, order) && Fits(x, order) && EntryPoint(x, order) < U32_LIMIT && DegreesFit(x)
    ensures Holds(ViewOf(x, order), UpTo(x.N()))
    ensures x.N() > 0 ==> EntryPoint(x, order) in UpTo(x.N())
  {
    hide HnswView.Neighbors, ViewOf, EncodedHnsw, Neighbors, Fits;
    UpToIs(x.N());
    PermutationHits(order, x.N());
    forall layer: nat
      ensures Closed(ViewGraph(ViewOf(x, order), layer), UpTo(x.N()))
    {
      forall id, y | id in UpTo(x.N()) && y in ViewOf(x, order).Neighbors(id, layer)
        ensures y in UpTo(x.N())
      {
        SameEverywhere(x, order, id, layer);
        RanksBelow(x, order, Node(x, order, id), layer);
      }
    }
  }

  lemma RanksBelow(x: IndexData, order: seq<nat>, node: nat, layer: nat)
    requires Renumbers(x, order) && node < x.N() && layer < |x.links[node]|
    ensures forall y <- Neighbors(x, order, node, layer) :: y < x.N()
  {
    ListsRenumber(x, order, node, layer);
  }

  /** `y` renumbered is a neighbor in the view exactly when `y` is one in the index. */
  lemma EdgeAgrees(x: IndexData, order: seq<nat>, node: nat, layer: nat, id: nat)
    requires Renumbers(x, order) && node < x.N() && layer < |x.links[node]| && id < x.N()
    ensures id in Neighbors(x, order, node, layer) <==> Node(x, order, id) in x.links[node][layer]
  {
    ListsRenumber(x, order, node, layer);
    var list := x.links[node][layer];
    if Node(x, order, id) in list {
      var i :| 0 <= i < |list| && list[i] == order[id];
      RankOf(order, id);
      assert Neighbors(x, order, node, layer)[i] == id;
    }
  }

  /** `order` renames the nodes of `all` to those of `nodes` and the edges of `g` to those of `l`. */
  ghost predicate Isomorphic(g: Graph, all: set<nat>, l: Graph, nodes: set<nat>, order: seq<nat>)
    requires Closed(g, all) && Closed(l, nodes)
  {
    && Distinct(order) && (forall id: nat :: id in all <==> id < |order|)
    && (forall id <- all :: order[id] in nodes)
    && (forall y <- nodes :: y in order)
    && forall c <- all, b <- all :: b in g(c) <==> order[b] in l(order[c])
  }

  /** Both ends of a renamed edge. */
  lemma SameEdge(x: IndexData, order: seq<nat>, c: nat, b: nat)
    requires Renumbers(x, order) && Fits(x, order) && EntryPoint(x, order) < U32_LIMIT && DegreesFit(x) && c < x.N() && b < x.N()
    ensures order[c] in LayerNodes(x.links, 0) && Layer(x.links, 0).requires(order[c])
    ensures b in ViewOf(x, order).Neighbors(c, 0) <==> order[b] in Layer(x.links, 0)(order[c])
  {
    hide HnswView.Neighbors, ViewOf, EncodedHnsw, Neighbors, Fits, Rank;
    SameEverywhere(x, order, c, 0);
    EdgeAgrees(x, order, Node(x, order, c), 0, b);
  }

  lemma SameEdges(x: IndexData, order: seq<nat>)
    requires Renumbers(x, order) && Fits(x, order) && EntryPoint(x, order) < U32_LIMIT && DegreesFit(x)
    ensures Closed(ViewGraph(ViewOf(x, order), 0), UpTo(x.N())) && Closed(Layer(x.links, 0), LayerNodes(x.links, 0))
    ensures Isomorphic(ViewGraph(ViewOf(x, order), 0), UpTo(x.N()), Layer(x.links, 0), LayerNodes(x.links, 0), order)
  {
    hide HnswView.Neighbors, ViewOf, EncodedHnsw, Neighbors, Fits, Rank, GraphOk, EntryPoint, Layer, Closed, Isomorphic, UpTo, LayerNodes;
    UpToIs(x.N());
    SerializedHolds(x, order);
    LayerClosed(x.links, x.m, 0);
    PermutationHits(order, x.N());
    var g, l, nodes := ViewGraph(ViewOf(x, order), 0), Layer(x.links, 0), LayerNodes(x.links, 0);
    forall c: nat, b: nat | c < x.N() && b < x.N()
      ensures order[c] in nodes && l.requires(order[c]) && (b in g(c) <==> order[b] in l(order[c]))
    {
      SameEdge(x, order, c, b);
    }
    forall y | y in nodes
      ensures y in order
    {
      LayerNodesBelow(x.links, y);
    }
    RenamesAll(g, UpTo(x.N()), l, nodes, order);
  }

  lemma LayerNodesBelow(links: Links, y: nat)
    requires y in LayerNodes(links, 0)
    ensures y < |links|
  {
  }

  lemma RenamesAll(g: Graph, all: set<nat>, l: Graph, nodes: set<nat>, order: seq<nat>)
    requires Closed(g, all) && Closed(l, nodes) && Distinct(order) && (forall y <- nodes :: y in order)
    requires forall id: nat :: id in all <==> id < |order|
    requires forall c: nat, b: nat | c < |order| && b < |order| ::
               order[c] in nodes && g.requires(c) && l.requires(order[c]) && (b in g(c) <==> order[b] in l(order[c]))
    ensures Isomorphic(g, all, l, nodes, order)
  {
    forall id | id in all
      ensures order[id] in nodes
    {
      assert id in g(id) || id !in g(id);
    }
  }

  lemma EdgeMatches(g: Graph, all: set<nat>, l: Graph, nodes: set<nat>, order: seq<nat>, c: nat, b: nat)
    requires Closed(g, all) && Closed(l, nodes) && Isomorphic(g, all, l, nodes, order) && c in all && b in all
    ensures c < |order| && b < |order| && order[c] in nodes && order[b] in nodes
    ensures b in g(c) <==> order[b] in l(order[c])
    ensures order[c] == order[b] ==> c == b
  {
  }

  lemma NodeMatches(g: Graph, all: set<nat>, l: Graph, nodes: set<nat>, order: seq<nat>, y: nat) returns (c: nat)
    requires Closed(g, all) && Closed(l, nodes) && Isomorphic(g, all, l, nodes, order) && y in nodes
    ensures c in all && c < |order| && order[c] == y
  {
    assert y in order;
    c :| 0 <= c < |order| && order[c] == y;
  }

  /** Walks correspond under a renaming. */
  lemma {:induction false} WalksMatch(g: Graph, all: set<nat>, l: Graph, nodes: set<nat>, order: seq<nat>, a: nat, b: nat, k: nat)
    requires Closed(g, all) && Closed(l, nodes) && Isomorphic(g, all, l, nodes, order) && a in all && b in all
    ensures a < |order| && b < |order| && (Walk(g, all, a, b, k) <==> Walk(l, nodes, order[a], order[b], k))
    decreases k
  {
    hide Isomorphic;
    EdgeMatches(g, all, l, nodes, order, a, b);
    if k > 0 {
      if Walk(g, all, a, b, k) {
        var c :| c in all && Walk(g, all, a, c, k - 1) && b in g(c);
        WalksMatch(g, all, l, nodes, order, a, c, k - 1);
        EdgeMatches(g, all, l, nodes, order, c, b);
      }
      if Walk(l, nodes, order[a], order[b], k) {
        var y :| y in nodes && Walk(l, nodes, order[a], y, k - 1) && order[b] in l(y);
        var c := NodeMatches(g, all, l, nodes, order, y);
        WalksMatch(g, all, l, nodes, order, a, c, k - 1);
        EdgeMatches(g, all, l, nodes, order, c, b);
      }
    }
  }

  /** Reachable sets correspond under a renaming. */
  lemma ReachMatches(g: Graph, all: set<nat>, l: Graph, nodes: set<nat>, order: seq<nat>, a: nat, b: nat)
    requires Closed(g, all) && Closed(l, nodes) && Isomorphic(g, all, l, nodes, order) && a in all && b in all
    ensures a < |order| && b < |order| && (b in Reach(g, all, a) <==> order[b] in Reach(l, nodes, order[a]))
  {
    hide Isomorphic, Walk;
    EdgeMatches(g, all, l, nodes, order, a, b);
    forall k: nat
      ensures Walk(g, all, a, b, k) <==> Walk(l, nodes, order[a], order[b], k)
    {
      WalksMatch(g, all, l, nodes, order, a, b, k);
    }
  }

  /** The view reaches no more nodes than the index does. */
  lemma {:induction false} RenamedFew(a: set<nat>, b: set<nat>, order: seq<nat>)
    requires Distinct(order) && forall id <- a :: id < |order| && order[id] in b
    ensures |a| <= |b|
  {
    if a != {} {
      var id :| id in a;
      RenamedFew(a - {id}, b - {order[id]}, order);
    }
  }

  /** With room for everything the index reaches, searching the bytes finds exactly its admitted rows. */
  lemma SearchedRows(x: IndexData, order: seq<nat>, d: Distance, admit: nat -> bool, ep: nat, ef: nat, found: seq<nat>, visited: set<nat>, id: nat)
    requires Renumbers(x, order) && Fits(x, order) && EntryPoint(x, order) < U32_LIMIT && DegreesFit(x) && ep < x.N() && id < x.N()
    requires Closed(ViewGraph(ViewOf(x, order), 0), UpTo(x.N())) && Closed(Layer(x.links, 0), LayerNodes(x.links, 0))
    requires |Reach(Layer(x.links, 0), LayerNodes(x.links, 0), order[ep])| <= ef
    requires GatedFound(ViewGraph(ViewOf(x, order), 0), UpTo(x.N()), d, AdmitRow(ViewOf(x, order), admit), ep, ef, found, visited)
    ensures id in found <==>
              && order[id] in Reach(Layer(x.links, 0), LayerNodes(x.links, 0), order[ep])
              && admit(x.localOffsets[order[id]])
  {
    hide HnswView.Neighbors, HnswView.LocalOffset, ViewOf, EncodedHnsw, Neighbors, Fits, GatedFound, Reach, Isomorphic, Layer, LayerNodes;
    var g, all, l, nodes := ViewGraph(ViewOf(x, order), 0), UpTo(x.N()), Layer(x.links, 0), LayerNodes(x.links, 0);
    UpToIs(x.N());
    SameEdges(x, order);
    forall b | b in Reach(g, all, ep)
      ensures b < |order| && order[b] in Reach(l, nodes, order[ep])
    {
      ReachMatches(g, all, l, nodes, order, ep, b);
    }
    RenamedFew(Reach(g, all, ep), Reach(l, nodes, order[ep]), order);
    GatedExact(g, all, d, AdmitRow(ViewOf(x, order), admit), ep, ef, found, visited);
    assert id in found <==> id in Elements(found);
    SlotAgrees(x, order, id);
    ReachMatches(g, all, l, nodes, order, ep, id);
  }
}
