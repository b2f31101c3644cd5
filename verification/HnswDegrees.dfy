/**
 Indexes that insertion builds and serialization loses. With room for everything each layer becomes a complete
 graph; from 257 nodes on its degrees no longer fit a byte.
 */
module HnswDegrees {
  import opened Wrappers
  import opened Numbers
  import opened Bytes
  import opened Beams
  import opened HnswIndex
  import opened HnswPages
  import opened HnswSections
  import HnswSearch

  // ---- complete layers ----

  /** At layer `lc` node `x` lists exactly the other nodes of the layer. */
  ghost predicate ListsOthers(links: Links, x: nat, lc: nat)
    requires x < |links| && lc < |links[x]|
  {
    Elements(links[x][lc]) == LayerNodes(links, lc) - {x}
  }

  ghost predicate FullLayer(links: Links, lc: nat) {
    forall x: nat | x < |links| && lc < |links[x]| :: ListsOthers(links, x, lc)
  }

  ghost predicate Full(links: Links) {
    forall lc: nat :: FullLayer(links, lc)
  }

  lemma DegreeIs(links: Links, m: nat, x: nat, lc: nat)
    requires GraphOk(links, m) && FullLayer(links, lc) && x < |links| && lc < |links[x]|
    ensures |links[x][lc]| == |LayerNodes(links, lc)| - 1
  {
    ListIsOk(links, m, x, lc);
    assert ListsOthers(links, x, lc);
    DistinctCount(links[x][lc]);
    assert x in LayerNodes(links, lc);
  }

  lemma ReachesAll(links: Links, m: nat, lc: nat, ep: nat)
    requires GraphOk(links, m) && FullLayer(links, lc) && Closed(Layer(links, lc), LayerNodes(links, lc)) && ep in LayerNodes(links, lc)
    ensures Reach(Layer(links, lc), LayerNodes(links, lc), ep) == LayerNodes(links, lc)
  {
    hide Reach;
    var g, nodes := Layer(links, lc), LayerNodes(links, lc);
    ReachStart(g, nodes, ep);
    assert ListsOthers(links, ep, lc);
    forall y | y in nodes
      ensures y in Reach(g, nodes, ep)
    {
      if y != ep {
        assert y in Elements(links[ep][lc]);
        ReachStep(g, nodes, ep, ep, y);
      }
    }
  }

  /** With room for all of the layer, the new node's neighbors are all of it. */
  lemma ChoosesAll<V(!new)>(vs: seq<V>, dist: (V, V) -> real, links: Links, m: nat, v: V, ef: nat, lc: nat, list: seq<nat>,
                               from: nat, next: nat)
    requires GraphOk(links, m) && FullLayer(links, lc) && Closed(Layer(links, lc), LayerNodes(links, lc))
    requires Chosen(vs, dist, links, v, ef, lc, list, Cap(m, lc), from, next)
    requires |LayerNodes(links, lc)| <= ef && |LayerNodes(links, lc)| <= Cap(m, lc)
    ensures Elements(list) == LayerNodes(links, lc)
  {
    hide Reach, Selected, DistanceIn, PairIn, GraphOk, FullLayer;
    var g, nodes, d, pair, cap := Layer(links, lc), LayerNodes(links, lc), DistanceIn(vs, dist, v), PairIn(vs, dist), Cap(m, lc);
    var w, visited :| BeamFound(g, nodes, d, from, ef, w, visited) && next == w[0] && list == Selected(d, pair, w, cap);
    ReachesAll(links, m, lc, from);
    BeamExact(g, nodes, d, from, ef, w, visited);
    SelectedFacts(d, pair, w, cap);
    TakesAll(w, list, cap);
  }

  lemma TakesAll(w: seq<nat>, list: seq<nat>, cap: nat)
    requires Distinct(w) && Distinct(list) && |Elements(w)| <= cap && |list| <= cap
    requires (forall x <- list :: x in w) && (|list| < cap ==> forall x <- w :: x in list)
    ensures Elements(list) == Elements(w)
  {
    DistinctCount(list);
    assert Elements(list) <= Elements(w);
    if |list| == cap {
      SubsetCount(Elements(list), Elements(w));
      SameCount(Elements(list), Elements(w));
    }
  }

  // ---- insertion keeps layers complete ----

  /** What `insert` promises of the graph, as a relation of the lists before and after. */
  ghost predicate Inserted<V(!new)>(vs: seq<V>, dist: (V, V) -> real, was: Links, now: Links, v: V, level: nat, from: nat, reach: nat, ef: nat, m: nat) {
    && |vs| == |was| && SameShape(now, WithNode(was, level))
    && (exists route :: Routed(vs, dist, was, v, ef, m, from, level, reach, now[|was|], route))
    && (forall lc: nat | lc <= level && lc <= reach ::
          LayerConnected(vs + [v], dist, WithNode(was, level), now, |was|, lc, now[|was|][lc], Cap(m, lc)))
    && (forall lc: nat | lc > level || lc > reach :: LayerSame(WithNode(was, level), now, lc))
  }

  /** The layers that a new node of level `level` joins have room for it. */
  ghost predicate Room(links: Links, level: nat, ef: nat, m: nat) {
    forall lc: nat | lc <= level :: |LayerNodes(links, lc)| <= ef && |LayerNodes(links, lc)| <= Cap(m, lc)
  }

  lemma NodesMore(was: Links, now: Links, level: nat, lc: nat)
    requires SameShape(now, WithNode(was, level))
    ensures LayerNodes(now, lc) == LayerNodes(was, lc) + if lc <= level then {|was|} else {}
    ensures |was| !in LayerNodes(was, lc)
  {
    var with := WithNode(was, level);
    assert forall x: nat | x < |was| :: with[x] == was[x];
  }

  lemma JoinsLayer<V(!new)>(vs: seq<V>, dist: (V, V) -> real, was: Links, now: Links, v: V, level: nat, from: nat, reach: nat, ef: nat, m: nat, lc: nat)
    requires GraphOk(was, m) && FullLayer(was, lc) && Inserted(vs, dist, was, now, v, level, from, reach, ef, m) && Room(was, level, ef, m)
    requires lc <= level && lc <= reach
    ensures FullLayer(now, lc)
  {
    hide Chosen, Descent, DistanceIn, PairIn, GraphOk, Selected, LayerNodes;
    var id, with := |was|, WithNode(was, level);
    NodesMore(was, now, level, lc);
    var route :| Routed(vs, dist, was, v, ef, m, from, level, reach, now[id], route);
    ChoosesAll(vs, dist, was, m, v, ef, lc, now[id][lc], route[lc + 1], route[lc]);
    forall x: nat | x < |now| && lc < |now[x]|
      ensures ListsOthers(now, x, lc)
    {
      if x != id {
        assert with[x] == was[x];
        InLayer(was, x, lc);
        DegreeIs(was, m, x, lc);
        assert ListsOthers(was, x, lc);
        assert x in Elements(now[id][lc]);
        assert now[x][lc] == was[x][lc] + [id];
        Pushed(was[x][lc], id);
      }
    }
  }

  lemma InLayer(links: Links, x: nat, lc: nat)
    requires x < |links| && lc < |links[x]|
    ensures x in LayerNodes(links, lc)
  {
  }

  lemma Pushed(list: seq<nat>, id: nat)
    ensures Elements(list + [id]) == Elements(list) + {id}
  {
  }

  lemma OtherLayer<V(!new)>(vs: seq<V>, dist: (V, V) -> real, was: Links, now: Links, v: V, level: nat, from: nat, reach: nat, ef: nat, m: nat, lc: nat)
    requires FullLayer(was, lc) && Inserted(vs, dist, was, now, v, level, from, reach, ef, m)
    requires lc > level || lc > reach
    requires forall x :: 0 <= x < |was| ==> |was[x]| <= reach + 1
    ensures FullLayer(now, lc)
  {
    hide Routed, DistanceIn, PairIn, LayerConnected;
    var with := WithNode(was, level);
    NodesMore(was, now, level, lc);
    assert LayerSame(with, now, lc);
    forall x: nat | x < |now| && lc < |now[x]|
      ensures ListsOthers(now, x, lc)
    {
      if x < |was| {
        assert with[x] == was[x] && now[x][lc] == was[x][lc];
        assert ListsOthers(was, x, lc);
      } else {
        assert now[x][lc] == [];
        assert LayerNodes(was, lc) == {};
      }
    }
  }

  lemma InsertedFull<V(!new)>(vs: seq<V>, dist: (V, V) -> real, was: Links, now: Links, v: V, level: nat, from: nat, reach: nat, ef: nat, m: nat)
    requires GraphOk(was, m) && Full(was) && Inserted(vs, dist, was, now, v, level, from, reach, ef, m) && Room(was, level, ef, m)
    requires forall x :: 0 <= x < |was| ==> |was[x]| <= reach + 1
    ensures Full(now)
  {
    hide GraphOk, FullLayer, Inserted, Room;
    forall lc: nat
      ensures FullLayer(now, lc)
    {
      assert FullLayer(was, lc);
      if lc <= level && lc <= reach {
        JoinsLayer(vs, dist, was, now, v, level, from, reach, ef, m, lc);
      } else {
        OtherLayer(vs, dist, was, now, v, level, from, reach, ef, m, lc);
      }
    }
  }

  lemma FirstFull(level: nat)
    ensures Full(WithNode([], level))
  {
    var links := WithNode([], level);
    forall lc: nat
      ensures FullLayer(links, lc)
    {
      forall x: nat | x < |links| && lc < |links[x]|
        ensures ListsOthers(links, x, lc)
      {
      }
    }
  }

  method InsertOne<V(!new)>(h: Hnsw<V>, v: V, level: nat)
    requires h.Valid() && Full(h.links) && Room(h.links, level, h.efConstruction, h.m)
    modifies h
    ensures h.Valid() && Full(h.links) && h.vectors == old(h.vectors) + [v] && h.levels == old(h.levels) + [level]
  {
    ghost var vs, was, reach, entry := h.vectors, h.links, h.maxLevel, h.entry;
    var id := h.Insert(v, level);
    if entry.None? {
      FirstFull(level);
    } else {
      assert Inserted(vs, h.dist, was, h.links, v, level, entry.value, reach, h.efConstruction, h.m);
      InsertedFull(vs, h.dist, was, h.links, v, level, entry.value, reach, h.efConstruction, h.m);
    }
  }

  /** The nodes whose level reaches layer `lc`. */
  ghost function Reaching(levels: seq<nat>, lc: nat): set<nat> {
    set x: nat | x < |levels| && lc <= levels[x]
  }

  /** The parameters leave room for every node on each layer it reaches. */
  ghost predicate Roomy(levels: seq<nat>, ef: nat, m: nat) {
    forall lc: nat :: |Reaching(levels, lc)| <= ef + 1 && |Reaching(levels, lc)| <= Cap(m, lc) + 1
  }

  /** There is room left for the next node. */
  lemma RoomLeft(links: Links, levels: seq<nat>, k: nat, ef: nat, m: nat)
    requires Roomy(levels, ef, m) && |links| == k < |levels| && forall x :: 0 <= x < k ==> |links[x]| == levels[x] + 1
    ensures Room(links, levels[k], ef, m)
  {
    forall lc: nat | lc <= levels[k]
      ensures |LayerNodes(links, lc)| <= ef && |LayerNodes(links, lc)| <= Cap(m, lc)
    {
      var s := LayerNodes(links, lc);
      assert k !in s && s + {k} <= Reaching(levels, lc);
      SubsetCount(s + {k}, Reaching(levels, lc));
    }
  }

  /** Inserting all the vectors, with the levels drawn for them, makes every layer complete. */
  method InsertAll<V(!new)>(vectors: seq<V>, levels: seq<nat>, m: nat, ef: nat, dist: (V, V) -> real) returns (h: Hnsw<V>)
    requires |levels| == |vectors| && Roomy(levels, ef, m)
    ensures fresh(h) && h.Valid() && h.m == m && h.vectors == vectors && h.levels == levels && Full(h.links)
  {
    h := new Hnsw(m, ef, dist);
    for k := 0 to |vectors|
      invariant h.Valid() && Full(h.links) && h.vectors == vectors[..k] && h.levels == levels[..k]
    {
      RoomLeft(h.links, levels, k, ef, m);
      InsertOne(h, vectors[k], levels[k]);
    }
  }

  // ---- they fit their fields ----

  /** The cap on levels that the index draws. */
  const MAX_LEVEL_CAP: nat := 16

  lemma {:induction false} FlatBound(parts: seq<seq<byte>>, w: nat)
    requires forall i :: 0 <= i < |parts| ==> |parts[i]| <= w
    ensures |Flat(parts)| <= |parts| * w
  {
    if parts != [] {
      FlatBound(parts[..|parts| - 1], w);
      assert |parts| * w == (|parts| - 1) * w + w;
    }
  }

  /** A level-bounded index of 257 nodes. */
  ghost predicate Sized(x: IndexData) {
    x.Valid() && x.N() == 257 && x.m < 0x8000 && forall node :: 0 <= node < 257 ==> x.Level(node) <= MAX_LEVEL_CAP
  }

  /** A node's record takes one byte, and for each layer a count and its words. */
  lemma RecordBound(x: IndexData, order: seq<nat>, node: nat)
    requires Renumbers(x, order) && Sized(x) && node < x.N()
    ensures |Record(x, order, node)| <= 2097105
  {
    hide Neighbors, LEs, Flat;
    var parts := LayerRecords(x, order, node);
    forall l | 0 <= l < |parts|
      ensures |parts[l]| <= 131069
    {
      NeighborsFit(x, order, node, l + 1);
      LEsLength(4, Neighbors(x, order, node, l + 1));
    }
    FlatBound(parts, 131069);
  }

  lemma SizedFits(x: IndexData, order: seq<nat>)
    requires Renumbers(x, order) && Sized(x)
    ensures Fits(x, order) && EntryPoint(x, order) < U32_LIMIT
  {
    hide Flat, Record, UpperIds, LEs, EntryParts, Slot, EntryPoint, EncodedHnsw;
    UpperFew(x, order, 257);
    var parts := RecordParts(x, order);
    forall i | 0 <= i < |parts|
      ensures |parts[i]| <= 2097105
    {
      RecordBound(x, order, Node(x, order, UpperIds(x, order, x.N())[i]));
    }
    FlatBound(parts, 2097105);
    SlotLengths(x, order);
    FlatLength(EntryParts(x, order), 8);
    SectionRegions(x, order);
    EntryPointFits(x, order);
  }

  // ---- what the view makes of them ----

  /** In a complete index the view lists a node's layer-0 neighbors if and only if there are at most 256 nodes. */
  lemma FullExact(x: IndexData, order: seq<nat>, id: nat)
    requires Renumbers(x, order) && Fits(x, order) && id < x.N() && EntryPoint(x, order) < U32_LIMIT && Full(x.links)
    ensures ViewOf(x, order).Neighbors(id, 0) == Neighbors(x, order, Node(x, order, id), 0) <==> x.N() <= 256
  {
    hide ViewOf, HnswView.Neighbors, Neighbors, Fits, Full;
    SlotExact(x, order, id);
    GroundDegree(x, Node(x, order, id));
  }

  lemma GroundDegree(x: IndexData, node: nat)
    requires x.Valid() && Full(x.links) && node < x.N()
    ensures |x.links[node][0]| == x.N() - 1
  {
    hide ListsOthers, GraphOk;
    assert FullLayer(x.links, 0);
    DegreeIs(x.links, x.m, node, 0);
    GroundIsAll(x.links, 0);
  }

  /** A layer that every node reaches. */
  lemma GroundIsAll(links: Links, lc: nat)
    requires forall x :: 0 <= x < |links| ==> lc < |links[x]|
    ensures |LayerNodes(links, lc)| == |links|
  {
    UpToIs(|links|);
    assert LayerNodes(links, lc) == UpTo(|links|);
  }

  /** With 257 nodes, it lists none of the 256. */
  lemma ListsNone(x: IndexData, order: seq<nat>, id: nat)
    requires Renumbers(x, order) && Sized(x) && Full(x.links) && id < x.N() && EntryPoint(x, order) < U32_LIMIT
    ensures ViewOf(x, order).Neighbors(id, 0) == [] && |TrueNeighbors(x, order, Node(x, order, id), 0)| == 256
  {
    hide ViewOf, HnswView.Neighbors, Neighbors, Fits, Full;
    SizedFits(x, order);
    SlotAgrees(x, order, id);
    GroundDegree(x, Node(x, order, id));
    DegreeKept(x, order, Node(x, order, id), 0);
  }

  /** If they all reach layer 2, layer 1 loses a neighbor, and layer 2 is read out of layer 1's words. */
  lemma Misreads(x: IndexData, order: seq<nat>, id: nat)
    requires Renumbers(x, order) && Sized(x) && Full(x.links) && id < x.N() && EntryPoint(x, order) < U32_LIMIT
    requires forall node :: 0 <= node < 257 ==> |x.links[node]| >= 3
    ensures var v, node := ViewOf(x, order), Node(x, order, id);
            && |x.links[node][1]| == |x.links[node][2]| == 256
            && |v.Neighbors(id, 1)| == 255 && |v.Neighbors(id, 2)| <= 255
  {
    hide ViewOf, HnswView.Neighbors, Neighbors, Fits, Full, GraphOk;
    SizedFits(x, order);
    var node := Node(x, order, id);
    DeepDegrees(x, node);
    DegreeKept(x, order, node, 1);
    DegreeKept(x, order, node, 2);
    ViewUpper(x, order, id);
    UpperAgrees(x, order, id, 1);
    LaterLayerMisread(x, order, id, 1);
  }

  /** Where all reach layer 2, all are neighbors there and at layer 1. */
  lemma DeepDegrees(x: IndexData, node: nat)
    requires Sized(x) && Full(x.links) && node < 257 && forall y :: 0 <= y < 257 ==> |x.links[y]| >= 3
    ensures |x.links[node][1]| == |x.links[node][2]| == 256
  {
    hide ListsOthers, GraphOk;
    forall lc | 1 <= lc <= 2
      ensures |x.links[node][lc]| == 256
    {
      assert FullLayer(x.links, lc);
      DegreeIs(x.links, x.m, node, lc);
      GroundIsAll(x.links, lc);
    }
  }

  lemma ViewUpper(x: IndexData, order: seq<nat>, id: nat)
    requires Renumbers(x, order) && EntryPoint(x, order) < U32_LIMIT
    ensures ViewOf(x, order).Neighbors(id, 1) == BlobNeighbors(UpperBlob(x, order), id, 1)
  {
    hide Flat, UpperBlob, EncodedHnsw, BlobNeighbors, EntryPoint;
    SectionRegions(x, order);
  }

  // ---- from vectors to bytes ----

  /** 257 nodes, and parameters with room for all of them; the levels are those that the index may draw. */
  predicate Ample(levels: seq<nat>, ef: nat, m: nat) {
    && |levels| == 257 && ef >= 256 && m < 0x8000 && (forall l <- levels :: l <= MAX_LEVEL_CAP)
    && (m >= 256 || (m >= 128 && forall l <- levels :: l == 0))
  }

  lemma AmpleRoom(levels: seq<nat>, ef: nat, m: nat)
    requires Ample(levels, ef, m)
    ensures Roomy(levels, ef, m)
  {
    hide Reaching;
    forall lc: nat
      ensures |Reaching(levels, lc)| <= ef + 1 && |Reaching(levels, lc)| <= Cap(m, lc) + 1
    {
      FewReach(levels, lc);
    }
  }

  lemma FewReach(levels: seq<nat>, lc: nat)
    ensures |Reaching(levels, lc)| <= |levels|
    ensures lc > 0 && (forall l <- levels :: l == 0) ==> Reaching(levels, lc) == {}
  {
    UpToIs(|levels|);
    SubsetCount(Reaching(levels, lc), UpTo(|levels|));
    assert forall x :: 0 <= x < |levels| ==> levels[x] in levels;
  }

  /** Any 257 vectors, inserted, quantized and serialized. */
  method Store<V(!new)>(vectors: seq<V>, levels: seq<nat>, m: nat, ef: nat, dist: (V, V) -> real, columnId: u32, dim: u16,
                        quantize: V -> seq<byte>, qmin: seq<u32>, qscale: seq<u32>, localOffsets: seq<u32>)
    returns (h: Hnsw<V>, x: IndexData, bytes: seq<byte>, ghost order: seq<nat>)
    requires |vectors| == |levels| == |localOffsets| && Ample(levels, ef, m)
    requires |qmin| == |qscale| == dim && forall v: V :: |quantize(v)| == dim
    ensures h.Valid() && h.vectors == vectors && h.levels == levels && h.m == m && x.links == h.links
    ensures Renumbers(x, order) && Sized(x) && Full(x.links) && EntryPoint(x, order) < U32_LIMIT
    ensures ParseHnsw(bytes) == Some(ViewOf(x, order))
  {
    hide Full, ViewOf, EncodedHnsw, Fits, BfsOrder, EntryPoint;
    AmpleRoom(levels, ef, m);
    h := InsertAll(vectors, levels, m, ef, dist);
    x := HnswSearch.Quantized(h, columnId, dim, quantize, qmin, qscale, localOffsets);
    bytes := HnswSearch.SerializeHnsw(x);
    order :| Renumbers(x, order) && BfsOrder(x.links, order) && bytes == EncodedHnsw(x, order);
    forall node: nat | node < 257
      ensures x.Level(node) <= MAX_LEVEL_CAP
    {
      assert levels[node] in levels;
    }
    SizedFits(x, order);
    ParseSerialized(x, order);
  }

  /** Insertion gives each of the 257 nodes all the others as neighbors; of the bytes the view lists none, at any node. */
  method InsertedListsNone<V(!new)>(vectors: seq<V>, levels: seq<nat>, m: nat, ef: nat, dist: (V, V) -> real, columnId: u32, dim: u16,
                                    quantize: V -> seq<byte>, qmin: seq<u32>, qscale: seq<u32>, localOffsets: seq<u32>)
    returns (h: Hnsw<V>, bytes: seq<byte>)
    requires |vectors| == |levels| == |localOffsets| && Ample(levels, ef, m)
    requires |qmin| == |qscale| == dim && forall v: V :: |quantize(v)| == dim
    ensures h.Valid() && h.vectors == vectors && h.levels == levels && forall node :: 0 <= node < 257 ==> |h.links[node][0]| == 256
    ensures var v := ParseHnsw(bytes); v.Some? && v.value.numNodes == 257 && forall id :: 0 <= id < 257 ==> v.value.Neighbors(id, 0) == []
  {
    hide Full, EntryPoint, HnswView.Neighbors;
    var x;
    ghost var order;
    h, x, bytes, order := Store(vectors, levels, m, ef, dist, columnId, dim, quantize, qmin, qscale, localOffsets);
    forall id | 0 <= id < 257
      ensures |h.links[id][0]| == 256 && ViewOf(x, order).Neighbors(id, 0) == []
    {
      GroundDegree(x, id);
      ListsNone(x, order, id);
    }
  }

  /** If all the nodes were drawn to layer 2 or above, the view gets layers 1 and 2 wrong too, at every node. */
  method InsertedMisread<V(!new)>(vectors: seq<V>, levels: seq<nat>, m: nat, ef: nat, dist: (V, V) -> real, columnId: u32, dim: u16,
                                  quantize: V -> seq<byte>, qmin: seq<u32>, qscale: seq<u32>, localOffsets: seq<u32>)
    returns (h: Hnsw<V>, bytes: seq<byte>)
    requires |vectors| == |levels| == |localOffsets| && Ample(levels, ef, m) && forall k :: 0 <= k < |levels| ==> levels[k] >= 2
    requires |qmin| == |qscale| == dim && forall v: V :: |quantize(v)| == dim
    ensures h.Valid() && h.vectors == vectors && h.levels == levels
    ensures forall node :: 0 <= node < 257 ==> |h.links[node]| >= 3 && |h.links[node][1]| == |h.links[node][2]| == 256
    ensures var v := ParseHnsw(bytes);
            v.Some? && forall id :: 0 <= id < 257 ==> |v.value.Neighbors(id, 1)| == 255 && |v.value.Neighbors(id, 2)| <= 255
  {
    hide Full, EntryPoint, HnswView.Neighbors, ViewOf;
    var x;
    ghost var order;
    h, x, bytes, order := Store(vectors, levels, m, ef, dist, columnId, dim, quantize, qmin, qscale, localOffsets);
    forall id | 0 <= id < 257
      ensures |ViewOf(x, order).Neighbors(id, 1)| == 255 && |ViewOf(x, order).Neighbors(id, 2)| <= 255
    {
      Misreads(x, order, id);
    }
    forall node | 0 <= node < 257
      ensures |h.links[node][1]| == |h.links[node][2]| == 256
    {
      DeepDegrees(x, node);
    }
  }
}
