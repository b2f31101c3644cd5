/**
 The bytes of an edge section, and the view that answers from them. The view of a serialized index
 answers every lookup as the index does.
 */
module EdgePages {
  import opened Wrappers
  import opened Numbers
  import opened Bytes
  import opened EdgeIndexes
  import B = Blooms
  import T = Traversals

  const HEADER_LEN: nat := 44

  // ---- writing ----

  function FwdTargetsOff(x: EdgeIndex): nat { HEADER_LEN + |x.fwdOffsets| * 4 }

  function RevTargetsOff(x: EdgeIndex): nat { FwdTargetsOff(x) + |x.fwdTargets| * 8 }

  function RevOffsetsOff(x: EdgeIndex): nat { RevTargetsOff(x) + |x.revTargets| * 8 }

  function RevSourcesOff(x: EdgeIndex): nat { RevOffsetsOff(x) + |x.revOffsets| * 4 }

  function BloomOff(x: EdgeIndex): nat { RevSourcesOff(x) + |x.revSources| * 4 }

  function HeaderWords(x: EdgeIndex, columnId: u32): (w: seq<nat>)
    ensures |w| == 11
  {
    [columnId, x.numNodes, |x.fwdTargets|, |x.revTargets|, HEADER_LEN, FwdTargetsOff(x), RevTargetsOff(x), RevOffsetsOff(x),
     RevSourcesOff(x), BloomOff(x), 8 + |x.bloom.bits|]
  }

  function BloomBytes(b: B.Bloom): seq<byte> {
    LE(4, b.numBits) + (LE(4, b.numHashes) + b.bits)
  }

  function EncodedEdges(x: EdgeIndex, columnId: u32): seq<byte> {
    LEs(4, HeaderWords(x, columnId)) + (LEs(4, x.fwdOffsets) + (LEs(8, x.fwdTargets) + (LEs(8, x.revTargets)
    + (LEs(4, x.revOffsets) + (LEs(4, x.revSources) + BloomBytes(x.bloom))))))
  }

  method SerializeEdgeIndex(x: EdgeIndex, columnId: u32) returns (out: seq<byte>)
    ensures out == EncodedEdges(x, columnId)
  {
    hide LE, LEs, HeaderWords;
    out := PushAll(4, HeaderWords(x, columnId), []);
    out := PushAll(4, x.fwdOffsets, out);
    out := PushAll(8, x.fwdTargets, out);
    out := PushAll(8, x.revTargets, out);
    out := PushAll(4, x.revOffsets, out);
    out := PushAll(4, x.revSources, out);
    out := out + LE(4, x.bloom.numBits) + LE(4, x.bloom.numHashes) + x.bloom.bits;
  }

  // ---- the view ----

  datatype EdgeView = EdgeView(
    bytes: seq<byte>, numNodes: nat, numTargets: nat, fwdOffsetsOff: nat, fwdTargetsOff: nat,
    revTargetsOff: nat, revOffsetsOff: nat, revSourcesOff: nat, bloom: B.Bloom)
  {
    /** The slice `a..b` of an array of `n`-byte integers, its end clamped to `cap`. */
    function Slice(n: nat, off: nat, a: nat, b: nat, cap: nat): seq<nat> {
      var end := Max(Min(b, cap), a);
      seq<nat>(end - a, i requires 0 <= i < end - a => Read(n, bytes, ElementAt(off, a + i, n)))
    }

    function OutNeighbors(s: nat): seq<nat> {
      if s >= numNodes then []
      else
        Slice(8, fwdTargetsOff, Read(4, bytes, fwdOffsetsOff + s * 4), Read(4, bytes, fwdOffsetsOff + (s + 1) * 4), |bytes| / 8 + 1)
    }

    /** Binary search of the sorted targets. */
    function Find(t: nat, lo: nat, hi: nat): Option<nat>
      decreases hi - lo
    {
      if lo >= hi then None
      else
        var mid := (lo + hi) / 2;
        var v := Read(8, bytes, revTargetsOff + mid * 8);
        if v == t then Some(mid) else if v < t then Find(t, mid + 1, hi) else Find(t, lo, mid)
    }

    function InNeighbors(t: nat): seq<nat> {
      var i := Find(t, 0, numTargets);
      if i.None? then []
      else
        Slice(4, revSourcesOff, Read(4, bytes, revOffsetsOff + i.value * 4), Read(4, bytes, revOffsetsOff + (i.value + 1) * 4),
              |bytes| / 4 + 1)
    }

    predicate MightTarget(t: u64) { bloom.MightContain(t) }
  }

  /** `EdgeView::parse` */
  function ParseEdges(bytes: seq<byte>): Option<EdgeView> {
    if |bytes| < HEADER_LEN then None
    else
      Pow256Values();
      var bloomOff, bloomLen := Read(4, bytes, 36), Read(4, bytes, 40);
      if bloomOff + bloomLen > |bytes| || bloomLen < 8 then None
      else
        var bloom := B.Bloom(bytes[bloomOff + 8..bloomOff + bloomLen], Read(4, bytes, bloomOff), Read(4, bytes, bloomOff + 4));
        var v := EdgeView(bytes, Read(4, bytes, 4), Read(4, bytes, 12), Read(4, bytes, 16), Read(4, bytes, 20), Read(4, bytes, 24),
                          Read(4, bytes, 28), Read(4, bytes, 32), bloom);
        if v.fwdOffsetsOff > |bytes| || v.fwdTargetsOff > |bytes| || v.revTargetsOff > |bytes| || v.revOffsetsOff > |bytes|
           || v.revSourcesOff > |bytes| then None
        else Some(v)
  }

  method CollectSlice(v: EdgeView, n: nat, off: nat, a: nat, b: nat, cap: nat) returns (out: seq<nat>)
    ensures out == v.Slice(n, off, a, b, cap)
  {
    hide Read, ElementAt;
    out := [];
    for i := a to Max(Min(b, cap), a)
      invariant |out| == i - a && forall k :: 0 <= k < i - a ==> out[k] == v.Slice(n, off, a, b, cap)[k]
    {
      out := out + [Read(n, v.bytes, ElementAt(off, i, n))];
    }
  }

  method GetOutNeighbors(v: EdgeView, s: nat) returns (out: seq<nat>)
    ensures out == v.OutNeighbors(s)
  {
    hide Read;
    if s >= v.numNodes {
      return [];
    }
    var a := Read(4, v.bytes, v.fwdOffsetsOff + s * 4);
    var b := Read(4, v.bytes, v.fwdOffsetsOff + (s + 1) * 4);
    out := CollectSlice(v, 8, v.fwdTargetsOff, a, b, |v.bytes| / 8 + 1);
  }

  method GetInNeighbors(v: EdgeView, t: nat) returns (out: seq<nat>)
    ensures out == v.InNeighbors(t)
  {
    hide Read;
    var lo: nat, hi: nat := 0, v.numTargets;
    out := [];
    while lo < hi
      invariant lo <= hi && out == []
      invariant v.Find(t, 0, v.numTargets) == v.Find(t, lo, hi)
      decreases hi - lo
    {
      var mid := (lo + hi) / 2;
      var key := Read(8, v.bytes, v.revTargetsOff + mid * 8);
      if key == t {
        var a := Read(4, v.bytes, v.revOffsetsOff + mid * 4);
        var b := Read(4, v.bytes, v.revOffsetsOff + (mid + 1) * 4);
        out := CollectSlice(v, 4, v.revSourcesOff, a, b, |v.bytes| / 4 + 1);
        return;
      }
      if key < t {
        lo := mid + 1;
      } else {
        hi := mid;
      }
    }
  }

  // ---- the view of a serialized index ----

  /** Lengths and offsets fit 32 bits. */
  predicate Fits(x: EdgeIndex, columnId: u32) {
    x.Valid() && Small(x, |x.fwdTargets|) && x.numNodes < U32_LIMIT && |EncodedEdges(x, columnId)| < U32_LIMIT
  }

  function ViewOf(x: EdgeIndex, columnId: u32): EdgeView {
    EdgeView(EncodedEdges(x, columnId), x.numNodes, |x.revTargets|, HEADER_LEN, FwdTargetsOff(x), RevTargetsOff(x), RevOffsetsOff(x),
             RevSourcesOff(x), x.bloom)
  }

  /** Where each region lies, and how long the section is. */
  lemma Regions(x: EdgeIndex, columnId: u32)
    ensures var b := EncodedEdges(x, columnId);
            && At(b, 0, LEs(4, HeaderWords(x, columnId))) && At(b, HEADER_LEN, LEs(4, x.fwdOffsets))
            && At(b, FwdTargetsOff(x), LEs(8, x.fwdTargets)) && At(b, RevTargetsOff(x), LEs(8, x.revTargets))
            && At(b, RevOffsetsOff(x), LEs(4, x.revOffsets)) && At(b, RevSourcesOff(x), LEs(4, x.revSources))
            && At(b, BloomOff(x), BloomBytes(x.bloom)) && |b| == BloomOff(x) + 8 + |x.bloom.bits|
  {
    hide LE, LEs, At, HeaderWords;
    LEsLength(4, HeaderWords(x, columnId));
    LEsLength(4, x.fwdOffsets);
    LEsLength(8, x.fwdTargets);
    LEsLength(8, x.revTargets);
    LEsLength(4, x.revOffsets);
    LEsLength(4, x.revSources);
    var b := EncodedEdges(x, columnId);
    var f := LEs(4, x.revSources) + BloomBytes(x.bloom);
    var e := LEs(4, x.revOffsets) + f;
    var d := LEs(8, x.revTargets) + e;
    var c := LEs(8, x.fwdTargets) + d;
    var a := LEs(4, x.fwdOffsets) + c;
    AtWhole(b);
    AtSplit(b, 0, LEs(4, HeaderWords(x, columnId)), a);
    AtSplit(b, HEADER_LEN, LEs(4, x.fwdOffsets), c);
    AtSplit(b, FwdTargetsOff(x), LEs(8, x.fwdTargets), d);
    AtSplit(b, RevTargetsOff(x), LEs(8, x.revTargets), e);
    AtSplit(b, RevOffsetsOff(x), LEs(4, x.revOffsets), f);
    AtSplit(b, RevSourcesOff(x), LEs(4, x.revSources), BloomBytes(x.bloom));
  }

  lemma HeaderReads(x: EdgeIndex, columnId: u32)
    requires Fits(x, columnId)
    ensures var b, w := EncodedEdges(x, columnId), HeaderWords(x, columnId);
            forall k :: 1 <= k < 11 ==> Read(4, b, k * 4) == w[k]
  {
    hide LEs, At, Read, EncodedEdges;
    var b, w := EncodedEdges(x, columnId), HeaderWords(x, columnId);
    Regions(x, columnId);
    Pow256Values();
    forall k | 1 <= k < 11
      ensures Read(4, b, k * 4) == w[k]
    {
      ListReads(4, b, 0, w, k);
    }
  }

  lemma BloomReads(x: EdgeIndex, columnId: u32)
    requires Fits(x, columnId)
    ensures var b, off := EncodedEdges(x, columnId), BloomOff(x);
            && Read(4, b, off) == x.bloom.numBits && Read(4, b, off + 4) == x.bloom.numHashes
            && off + 8 + |x.bloom.bits| == |b| && b[off + 8..off + (8 + |x.bloom.bits|)] == x.bloom.bits
  {
    hide LE, LEs, EncodedEdges, Get;
    var b, off := EncodedEdges(x, columnId), BloomOff(x);
    Regions(x, columnId);
    Pow256Values();
    AtSplit(b, off, LE(4, x.bloom.numBits), LE(4, x.bloom.numHashes) + x.bloom.bits);
    AtSplit(b, off + 4, LE(4, x.bloom.numHashes), x.bloom.bits);
    GetAt(4, b, off, x.bloom.numBits);
    GetAt(4, b, off + 4, x.bloom.numHashes);
  }

  /** A serialized index parses, to the view with its regions and its filter. */
  lemma ParseSerialized(x: EdgeIndex, columnId: u32)
    requires Fits(x, columnId)
    ensures ParseEdges(EncodedEdges(x, columnId)) == Some(ViewOf(x, columnId))
  {
    hide LEs, At, Read, EncodedEdges;
    Regions(x, columnId);
    HeaderReads(x, columnId);
    BloomReads(x, columnId);
    var b := EncodedEdges(x, columnId);
    assert Read(4, b, 36) == BloomOff(x) && Read(4, b, 40) == 8 + |x.bloom.bits| by {
      assert 9 * 4 == 36 && 10 * 4 == 40;
    }
    assert Read(4, b, 4) == x.numNodes by { assert 1 * 4 == 4; }
    assert Read(4, b, 12) == |x.revTargets| by { assert 3 * 4 == 12; }
    assert Read(4, b, 16) == HEADER_LEN by { assert 4 * 4 == 16; }
    assert Read(4, b, 20) == FwdTargetsOff(x) by { assert 5 * 4 == 20; }
    assert Read(4, b, 24) == RevTargetsOff(x) by { assert 6 * 4 == 24; }
    assert Read(4, b, 28) == RevOffsetsOff(x) by { assert 7 * 4 == 28; }
    assert Read(4, b, 32) == RevSourcesOff(x) by { assert 8 * 4 == 32; }
  }

  /** A slice of a stored array is that slice: the clamp cuts nothing off. */
  lemma SliceReads(v: EdgeView, n: nat, off: nat, vs: seq<nat>, a: nat, b: nat, cap: nat)
    requires At(v.bytes, off, LEs(n, vs)) && a <= b <= |vs| <= cap
    requires forall k :: 0 <= k < |vs| ==> vs[k] < Pow256(n)
    ensures v.Slice(n, off, a, b, cap) == vs[a..b]
  {
    hide LEs, Read, ElementAt;
    var r := v.Slice(n, off, a, b, cap);
    forall i | 0 <= i < b - a
      ensures r[i] == vs[a + i]
    {
      ListReads(n, v.bytes, off, vs, a + i);
    }
  }

  /** Every source has the same targets in the view as in the index. */
  lemma OutAgrees(x: EdgeIndex, columnId: u32, s: nat)
    requires Fits(x, columnId)
    ensures ViewOf(x, columnId).OutNeighbors(s) == x.OutNeighbors(s)
  {
    hide LEs, At, Read, EncodedEdges, EdgeView.Slice;
    Regions(x, columnId);
    Pow256Values();
    if s < x.numNodes {
      ListReads(4, EncodedEdges(x, columnId), HEADER_LEN, x.fwdOffsets, s);
      ListReads(4, EncodedEdges(x, columnId), HEADER_LEN, x.fwdOffsets, s + 1);
      SliceReads(ViewOf(x, columnId), 8, FwdTargetsOff(x), x.fwdTargets, x.fwdOffsets[s], x.fwdOffsets[s + 1], |EncodedEdges(x, columnId)| / 8 + 1);
    }
  }

  /** The binary search finds a key exactly when it is there. */
  lemma {:induction false} FindAgrees(v: EdgeView, keys: seq<nat>, t: nat, lo: nat, hi: nat)
    requires lo <= hi <= |keys| && forall i, j :: 0 <= i < j < |keys| ==> keys[i] < keys[j]
    requires forall i :: 0 <= i < |keys| ==> Read(8, v.bytes, v.revTargetsOff + i * 8) == keys[i]
    ensures var i := v.Find(t, lo, hi);
            && (i.Some? ==> lo <= i.value < hi && keys[i.value] == t)
            && (i.None? ==> forall j :: lo <= j < hi ==> keys[j] != t)
    decreases hi - lo
  {
    hide Read;
    if lo < hi {
      var mid := (lo + hi) / 2;
      if keys[mid] < t {
        FindAgrees(v, keys, t, mid + 1, hi);
      } else if keys[mid] > t {
        FindAgrees(v, keys, t, lo, mid);
      }
    }
  }

  /** Every target has the same sources in the view as in the index. */
  lemma InAgrees(x: EdgeIndex, columnId: u32, t: nat)
    requires Fits(x, columnId)
    ensures ViewOf(x, columnId).InNeighbors(t) == x.InNeighbors(t)
  {
    hide LEs, At, Read, EncodedEdges, EdgeView.Slice, EdgeView.Find, FindIn;
    Regions(x, columnId);
    Pow256Values();
    var v := ViewOf(x, columnId);
    forall i | 0 <= i < |x.revTargets|
      ensures Read(8, v.bytes, v.revTargetsOff + i * 8) == x.revTargets[i]
    {
      ListReads(8, v.bytes, v.revTargetsOff, x.revTargets, i);
    }
    FindAgrees(v, x.revTargets, t, 0, |x.revTargets|);
    var i, j := v.Find(t, 0, |x.revTargets|), FindIn(x.revTargets, t);
    assert i == j;
    if i.Some? {
      ListReads(4, v.bytes, v.revOffsetsOff, x.revOffsets, i.value);
      ListReads(4, v.bytes, v.revOffsetsOff, x.revOffsets, i.value + 1);
      SliceReads(v, 4, v.revSourcesOff, x.revSources, x.revOffsets[i.value], x.revOffsets[i.value + 1], |v.bytes| / 4 + 1);
    }
  }

  /** The view filters and traverses as the index does. */
  lemma TraversalAgrees(x: EdgeIndex, columnId: u32, resolve: T.Resolve, seeds: seq<nat>, t: nat, depth: nat)
    requires Fits(x, columnId)
    ensures T.TargetWithin(s => ViewOf(x, columnId).OutNeighbors(s), resolve, seeds, t, depth)
       <==> T.TargetWithin(s => x.OutNeighbors(s), resolve, seeds, t, depth)
  {
    hide EdgeView.OutNeighbors, EdgeIndex.OutNeighbors, ViewOf, T.TargetWithin;
    forall s: nat
      ensures ViewOf(x, columnId).OutNeighbors(s) == x.OutNeighbors(s)
    {
      OutAgrees(x, columnId, s);
    }
    T.SameTargets(s => ViewOf(x, columnId).OutNeighbors(s), s => x.OutNeighbors(s), resolve, seeds, t, depth);
  }

  /** Traversing a built index finds exactly the ends of its walks. */
  method TraverseIndex(x: EdgeIndex, resolve: T.Resolve, seeds: seq<nat>, maxDepth: nat) returns (reached: set<nat>)
    requires x.Valid()
    ensures forall t: nat :: t in reached <==> T.TargetWithin(s => x.OutNeighbors(s), resolve, seeds, t, maxDepth)
  {
    hide T.TargetWithin, EdgeIndex.OutNeighbors;
    reached := T.TraverseForward(s => x.OutNeighbors(s), resolve, seeds, maxDepth);
  }

  method TraverseView(v: EdgeView, resolve: T.Resolve, seeds: seq<nat>, maxDepth: nat) returns (reached: set<nat>)
    ensures forall t: nat :: t in reached <==> T.TargetWithin(s => v.OutNeighbors(s), resolve, seeds, t, maxDepth)
  {
    hide T.TargetWithin, EdgeView.OutNeighbors;
    reached := T.TraverseForward(s => v.OutNeighbors(s), resolve, seeds, maxDepth);
  }
}
