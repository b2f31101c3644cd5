/**
 The graph index of one edge column: forward and reverse compressed rows over the same edges, and
 depth-limited traversal.
 */
module EdgeIndexes {
  import opened Wrappers
  import opened Bytes
  import opened Numbers
  import opened Sorting
  import B = Blooms

  /** An edge as (source, target), or turned round as (target, source). */
  type Pair = (nat, nat)

  // ---- sorting ----

  predicate LessEq(a: Pair, b: Pair) {
    a.0 < b.0 || (a.0 == b.0 && a.1 <= b.1)
  }

  predicate Sorted(e: seq<Pair>) {
    forall i, j :: 0 <= i < j < |e| ==> LessEq(e[i], e[j])
  }

  /** The pairs in lexicographic order. */
  method SortUnstable(e: seq<Pair>) returns (r: seq<Pair>)
    ensures Sorted(r) && multiset(r) == multiset(e)
  {
    r := SortBy(LessEq, e);
  }

  // ---- rows of sorted pairs ----

  /** How many of the first components are below `i`. */
  function CountBelow(e: seq<Pair>, i: nat): (n: nat)
    ensures n <= |e|
  {
    if e == [] then 0 else CountBelow(e[..|e| - 1], i) + if e[|e| - 1].0 < i then 1 else 0
  }

  function CountEqual(e: seq<Pair>, i: nat): nat {
    if e == [] then 0 else CountEqual(e[..|e| - 1], i) + if e[|e| - 1].0 == i then 1 else 0
  }

  lemma {:induction false} BelowNext(e: seq<Pair>, i: nat)
    ensures CountBelow(e, i + 1) == CountBelow(e, i) + CountEqual(e, i) && CountBelow(e, 0) == 0
  {
    if e != [] {
      BelowNext(e[..|e| - 1], i);
    }
  }

  /** In a sorted list, the pairs with first component below `i` are the first ones. */
  lemma {:induction false} BelowFirst(e: seq<Pair>, i: nat)
    requires Sorted(e)
    ensures forall k :: 0 <= k < |e| ==> (e[k].0 < i <==> k < CountBelow(e, i))
  {
    if e != [] {
      var init, last := e[..|e| - 1], e[|e| - 1];
      BelowFirst(init, i);
      assert forall k :: 0 <= k < |init| ==> init[k] == e[k] && LessEq(e[k], last);
      if last.0 < i {
        assert forall k :: 0 <= k < |init| ==> init[k].0 < i;
        AllBelow(init, i);
      }
    }
  }

  lemma {:induction false} AllBelow(e: seq<Pair>, i: nat)
    requires forall k :: 0 <= k < |e| ==> e[k].0 < i
    ensures CountBelow(e, i) == |e|
  {
    if e != [] {
      AllBelow(e[..|e| - 1], i);
    }
  }

  /** Second components of the pairs that start with `x`. */
  function Row(e: seq<Pair>, x: nat): seq<nat> {
    if e == [] then []
    else
      var before, last := Row(e[..|e| - 1], x), e[|e| - 1];
      if last.0 == x then before + [last.1] else before
  }

  /** A row holds each second component as often as the pair occurs. */
  lemma {:induction false} RowCounts(e: seq<Pair>, x: nat, y: nat)
    ensures multiset(Row(e, x))[y] == multiset(e)[(x, y)]
  {
    if e != [] {
      RowCounts(e[..|e| - 1], x, y);
      assert e == e[..|e| - 1] + [e[|e| - 1]];
    }
  }

  function Seconds(e: seq<Pair>): (s: seq<nat>)
    ensures |s| == |e|
  {
    seq(|e|, k requires 0 <= k < |e| => e[k].1)
  }

  /** If exactly the pairs at `a..b` start with `x`, that slice of the second components is `x`'s row. */
  lemma {:induction false} SliceIsRow(e: seq<Pair>, x: nat, a: nat, b: nat)
    requires a <= b <= |e| && forall k :: 0 <= k < |e| ==> (a <= k < b <==> e[k].0 == x)
    ensures Seconds(e)[a..b] == Row(e, x)
  {
    hide Seconds;
    if e != [] {
      var init, last := e[..|e| - 1], e[|e| - 1];
      SecondsSnoc(init, last);
      assert e == init + [last];
      assert forall k :: 0 <= k < |init| ==> init[k] == e[k];
      if b < |e| {
        SliceIsRow(init, x, a, b);
        assert (Seconds(init) + [last.1])[a..b] == Seconds(init)[a..b];
      } else if a < b {
        SliceIsRow(init, x, a, b - 1);
        assert (Seconds(init) + [last.1])[a..b] == Seconds(init)[a..b - 1] + [last.1];
      } else {
        SliceIsRow(init, x, a - 1, b - 1);
      }
    }
  }

  lemma SecondsSnoc(e: seq<Pair>, last: Pair)
    ensures Seconds(e + [last]) == Seconds(e) + [last.1]
  {
  }

  function Turned(e: seq<Pair>): (r: seq<Pair>)
    ensures |r| == |e|
  {
    seq(|e|, k requires 0 <= k < |e| => (e[k].1, e[k].0))
  }

  lemma {:induction false} TurnedCounts(e: seq<Pair>, x: nat, y: nat)
    ensures multiset(Turned(e))[(y, x)] == multiset(e)[(x, y)]
  {
    if e != [] {
      var init, last := e[..|e| - 1], e[|e| - 1];
      TurnedCounts(init, x, y);
      assert e == init + [last] && Turned(e) == Turned(init) + [(last.1, last.0)];
    }
  }

  // ---- the index ----

  /** Offsets into an array of `n` elements, not going down. */
  predicate Offsets(os: seq<nat>, n: nat) {
    forall i, j :: 0 <= i <= j < |os| ==> os[i] <= os[j] <= n
  }

  datatype EdgeIndex = EdgeIndex(
    numNodes: nat, fwdOffsets: seq<nat>, fwdTargets: seq<nat>,
    revTargets: seq<nat>, revOffsets: seq<nat>, revSources: seq<nat>, bloom: B.Bloom)
  {
    /** Offsets delimit slices of the arrays they index; targets are sorted and distinct. */
    predicate Valid() {
      && |fwdOffsets| == numNodes + 1 && |revOffsets| == |revTargets| + 1
      && Offsets(fwdOffsets, |fwdTargets|) && Offsets(revOffsets, |revSources|)
      && (forall i, j :: 0 <= i < j < |revTargets| ==> revTargets[i] < revTargets[j])
    }

    /** Targets of source `s`. */
    function OutNeighbors(s: nat): seq<nat>
      requires Valid()
    {
      if s >= numNodes then [] else fwdTargets[fwdOffsets[s]..fwdOffsets[s + 1]]
    }

    /** Sources of target `t`. */
    function InNeighbors(t: nat): seq<nat>
      requires Valid()
    {
      var i := FindIn(revTargets, t);
      if i.None? then [] else revSources[revOffsets[i.value]..revOffsets[i.value + 1]]
    }

    predicate MightTarget(t: u64) { bloom.MightContain(t) }
  }

  /** The position of `t`, if it is there. */
  function FindIn(keys: seq<nat>, t: nat): (i: Option<nat>)
    ensures i.None? <==> t !in keys
    ensures i.Some? ==> i.value < |keys| && keys[i.value] == t
  {
    if keys == [] then None
    else if keys[|keys| - 1] == t then Some(|keys| - 1)
    else FindIn(keys[..|keys| - 1], t)
  }

  /** The forward offsets: count the sources, then sum up. */
  method ForwardOffsets(bySrc: seq<Pair>, numNodes: nat) returns (offsets: array<nat>)
    requires forall k :: 0 <= k < |bySrc| ==> bySrc[k].0 < numNodes
    ensures fresh(offsets) && offsets.Length == numNodes + 1
    ensures forall i :: 0 <= i <= numNodes ==> offsets[i] == CountBelow(bySrc, i)
  {
    offsets := new nat[numNodes + 1](_ => 0);
    assert bySrc[..0] == [];
    for k := 0 to |bySrc|
      invariant offsets[0] == 0 && forall i :: 0 <= i < numNodes ==> offsets[i + 1] == CountEqual(bySrc[..k], i)
    {
      assert bySrc[..k + 1][..k] == bySrc[..k];
      offsets[bySrc[k].0 + 1] := offsets[bySrc[k].0 + 1] + 1;
    }
    assert bySrc[..|bySrc|] == bySrc;
    BelowNext(bySrc, 0);
    for i := 0 to numNodes
      invariant forall j :: 0 <= j <= i ==> offsets[j] == CountBelow(bySrc, j)
      invariant forall j :: i <= j < numNodes ==> offsets[j + 1] == CountEqual(bySrc, j)
    {
      BelowNext(bySrc, i);
      offsets[i + 1] := offsets[i + 1] + offsets[i];
    }
  }

  /** The keys met in the first `i` pairs, rising. */
  ghost predicate KeysMet(byTgt: seq<Pair>, i: nat, keys: seq<nat>) {
    && i <= |byTgt|
    && (forall g, h :: 0 <= g < h < |keys| ==> keys[g] < keys[h])
    && (forall k :: 0 <= k < i ==> byTgt[k].0 in keys)
    && (forall g :: 0 <= g < |keys| ==> exists k :: 0 <= k < i && byTgt[k].0 == keys[g])
  }

  /** The offsets delimit each key's pairs. */
  ghost predicate Delimits(byTgt: seq<Pair>, i: nat, keys: seq<nat>, offsets: seq<nat>) {
    && |offsets| == |keys| + 1 && offsets[|keys|] == i && Offsets(offsets, i)
    && forall g, k :: 0 <= g < |keys| && 0 <= k < |byTgt| ==> (offsets[g] <= k < offsets[g + 1] <==> byTgt[k].0 == keys[g])
  }

  /** What the grouping loop keeps over the first `i` pairs; the pairs to come have greater keys. */
  ghost predicate Grouped(byTgt: seq<Pair>, i: nat, keys: seq<nat>, offsets: seq<nat>) {
    && KeysMet(byTgt, i, keys) && Delimits(byTgt, i, keys, offsets)
    && forall k, q :: 0 <= k < i <= q < |byTgt| ==> byTgt[k].0 < byTgt[q].0
  }

  /** The reverse rows: one group for each distinct target. */
  method Group(byTgt: seq<Pair>) returns (keys: seq<nat>, offsets: seq<nat>, sources: seq<nat>)
    requires Sorted(byTgt)
    ensures Grouped(byTgt, |byTgt|, keys, offsets) && sources == Seconds(byTgt)
  {
    keys, offsets, sources := [], [0], [];
    var i := 0;
    while i < |byTgt|
      invariant Grouped(byTgt, i, keys, offsets) && sources == Seconds(byTgt)[..i]
    {
      var t := byTgt[i].0;
      var j := i;
      while j < |byTgt| && byTgt[j].0 == t
        invariant i <= j <= |byTgt| && sources == Seconds(byTgt)[..j]
        invariant forall k :: i <= k < j ==> byTgt[k].0 == t
      {
        sources := sources + [byTgt[j].1];
        j := j + 1;
      }
      GroupMore(byTgt, i, j, keys, offsets);
      keys := keys + [t];
      offsets := offsets + [|sources|];
      i := j;
    }
    assert Seconds(byTgt)[..i] == Seconds(byTgt);
  }

  lemma GroupMore(byTgt: seq<Pair>, i: nat, j: nat, keys: seq<nat>, offsets: seq<nat>)
    requires Sorted(byTgt) && Grouped(byTgt, i, keys, offsets) && i < j <= |byTgt|
    requires forall k :: i <= k < j ==> byTgt[k].0 == byTgt[i].0
    requires j < |byTgt| ==> byTgt[j].0 != byTgt[i].0
    ensures Grouped(byTgt, j, keys + [byTgt[i].0], offsets + [j])
  {
    hide KeysMet, Delimits;
    forall k | j <= k < |byTgt|
      ensures byTgt[k].0 > byTgt[i].0
    {
      assert LessEq(byTgt[i], byTgt[j]);
      assert k > j ==> LessEq(byTgt[j], byTgt[k]);
    }
    KeysMore(byTgt, i, j, keys);
    DelimitsMore(byTgt, i, j, keys, offsets);
  }

  lemma KeysMore(byTgt: seq<Pair>, i: nat, j: nat, keys: seq<nat>)
    requires KeysMet(byTgt, i, keys) && i < j <= |byTgt|
    requires forall k :: i <= k < j ==> byTgt[k].0 == byTgt[i].0
    requires forall k :: 0 <= k < i ==> byTgt[k].0 < byTgt[i].0
    ensures KeysMet(byTgt, j, keys + [byTgt[i].0])
  {
    var keys' := keys + [byTgt[i].0];
    forall g | 0 <= g < |keys|
      ensures keys'[g] < byTgt[i].0 && exists k :: 0 <= k < j && byTgt[k].0 == keys'[g]
    {
      assert keys'[g] == keys[g];
      var k :| 0 <= k < i && byTgt[k].0 == keys[g];
    }
    assert byTgt[i].0 == keys'[|keys|];
  }

  lemma DelimitsMore(byTgt: seq<Pair>, i: nat, j: nat, keys: seq<nat>, offsets: seq<nat>)
    requires Delimits(byTgt, i, keys, offsets) && i < j <= |byTgt|
    requires forall k :: i <= k < j ==> byTgt[k].0 == byTgt[i].0
    requires forall k :: 0 <= k < i ==> byTgt[k].0 < byTgt[i].0
    requires forall k :: j <= k < |byTgt| ==> byTgt[k].0 > byTgt[i].0
    ensures Delimits(byTgt, j, keys + [byTgt[i].0], offsets + [j])
  {
    var keys', offsets' := keys + [byTgt[i].0], offsets + [j];
    forall g, k | 0 <= g < |keys'| && 0 <= k < |byTgt|
      ensures offsets'[g] <= k < offsets'[g + 1] <==> byTgt[k].0 == keys'[g]
    {
      if g < |keys| {
        assert offsets'[g] == offsets[g] && offsets'[g + 1] == offsets[g + 1];
      }
    }
  }

  /** The index holds exactly these edges. */
  ghost predicate Holds(x: EdgeIndex, bySrc: seq<Pair>, byTgt: seq<Pair>, edges: seq<Pair>) {
    && x.Valid()
    && multiset(bySrc) == multiset(edges) && multiset(byTgt) == multiset(Turned(edges))
    && (forall s :: 0 <= s < x.numNodes ==> x.OutNeighbors(s) == Row(bySrc, s))
    && (forall t: nat :: x.InNeighbors(t) == Row(byTgt, t))
  }

  lemma SameMembers(a: seq<Pair>, b: seq<Pair>)
    requires multiset(a) == multiset(b)
    ensures |a| == |b| && forall x :: x in a <==> x in b
  {
    assert |multiset(a)| == |a| && |multiset(b)| == |b|;
    assert forall x :: x in a <==> x in multiset(a);
    assert forall x :: x in b <==> x in multiset(b);
  }

  function Targets(edges: seq<Pair>): set<nat> {
    set e <- edges :: e.1
  }

  /** The keys are the distinct targets. */
  lemma KeysAre(edges: seq<Pair>, byTgt: seq<Pair>, keys: seq<nat>, offsets: seq<nat>)
    requires Grouped(byTgt, |byTgt|, keys, offsets) && forall x :: x in byTgt <==> x in Turned(edges)
    ensures Elements(keys) == Targets(edges) && |keys| == |Targets(edges)|
    ensures forall t :: t in keys <==> t in Targets(edges)
  {
    DistinctCount(keys);
    forall t
      ensures t in keys <==> t in Targets(edges)
    {
      if t in keys {
        var g :| 0 <= g < |keys| && keys[g] == t;
        var k :| 0 <= k < |byTgt| && byTgt[k].0 == keys[g];
        assert byTgt[k] in Turned(edges);
        var j :| 0 <= j < |edges| && Turned(edges)[j] == byTgt[k];
        assert edges[j] in edges;
      }
      if t in Targets(edges) {
        var j :| 0 <= j < |edges| && edges[j].1 == t;
        assert Turned(edges)[j] in byTgt;
        var k :| 0 <= k < |byTgt| && byTgt[k] == Turned(edges)[j];
      }
    }
  }

  lemma ForwardRows(x: EdgeIndex, bySrc: seq<Pair>, s: nat)
    requires Sorted(bySrc) && |x.fwdOffsets| == x.numNodes + 1 && x.fwdTargets == Seconds(bySrc) && s < x.numNodes
    requires forall i :: 0 <= i <= x.numNodes ==> x.fwdOffsets[i] == CountBelow(bySrc, i)
    ensures x.fwdOffsets[s] <= x.fwdOffsets[s + 1] <= |bySrc|
    ensures x.fwdTargets[x.fwdOffsets[s]..x.fwdOffsets[s + 1]] == Row(bySrc, s)
  {
    hide Sorted;
    BelowFirst(bySrc, s);
    BelowFirst(bySrc, s + 1);
    BelowNext(bySrc, s);
    SliceIsRow(bySrc, s, CountBelow(bySrc, s), CountBelow(bySrc, s + 1));
  }

  lemma {:induction false} RowEmpty(e: seq<Pair>, x: nat)
    requires forall k :: 0 <= k < |e| ==> e[k].0 != x
    ensures Row(e, x) == []
  {
    if e != [] {
      RowEmpty(e[..|e| - 1], x);
    }
  }

  lemma ReverseRows(x: EdgeIndex, byTgt: seq<Pair>, t: nat)
    requires Grouped(byTgt, |byTgt|, x.revTargets, x.revOffsets) && x.revSources == Seconds(byTgt) && x.Valid()
    ensures x.InNeighbors(t) == Row(byTgt, t)
  {
    var g := FindIn(x.revTargets, t);
    if g.None? {
      RowEmpty(byTgt, t);
    } else {
      SliceIsRow(byTgt, t, x.revOffsets[g.value], x.revOffsets[g.value + 1]);
    }
  }

  lemma BuiltValid(x: EdgeIndex, bySrc: seq<Pair>, byTgt: seq<Pair>)
    requires Sorted(bySrc) && |x.fwdOffsets| == x.numNodes + 1 && x.fwdTargets == Seconds(bySrc)
    requires forall i :: 0 <= i <= x.numNodes ==> x.fwdOffsets[i] == CountBelow(bySrc, i)
    requires Grouped(byTgt, |byTgt|, x.revTargets, x.revOffsets) && x.revSources == Seconds(byTgt)
    ensures x.Valid()
  {
    hide Sorted;
    forall i, j | 0 <= i <= j < |x.fwdOffsets|
      ensures x.fwdOffsets[i] <= x.fwdOffsets[j] <= |x.fwdTargets|
    {
      BelowMonotone(bySrc, i, j);
    }
  }

  lemma {:induction false} BelowMonotone(e: seq<Pair>, i: nat, j: nat)
    requires i <= j
    ensures CountBelow(e, i) <= CountBelow(e, j)
  {
    if e != [] {
      BelowMonotone(e[..|e| - 1], i, j);
    }
  }

  /** Everything in the index fits the width it is stored with. */
  predicate Small(x: EdgeIndex, edges: nat) {
    && |x.fwdTargets| == |x.revSources| == edges && |x.revTargets| <= edges
    && (forall k :: 0 <= k < |x.fwdOffsets| ==> x.fwdOffsets[k] <= edges)
    && (forall k :: 0 <= k < |x.revOffsets| ==> x.revOffsets[k] <= edges)
    && (forall k :: 0 <= k < |x.fwdTargets| ==> x.fwdTargets[k] < U64_LIMIT)
    && (forall k :: 0 <= k < |x.revTargets| ==> x.revTargets[k] < U64_LIMIT)
    && (forall k :: 0 <= k < |x.revSources| ==> x.revSources[k] < x.numNodes)
    && x.bloom.numHashes == B.NUM_HASHES && |x.bloom.bits| * 8 == x.bloom.numBits
  }

  /** Edges whose sources are slots of the index; the filter's size fits 32 bits. */
  predicate Buildable(edges: seq<Pair>, numNodes: nat) {
    && (forall k :: 0 <= k < |edges| ==> edges[k].0 < numNodes && edges[k].1 < U64_LIMIT)
    && B.NumBits(|Targets(edges)|) < U32_LIMIT
  }

  /** `EdgeIndex::build` */
  method Build(edges: seq<Pair>, numNodes: nat) returns (x: EdgeIndex, ghost bySrc: seq<Pair>, ghost byTgt: seq<Pair>)
    requires Buildable(edges, numNodes)
    ensures x.numNodes == numNodes && Holds(x, bySrc, byTgt, edges) && Small(x, |edges|)
    ensures forall t :: t in x.revTargets <==> t in Targets(edges)
    ensures forall k :: 0 <= k < |x.revTargets| ==> x.MightTarget(x.revTargets[k])
  {
    hide Sorted, CountBelow, Grouped, Seconds, B.NumBits, B.Bloom.MightContain, FindIn, Targets;
    var sorted := SortUnstable(edges);
    SameMembers(edges, sorted);
    var turned := SortUnstable(Turned(edges));
    SameMembers(Turned(edges), turned);
    InBounds(edges, sorted, turned, numNodes);
    var offsets := ForwardOffsets(sorted, numNodes);
    var keys, revOffsets, sources := Group(turned);
    KeysAre(edges, turned, keys, revOffsets);
    KeysSmall(edges, turned, keys, revOffsets);
    var bloom := B.Build(keys, |keys|);
    x := EdgeIndex(numNodes, offsets[..], Seconds(sorted), keys, revOffsets, sources, bloom);
    bySrc, byTgt := sorted, turned;
    BuiltValid(x, sorted, turned);
    forall s | 0 <= s < numNodes
      ensures x.OutNeighbors(s) == Row(sorted, s)
    {
      ForwardRows(x, sorted, s);
    }
    forall t: nat
      ensures x.InNeighbors(t) == Row(turned, t)
    {
      ReverseRows(x, turned, t);
    }
    BuiltSmall(x, edges, sorted, turned);
  }

  lemma InBounds(edges: seq<Pair>, bySrc: seq<Pair>, byTgt: seq<Pair>, numNodes: nat)
    requires Buildable(edges, numNodes) && (forall x :: x in bySrc <==> x in edges) && forall x :: x in byTgt <==> x in Turned(edges)
    ensures forall k :: 0 <= k < |bySrc| ==> bySrc[k].0 < numNodes && bySrc[k].1 < U64_LIMIT
    ensures forall k :: 0 <= k < |byTgt| ==> byTgt[k].0 < U64_LIMIT && byTgt[k].1 < numNodes
  {
    forall k | 0 <= k < |bySrc|
      ensures bySrc[k].0 < numNodes && bySrc[k].1 < U64_LIMIT
    {
      assert bySrc[k] in edges;
    }
    forall k | 0 <= k < |byTgt|
      ensures byTgt[k].0 < U64_LIMIT && byTgt[k].1 < numNodes
    {
      assert byTgt[k] in Turned(edges);
    }
  }

  lemma KeysSmall(edges: seq<Pair>, byTgt: seq<Pair>, keys: seq<nat>, offsets: seq<nat>)
    requires Grouped(byTgt, |byTgt|, keys, offsets) && forall k :: 0 <= k < |byTgt| ==> byTgt[k].0 < U64_LIMIT
    ensures forall k :: 0 <= k < |keys| ==> keys[k] < U64_LIMIT
    ensures |keys| <= |byTgt| && forall k :: 0 <= k < |offsets| ==> offsets[k] <= |byTgt|
  {
    KeysFit(byTgt, keys, offsets, |keys|);
    forall k | 0 <= k < |offsets|
      ensures offsets[k] <= |byTgt|
    {
      assert offsets[k] <= offsets[|keys|];
    }
  }

  /** Each group holds at least one pair. */
  lemma {:induction false} KeysFit(byTgt: seq<Pair>, keys: seq<nat>, offsets: seq<nat>, g: nat)
    requires Grouped(byTgt, |byTgt|, keys, offsets) && g <= |keys|
    ensures g <= offsets[g] <= |byTgt|
  {
    if g > 0 {
      KeysFit(byTgt, keys, offsets, g - 1);
      var k :| 0 <= k < |byTgt| && byTgt[k].0 == keys[g - 1];
    }
  }

  lemma BuiltSmall(x: EdgeIndex, edges: seq<Pair>, bySrc: seq<Pair>, byTgt: seq<Pair>)
    requires Grouped(byTgt, |byTgt|, x.revTargets, x.revOffsets) && x.revSources == Seconds(byTgt) && x.fwdTargets == Seconds(bySrc)
    requires |bySrc| == |byTgt| == |edges| && |x.fwdOffsets| == x.numNodes + 1
    requires forall i :: 0 <= i <= x.numNodes ==> x.fwdOffsets[i] == CountBelow(bySrc, i)
    requires forall k :: 0 <= k < |bySrc| ==> bySrc[k].0 < x.numNodes && bySrc[k].1 < U64_LIMIT
    requires forall k :: 0 <= k < |byTgt| ==> byTgt[k].0 < U64_LIMIT && byTgt[k].1 < x.numNodes
    requires x.bloom.numHashes == B.NUM_HASHES && |x.bloom.bits| == x.bloom.numBits / 8 && x.bloom.numBits % 8 == 0
    ensures Small(x, |edges|)
  {
    KeysSmall(edges, byTgt, x.revTargets, x.revOffsets);
  }

  // ---- the two directions ----

  /** How often `t` is listed for `s`, and `s` for `t`, is how often the edge occurs. */
  lemma Dual(x: EdgeIndex, bySrc: seq<Pair>, byTgt: seq<Pair>, edges: seq<Pair>, s: nat, t: nat)
    requires Holds(x, bySrc, byTgt, edges) && s < x.numNodes
    ensures multiset(x.OutNeighbors(s))[t] == multiset(edges)[(s, t)] == multiset(x.InNeighbors(t))[s]
  {
    RowCounts(bySrc, s, t);
    RowCounts(byTgt, t, s);
    TurnedCounts(edges, s, t);
  }

  /** The filter never denies a target that something points to. */
  lemma NeverDenied(x: EdgeIndex, bySrc: seq<Pair>, byTgt: seq<Pair>, edges: seq<Pair>, s: nat, t: u64)
    requires Holds(x, bySrc, byTgt, edges) && s < x.numNodes && t in x.OutNeighbors(s)
    requires forall k :: 0 <= k < |x.revTargets| ==> x.revTargets[k] < U64_LIMIT && x.MightTarget(x.revTargets[k])
    ensures s in x.InNeighbors(t) && x.MightTarget(t)
  {
    hide B.Bloom.MightContain;
    Dual(x, bySrc, byTgt, edges, s, t);
    assert t in multiset(x.OutNeighbors(s));
    assert s in multiset(x.InNeighbors(t));
  }
}
