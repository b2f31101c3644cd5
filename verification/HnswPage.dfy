/**
 The on-disk HNSW section: BFS renumbering, fixed-size node slots, and a blob with the upper
 layers behind a sorted index. The parsed view is the same graph under the renumbering.
 */
module HnswPages {
  import opened Wrappers
  import opened Bytes
  import opened Numbers
  import opened Beams
  import opened HnswIndex

  const HEADER_LEN: nat := 66
  const QUANT_FLAG_8BIT: byte := 1

  // ---- BFS order ----

  /** `order` lists `0..n`, each once. */
  ghost predicate Permutation(order: seq<nat>, n: nat) {
    |order| == n && Distinct(order) && forall x <- order :: x < n
  }

  lemma PermutationHits(order: seq<nat>, n: nat)
    requires Permutation(order, n)
    ensures forall x: nat :: x < n <==> x in order
  {
    DistinctCount(order);
    UpToIs(n);
    SameCount(Elements(order), UpTo(n));
    forall x: nat | x < n
      ensures x in order
    {
      assert x in UpTo(n);
    }
  }

  ghost function UpTo(n: nat): set<nat> {
    if n == 0 then {} else UpTo(n - 1) + {n - 1}
  }

  lemma {:induction false} UpToIs(n: nat)
    ensures |UpTo(n)| == n && forall x: nat :: x in UpTo(n) <==> x < n
  {
    if n > 0 {
      UpToIs(n - 1);
    }
  }

  /** The position of `x` in `order`. */
  function Rank(order: seq<nat>, x: nat): (r: nat)
    requires x in order
    ensures r < |order| && order[r] == x
  {
    if order[0] == x then 0 else 1 + Rank(order[1..], x)
  }

  lemma RankOf(order: seq<nat>, i: nat)
    requires Distinct(order) && i < |order|
    ensures Rank(order, order[i]) == i
  {
  }

  /** The nodes of `s` in the order of their distance, in edges, from `start`. */
  ghost predicate ByHops(g: Graph, nodes: set<nat>, start: nat, s: seq<nat>)
    requires Closed(g, nodes)
  {
    forall i, j, d: nat :: 0 <= i <= j < |s| && Walk(g, nodes, start, s[j], d) ==> HopsWithin(g, nodes, start, s[i], d)
  }

  ghost predicate HopsWithin(g: Graph, nodes: set<nat>, start: nat, x: nat, d: nat)
    requires Closed(g, nodes)
  {
    exists k: nat :: k <= d && Walk(g, nodes, start, x, k)
  }

  /** `order` starts with what layer 0 reaches from a node of highest degree, nearest first, and ends with the rest in id order. */
  ghost predicate BfsOrder(links: Links, order: seq<nat>)
    requires Closed(Layer(links, 0), LayerNodes(links, 0))
  {
    order != [] ==>
      && order[0] in LayerNodes(links, 0)
      && (forall x <- LayerNodes(links, 0) :: |Layer(links, 0)(x)| <= |Layer(links, 0)(order[0])|)
      && exists k | 0 <= k <= |order| ::
           && Elements(order[..k]) == Reach(Layer(links, 0), LayerNodes(links, 0), order[0])
           && ByHops(Layer(links, 0), LayerNodes(links, 0), order[0], order[..k])
           && forall i, j :: k <= i < j < |order| ==> order[i] < order[j]
  }

  /** Every node has a layer 0. */
  predicate Grounded(links: Links) {
    forall x :: 0 <= x < |links| ==> |links[x]| > 0
  }

  method HighestDegree(links: Links) returns (start: nat)
    requires Grounded(links) && |links| > 0
    ensures start < |links| && forall x :: 0 <= x < |links| ==> |links[x][0]| <= |links[start][0]|
  {
    start := 0;
    var best := 0;
    for i := 0 to |links|
      invariant start < |links| && best <= |links[start][0]|
      invariant forall x :: 0 <= x < i ==> |links[x][0]| <= best
    {
      if |links[i][0]| > best {
        best := |links[i][0]|;
        start := i;
      }
    }
  }

  /** The queue of a breadth-first search, and what the search keeps: */
  ghost predicate BfsInv(links: Links, start: nat, order: seq<nat>, queue: seq<nat>, visited: seq<bool>)
    requires Closed(Layer(links, 0), LayerNodes(links, 0)) && Grounded(links)
  {
    && start < |links| == |visited| && |order + queue| > 0 && (order + queue)[0] == start
    && Distinct(order + queue)
    && (forall x: nat :: x in order + queue <==> x < |links| && visited[x])
    && Elements(order + queue) <= Reach(Layer(links, 0), LayerNodes(links, 0), start)
  }

  /** Each node met so far with its level: rising, by at most one beyond the next node to visit, and each a walk's length. */
  ghost predicate Leveled(links: Links, start: nat, seen: seq<nat>, level: seq<nat>, head: nat)
    requires Closed(Layer(links, 0), LayerNodes(links, 0))
  {
    && |level| == |seen|
    && (forall i, j :: 0 <= i <= j < |level| ==> level[i] <= level[j])
    && (forall i, j :: 0 <= i < |level| && head <= j < |level| ==> level[i] <= level[j] + 1)
    && forall i :: 0 <= i < |seen| ==> Walk(Layer(links, 0), LayerNodes(links, 0), start, seen[i], level[i])
  }

  /** Node `y` has been met, at no deeper level than `l`. */
  predicate Met(seen: seq<nat>, level: seq<nat>, y: nat, l: nat)
    requires |level| == |seen|
  {
    exists j :: 0 <= j < |seen| && seen[j] == y && level[j] <= l
  }

  /** The neighbors of the first `head` nodes have been met, at most one level deeper. */
  ghost predicate Explored(links: Links, seen: seq<nat>, level: seq<nat>, head: nat)
    requires |level| == |seen| && head <= |seen|
  {
    forall i :: 0 <= i < head ==>
      seen[i] < |links| && |links[seen[i]]| > 0 && forall y <- links[seen[i]][0] :: Met(seen, level, y, level[i] + 1)
  }

  method BfsFrom(links: Links, start: nat) returns (order: seq<nat>, visited: seq<bool>)
    requires Closed(Layer(links, 0), LayerNodes(links, 0)) && Grounded(links) && start < |links|
    ensures BfsInv(links, start, order, [], visited)
    ensures Elements(order) == Reach(Layer(links, 0), LayerNodes(links, 0), start)
    ensures ByHops(Layer(links, 0), LayerNodes(links, 0), start, order)
  {
    hide Reach;
    ghost var g, nodes := Layer(links, 0), LayerNodes(links, 0);
    visited := seq(|links|, i => i == start);
    order := [];
    var queue: seq<nat> := [start];
    ghost var level: seq<nat> := [0];
    ReachStart(g, nodes, start);
    while queue != []
      invariant BfsInv(links, start, order, queue, visited)
      invariant Leveled(links, start, order + queue, level, |order|) && Explored(links, order + queue, level, |order|)
      invariant level != [] && level[0] == 0
      decreases |links| - |order|
    {
      BfsRoom(links, start, order, queue, visited);
      order, queue, visited, level := BfsVisit(links, start, order, queue, visited, level);
    }
    assert order + queue == order;
    assert |level| == |order|;
    AllMet(links, start, order, level);
  }

  /** With everything explored, every walk ends at a node met at a level no greater than the walk's length. */
  lemma {:induction false} WalksMet(links: Links, start: nat, order: seq<nat>, level: seq<nat>, x: nat, d: nat)
    requires Closed(Layer(links, 0), LayerNodes(links, 0))
    requires Leveled(links, start, order, level, |order|) && Explored(links, order, level, |order|)
    requires order != [] && order[0] == start && level[0] == 0 && Walk(Layer(links, 0), LayerNodes(links, 0), start, x, d)
    ensures Met(order, level, x, d)
    decreases d
  {
    if d > 0 {
      var c :| c in LayerNodes(links, 0) && Walk(Layer(links, 0), LayerNodes(links, 0), start, c, d - 1) && x in Layer(links, 0)(c);
      WalksMet(links, start, order, level, c, d - 1);
      var i :| 0 <= i < |order| && order[i] == c && level[i] <= d - 1;
      assert Met(order, level, x, level[i] + 1);
    }
  }

  lemma AllMet(links: Links, start: nat, order: seq<nat>, level: seq<nat>)
    requires Closed(Layer(links, 0), LayerNodes(links, 0)) && Distinct(order)
    requires Leveled(links, start, order, level, |order|) && Explored(links, order, level, |order|)
    requires order != [] && order[0] == start && level[0] == 0
    requires Elements(order) <= Reach(Layer(links, 0), LayerNodes(links, 0), start)
    ensures Elements(order) == Reach(Layer(links, 0), LayerNodes(links, 0), start)
    ensures ByHops(Layer(links, 0), LayerNodes(links, 0), start, order)
  {
    hide Walk;
    var g, nodes := Layer(links, 0), LayerNodes(links, 0);
    forall x | x in Reach(g, nodes, start)
      ensures x in Elements(order)
    {
      var d: nat :| Walk(g, nodes, start, x, d);
      WalksMet(links, start, order, level, x, d);
    }
    forall i, j, d: nat | 0 <= i <= j < |order| && Walk(g, nodes, start, order[j], d)
      ensures HopsWithin(g, nodes, start, order[i], d)
    {
      WalksMet(links, start, order, level, order[j], d);
      assert level[i] <= level[j] <= d;
    }
  }

  lemma BfsRoom(links: Links, start: nat, order: seq<nat>, queue: seq<nat>, visited: seq<bool>)
    requires Closed(Layer(links, 0), LayerNodes(links, 0)) && Grounded(links)
    requires BfsInv(links, start, order, queue, visited)
    ensures |order + queue| <= |links|
  {
    hide Reach;
    DistinctCount(order + queue);
    UpToIs(|links|);
    SubsetCount(Elements(order + queue), UpTo(|links|));
  }

  /** Pop a node, append it to the order, and queue its unvisited neighbors. */
  method BfsVisit(links: Links, ghost start: nat, order0: seq<nat>, queue0: seq<nat>, visited0: seq<bool>, ghost level0: seq<nat>)
    returns (order: seq<nat>, queue: seq<nat>, visited: seq<bool>, ghost level: seq<nat>)
    requires Closed(Layer(links, 0), LayerNodes(links, 0)) && Grounded(links) && queue0 != []
    requires BfsInv(links, start, order0, queue0, visited0)
    requires Leveled(links, start, order0 + queue0, level0, |order0|) && Explored(links, order0 + queue0, level0, |order0|)
    ensures BfsInv(links, start, order, queue, visited)
    ensures order == order0 + [queue0[0]]
    ensures Leveled(links, start, order + queue, level, |order|) && Explored(links, order + queue, level, |order|)
    ensures level0 <= level
  {
    hide Reach, Explored, Leveled;
    ghost var h := |order0|;
    var u := queue0[0];
    assert (order0 + queue0)[h] == u && u in order0 + queue0;
    LeveledLength(links, start, order0 + queue0, level0, h);
    order, queue, visited, level := order0 + [u], queue0[1..], visited0, level0;
    assert order + queue == order0 + queue0;
    var list := links[u][0];
    for j := 0 to |list|
      invariant BfsInv(links, start, order, queue, visited) && order0 + queue0 <= order + queue && level0 <= level
      invariant h < |level| == |order + queue| && (order + queue)[h] == u
      invariant Leveled(links, start, order + queue, level, h) && Explored(links, order + queue, level, h)
      invariant forall i :: 0 <= i < j ==> Met(order + queue, level, list[i], level[h] + 1)
    {
      var nb := list[j];
      assert nb in Layer(links, 0)(u) && nb in LayerNodes(links, 0);
      ghost var seen := order + queue;
      if !visited[nb] {
        MeetNew(links, start, seen, level, h, u, nb);
        queue, visited := QueueNode(links, start, order, queue, visited, u, nb);
        assert order + queue == seen + [nb];
        level := level + [level[h] + 1];
      } else {
        MetBefore(links, start, seen, level, h, nb);
      }
    }
    HeadExplored(links, start, order + queue, level, h, u);
  }

  method QueueNode(links: Links, ghost start: nat, ghost order: seq<nat>, queue0: seq<nat>, visited0: seq<bool>, ghost u: nat, nb: nat)
    returns (queue: seq<nat>, visited: seq<bool>)
    requires Closed(Layer(links, 0), LayerNodes(links, 0)) && Grounded(links) && BfsInv(links, start, order, queue0, visited0)
    requires u in order + queue0 && u < |links| && nb in links[u][0] && nb < |links| && !visited0[nb]
    ensures BfsInv(links, start, order, queue, visited) && queue == queue0 + [nb]
  {
    hide Reach;
    ghost var g, nodes := Layer(links, 0), LayerNodes(links, 0);
    assert u in Elements(order + queue0);
    ReachStep(g, nodes, start, u, nb);
    visited := visited0[nb := true];
    queue := queue0 + [nb];
    assert order + queue == (order + queue0) + [nb];
    assert Elements((order + queue0) + [nb]) == Elements(order + queue0) + {nb};
  }

  lemma LeveledLength(links: Links, start: nat, seen: seq<nat>, level: seq<nat>, h: nat)
    requires Closed(Layer(links, 0), LayerNodes(links, 0)) && Leveled(links, start, seen, level, h)
    ensures |level| == |seen|
  {
  }

  /** A new node joins one level below the node being visited. */
  lemma MeetNew(links: Links, start: nat, seen: seq<nat>, level: seq<nat>, h: nat, u: nat, nb: nat)
    requires Closed(Layer(links, 0), LayerNodes(links, 0)) && Leveled(links, start, seen, level, h)
    requires h < |seen| == |level| && Explored(links, seen, level, h) && seen[h] == u && u in LayerNodes(links, 0) && nb in links[u][0]
    ensures Leveled(links, start, seen + [nb], level + [level[h] + 1], h)
    ensures Explored(links, seen + [nb], level + [level[h] + 1], h)
    ensures forall y, l :: Met(seen, level, y, l) ==> Met(seen + [nb], level + [level[h] + 1], y, l)
    ensures Met(seen + [nb], level + [level[h] + 1], nb, level[h] + 1)
  {
    var seen', level' := seen + [nb], level + [level[h] + 1];
    assert Walk(Layer(links, 0), LayerNodes(links, 0), start, nb, level[h] + 1);
    assert seen'[|seen|] == nb && level'[|seen|] == level[h] + 1;
    forall y, l | Met(seen, level, y, l)
      ensures Met(seen', level', y, l)
    {
      var j :| 0 <= j < |seen| && seen[j] == y && level[j] <= l;
      assert seen'[j] == y && level'[j] == level[j];
    }
  }

  lemma MetBefore(links: Links, start: nat, seen: seq<nat>, level: seq<nat>, h: nat, nb: nat)
    requires Closed(Layer(links, 0), LayerNodes(links, 0)) && Leveled(links, start, seen, level, h) && h < |seen| && nb in seen
    ensures Met(seen, level, nb, level[h] + 1)
  {
    var j :| 0 <= j < |seen| && seen[j] == nb;
  }

  lemma HeadExplored(links: Links, start: nat, seen: seq<nat>, level: seq<nat>, h: nat, u: nat)
    requires Closed(Layer(links, 0), LayerNodes(links, 0)) && Leveled(links, start, seen, level, h)
    requires h < |seen| == |level| && Explored(links, seen, level, h) && seen[h] == u && u < |links| && |links[u]| > 0
    requires forall i :: 0 <= i < |links[u][0]| ==> Met(seen, level, links[u][0][i], level[h] + 1)
    ensures Leveled(links, start, seen, level, h + 1) && Explored(links, seen, level, h + 1)
  {
    assert forall y <- links[u][0] :: Met(seen, level, y, level[h] + 1);
  }

  /** `bfs_order`: a permutation of the nodes. */
  method ComputeBfsOrder(links: Links) returns (order: seq<nat>)
    requires Closed(Layer(links, 0), LayerNodes(links, 0)) && Grounded(links)
    ensures Permutation(order, |links|) && BfsOrder(links, order)
  {
    hide Reach;
    if |links| == 0 {
      return [];
    }
    var start := HighestDegree(links);
    var reached, visited := BfsFrom(links, start);
    assert reached + [] == reached;
    order := AppendRest(reached, visited);
    DistinctCount(order);
    UpToIs(|links|);
    assert Elements(order) == UpTo(|links|);
    assert order[0] == reached[0] == start;
    assert Elements(order[..|reached|]) == Reach(Layer(links, 0), LayerNodes(links, 0), order[0]);
  }

  /** The unreached nodes, appended in id order. */
  method AppendRest(reached: seq<nat>, visited: seq<bool>) returns (order: seq<nat>)
    requires Distinct(reached) && forall x: nat :: x in reached <==> x < |visited| && visited[x]
    ensures |reached| <= |order| && order[..|reached|] == reached && Distinct(order)
    ensures forall x: nat :: x in order <==> x < |visited|
    ensures forall p, q :: |reached| <= p < q < |order| ==> order[p] < order[q]
  {
    order := reached;
    for i := 0 to |visited|
      invariant |reached| <= |order| && order[..|reached|] == reached && Distinct(order)
      invariant forall x: nat :: x in order <==> x < |visited| && (visited[x] || x < i)
      invariant forall p :: |reached| <= p < |order| ==> order[p] < i
      invariant forall p, q :: |reached| <= p < q < |order| ==> order[p] < order[q]
    {
      if !visited[i] {
        order := order + [i];
      }
    }
  }
}
