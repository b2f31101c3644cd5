/**
 The beam searches of the vector index, over any graph: `search_layer`, and the layer-0 beam
 whose results are gated by an admission predicate. Distances are totally ordered numbers; a
 heap of candidates is a set of node ids ordered by (distance, id).
 */
module Beams {
  import opened Wrappers
  import opened Numbers

  type Graph = nat --> seq<nat>
  type Distance = nat -> real

  /** Candidates are ordered by distance, then by id. */
  predicate Nearer(d: Distance, a: nat, b: nat) {
    d(a) < d(b) || (d(a) == d(b) && a < b)
  }

  /** Every node of `nodes` has a neighbor list, and it stays inside `nodes`. */
  ghost predicate Closed(g: Graph, nodes: set<nat>) {
    forall x <- nodes :: g.requires(x) && forall y <- g(x) :: y in nodes
  }

  /** `b` is at the end of a walk of `k` edges from `a`. */
  ghost predicate Walk(g: Graph, nodes: set<nat>, a: nat, b: nat, k: nat)
    requires Closed(g, nodes)
    decreases k
  {
    if k == 0 then a == b else exists c <- nodes :: Walk(g, nodes, a, c, k - 1) && b in g(c)
  }

  ghost predicate Reachable(g: Graph, nodes: set<nat>, a: nat, b: nat)
    requires Closed(g, nodes)
  {
    exists k: nat :: Walk(g, nodes, a, b, k)
  }

  ghost function Reach(g: Graph, nodes: set<nat>, a: nat): (s: set<nat>)
    requires Closed(g, nodes)
    ensures s <= nodes
  {
    set b <- nodes | Reachable(g, nodes, a, b)
  }

  lemma ReachStart(g: Graph, nodes: set<nat>, a: nat)
    requires Closed(g, nodes) && a in nodes
    ensures a in Reach(g, nodes, a)
  {
    assert Walk(g, nodes, a, a, 0);
  }

  lemma ReachStep(g: Graph, nodes: set<nat>, a: nat, b: nat, c: nat)
    requires Closed(g, nodes) && b in Reach(g, nodes, a) && c in g(b)
    ensures c in Reach(g, nodes, a)
  {
    var k: nat :| Walk(g, nodes, a, b, k);
    assert Walk(g, nodes, a, c, k + 1);
  }

  /** A set that holds the start and is closed under edges holds everything reachable. */
  lemma {:induction false} ClosedHoldsWalks(g: Graph, nodes: set<nat>, a: nat, b: nat, k: nat, s: set<nat>)
    requires Closed(g, nodes) && a in s && s <= nodes && Walk(g, nodes, a, b, k)
    requires forall x <- s, y <- g(x) :: y in s
    ensures b in s
    decreases k
  {
    if k > 0 {
      var c :| c in nodes && Walk(g, nodes, a, c, k - 1) && b in g(c);
      ClosedHoldsWalks(g, nodes, a, c, k - 1, s);
    }
  }

  lemma ClosedHoldsReach(g: Graph, nodes: set<nat>, a: nat, s: set<nat>)
    requires Closed(g, nodes) && a in s && s <= Reach(g, nodes, a)
    requires forall x <- s, y <- g(x) :: y in s
    ensures s == Reach(g, nodes, a)
  {
    forall b | b in Reach(g, nodes, a)
      ensures b in s
    {
      var k: nat :| Walk(g, nodes, a, b, k);
      ClosedHoldsWalks(g, nodes, a, b, k, s);
    }
  }

  // ---- priority queues ----

  /** A strict total order on candidates. */
  lemma NearerOrders(d: Distance)
    ensures forall a, b :: a == b || Nearer(d, a, b) || Nearer(d, b, a)
    ensures forall a, b, c :: Nearer(d, a, b) && Nearer(d, b, c) ==> Nearer(d, a, c)
  {
  }

  lemma {:induction false} LeastExists(d: Distance, s: set<nat>) returns (x: nat)
    requires s != {}
    ensures x in s && forall y <- s :: x == y || Nearer(d, x, y)
  {
    hide Nearer;
    var a :| a in s;
    x := a;
    if s != {a} {
      var b := LeastExists(d, s - {a});
      NearerOrders(d);
      x := if Nearer(d, a, b) then a else b;
      forall y | y in s
        ensures x == y || Nearer(d, x, y)
      {
        if y != a {
          assert y in s - {a};
        }
      }
    }
  }

  lemma {:induction false} GreatestExists(d: Distance, s: set<nat>) returns (x: nat)
    requires s != {}
    ensures x in s && forall y <- s :: x == y || Nearer(d, y, x)
  {
    hide Nearer;
    var a :| a in s;
    x := a;
    if s != {a} {
      var b := GreatestExists(d, s - {a});
      NearerOrders(d);
      x := if Nearer(d, b, a) then a else b;
      forall y | y in s
        ensures x == y || Nearer(d, y, x)
      {
        if y != a {
          assert y in s - {a};
        }
      }
    }
  }

  /** The top of a min-heap. */
  method Nearest(d: Distance, s: set<nat>) returns (x: nat)
    requires s != {}
    ensures x in s && forall y <- s :: x == y || Nearer(d, x, y)
  {
    ghost var least := LeastExists(d, s);
    x :| x in s && forall y <- s :: x == y || Nearer(d, x, y);
  }

  /** The top of a max-heap. */
  method Farthest(d: Distance, s: set<nat>) returns (x: nat)
    requires s != {}
    ensures x in s && forall y <- s :: x == y || Nearer(d, y, x)
  {
    ghost var greatest := GreatestExists(d, s);
    x :| x in s && forall y <- s :: x == y || Nearer(d, y, x);
  }

  ghost predicate Ascending(d: Distance, s: seq<nat>) {
    forall i, j :: 0 <= i < j < |s| ==> Nearer(d, s[i], s[j])
  }

  /** `into_sorted_vec`: ascending by (distance, id). */
  method Sorted(d: Distance, s: set<nat>) returns (out: seq<nat>)
    ensures Ascending(d, out) && Distinct(out) && Elements(out) == s && |out| == |s|
  {
    hide Nearer;
    var rest := s;
    out := [];
    while rest != {}
      invariant rest <= s && Ascending(d, out) && Distinct(out) && Elements(out) == s - rest && |out| == |s| - |rest|
      invariant forall x <- out, y <- rest :: Nearer(d, x, y)
      decreases |rest|
    {
      var x := Nearest(d, rest);
      assert x !in Elements(out);
      SortedMore(d, out, x);
      rest := rest - {x};
      out := out + [x];
    }
  }

  lemma SortedMore(d: Distance, out: seq<nat>, x: nat)
    requires Ascending(d, out) && Distinct(out) && x !in Elements(out) && forall y <- out :: Nearer(d, y, x)
    ensures Ascending(d, out + [x]) && Distinct(out + [x]) && Elements(out + [x]) == Elements(out) + {x}
  {
    hide Nearer;
    forall i | 0 <= i < |out|
      ensures Nearer(d, out[i], x) && out[i] != x
    {
      assert out[i] in out;
    }
  }

  // ---- search_layer ----

  /** No visited node that is left out is strictly nearer than one that is kept. */
  ghost predicate BestOf(d: Distance, kept: set<nat>, visited: set<nat>) {
    && kept <= visited
    && forall v <- visited - kept, r <- kept :: d(r) <= d(v)
  }

  /** Every node of `done` has all its neighbors visited. */
  ghost predicate Expanded(g: Graph, nodes: set<nat>, done: set<nat>, visited: set<nat>)
    requires Closed(g, nodes) && done <= nodes
  {
    forall x <- done, y <- g(x) :: y in visited
  }

  /**
   What one layer's beam promises: at most `ef` results (one when `ef` is 0), nearest first,
   the best of the visited nodes; every neighbor of a result was visited, and fewer than `ef`
   results means that everything reachable was found.
   */
  ghost predicate BeamFound(g: Graph, nodes: set<nat>, d: Distance, ep: nat, ef: nat, res: seq<nat>, visited: set<nat>)
    requires Closed(g, nodes)
  {
    && 1 <= |res| <= Max(ef, 1)
    && Distinct(res) && Ascending(d, res)
    && ep in visited && visited <= Reach(g, nodes, ep)
    && BestOf(d, Elements(res), visited)
    && Expanded(g, nodes, Elements(res), visited)
    && (|res| < ef ==> Elements(res) == Reach(g, nodes, ep))
  }

  /** What the loops of `search_layer` keep. */
  ghost predicate BeamInv(g: Graph, nodes: set<nat>, d: Distance, ep: nat, k: nat,
                          visited: set<nat>, frontier: set<nat>, results: set<nat>)
    requires Closed(g, nodes)
  {
    && ep in visited && visited <= Reach(g, nodes, ep)
    && frontier <= visited && results <= visited
    && 1 <= |results| <= k
    && BestOf(d, results, visited)
    && (visited != results ==> |results| == k)
  }

  method SearchLayer(g: Graph, ghost nodes: set<nat>, d: Distance, ep: nat, ef: nat)
    returns (res: seq<nat>, evals: nat, ghost visited: set<nat>)
    requires Closed(g, nodes) && ep in nodes
    ensures BeamFound(g, nodes, d, ep, ef, res, visited)
    ensures 1 <= |res| <= Max(ef, 1) && Distinct(res) && Ascending(d, res) && Elements(res) <= Reach(g, nodes, ep)
    ensures |res| < ef ==> Elements(res) == Reach(g, nodes, ep)
    ensures evals == |visited|
  {
    hide Reach;
    ghost var k := Max(ef, 1);
    ReachStart(g, nodes, ep);
    var seen, frontier, results := {ep}, {ep}, {ep};
    evals := 1;
    while frontier != {}
      invariant BeamInv(g, nodes, d, ep, k, seen, frontier, results) && evals == |seen|
      invariant Expanded(g, nodes, results - frontier, seen)
      decreases nodes - seen, frontier
    {
      var current := Nearest(d, frontier);
      var top := Farthest(d, results);
      if d(current) > d(top) && |results| >= ef {
        assert results - frontier == results;
        break;
      }
      frontier := frontier - {current};
      var more;
      seen, frontier, results, more := Expand(g, nodes, d, ep, ef, current, seen, frontier, results);
      evals := evals + more;
    }
    assert results - frontier == results;
    res := Sorted(d, results);
    visited := seen;
    if |res| < ef {
      assert visited == results;
      ClosedHoldsReach(g, nodes, ep, visited);
    }
  }

  /** The `for` loop over one popped node's neighbors. */
  method Expand(g: Graph, ghost nodes: set<nat>, d: Distance, ghost ep: nat, ef: nat, current: nat,
                visited0: set<nat>, frontier0: set<nat>, results0: set<nat>)
    returns (visited: set<nat>, frontier: set<nat>, results: set<nat>, evals: nat)
    requires Closed(g, nodes) && current in visited0
    requires BeamInv(g, nodes, d, ep, Max(ef, 1), visited0, frontier0, results0)
    requires Expanded(g, nodes, results0 - frontier0 - {current}, visited0)
    ensures BeamInv(g, nodes, d, ep, Max(ef, 1), visited, frontier, results)
    ensures Expanded(g, nodes, results - frontier, visited)
    ensures visited0 <= visited && frontier <= frontier0 + (visited - visited0) && evals == |visited| - |visited0|
  {
    hide Reach, BestOf, Nearer;
    visited, frontier, results, evals := visited0, frontier0, results0, 0;
    var list := g(current);
    for j := 0 to |list|
      invariant BeamInv(g, nodes, d, ep, Max(ef, 1), visited, frontier, results)
      invariant visited0 <= visited && frontier <= frontier0 + (visited - visited0) && evals == |visited| - |visited0|
      invariant Expanded(g, nodes, results - frontier - {current}, visited)
      invariant forall i :: 0 <= i < j ==> list[i] in visited
    {
      var nb := list[j];
      if nb !in visited {
        ReachStep(g, nodes, ep, current, nb);
        visited, frontier, results := Offer(g, nodes, d, ep, ef, nb, visited, frontier, results);
        evals := evals + 1;
      }
    }
  }

  /** A newly met node enters the heaps if it is near enough; the farthest result may drop out. */
  method Offer(ghost g: Graph, ghost nodes: set<nat>, d: Distance, ghost ep: nat, ef: nat, nb: nat,
               visited0: set<nat>, frontier0: set<nat>, results0: set<nat>)
    returns (visited: set<nat>, frontier: set<nat>, results: set<nat>)
    requires Closed(g, nodes) && nb in Reach(g, nodes, ep) && nb !in visited0
    requires BeamInv(g, nodes, d, ep, Max(ef, 1), visited0, frontier0, results0)
    ensures BeamInv(g, nodes, d, ep, Max(ef, 1), visited, frontier, results)
    ensures visited == visited0 + {nb} && frontier0 <= frontier <= frontier0 + {nb}
    ensures results <= results0 + {nb} && (nb in results ==> nb in frontier)
  {
    hide Reach;
    visited, frontier, results := visited0 + {nb}, frontier0, results0;
    var top := Farthest(d, results);
    if d(nb) < d(top) || |results| < ef {
      frontier := frontier + {nb};
      results := results + {nb};
      if |results| > ef {
        var worst := Farthest(d, results);
        results := results - {worst};
      }
    }
  }

  // ---- the gated layer-0 beam ----

  type Admit = nat -> bool

  ghost function Admitted(admit: Admit, s: set<nat>): set<nat> {
    set x <- s | admit(x)
  }

  /** `kept` are the `ef` least members of `all` by (distance, id), or all of them if there are fewer. */
  ghost predicate LeastOf(d: Distance, kept: set<nat>, all: set<nat>, ef: nat) {
    && kept <= all && |kept| <= ef
    && (kept != all ==> |kept| == ef)
    && forall v <- all - kept, r <- kept :: Nearer(d, r, v)
  }

  /**
   What the gated beam promises: exactly the `ef` least admitted nodes among those visited,
   nearest first; fewer than `ef` means that every admitted reachable node was found.
   */
  ghost predicate GatedFound(g: Graph, nodes: set<nat>, d: Distance, admit: Admit, ep: nat, ef: nat, res: seq<nat>, visited: set<nat>)
    requires Closed(g, nodes)
  {
    && |res| <= ef && Distinct(res) && Ascending(d, res)
    && ep in visited && visited <= Reach(g, nodes, ep)
    && LeastOf(d, Elements(res), Admitted(admit, visited), ef)
    && (|res| < ef ==> visited == Reach(g, nodes, ep))
  }

  ghost predicate GatedInv(g: Graph, nodes: set<nat>, d: Distance, admit: Admit, ep: nat, ef: nat,
                           visited: set<nat>, frontier: set<nat>, results: set<nat>)
    requires Closed(g, nodes)
  {
    && ep in visited && visited <= Reach(g, nodes, ep)
    && frontier <= visited
    && LeastOf(d, results, Admitted(admit, visited), ef)
  }

  /** Until the heap is full, every node that has left the queue has all its neighbors visited. */
  ghost predicate Exploring(g: Graph, nodes: set<nat>, ef: nat, done: set<nat>, visited: set<nat>, results: set<nat>)
    requires Closed(g, nodes) && done <= nodes
  {
    |results| < ef ==> Expanded(g, nodes, done, visited)
  }

  method BeamGated(g: Graph, ghost nodes: set<nat>, d: Distance, admit: Admit, ep: nat, ef: nat)
    returns (res: seq<nat>, evals: nat, ghost visited: set<nat>)
    requires Closed(g, nodes) && ep in nodes
    ensures GatedFound(g, nodes, d, admit, ep, ef, res, visited)
    ensures |res| <= ef && Distinct(res) && Ascending(d, res) && Elements(res) <= Admitted(admit, Reach(g, nodes, ep))
    ensures |res| < ef ==> Elements(res) == Admitted(admit, Reach(g, nodes, ep))
    ensures evals == |visited|
  {
    hide Reach;
    ReachStart(g, nodes, ep);
    var seen, frontier := {ep}, {ep};
    evals := 1;
    var results := if admit(ep) && ef > 0 then {ep} else {};
    StartLeast(d, admit, ep, ef, results);
    while frontier != {}
      invariant GatedInv(g, nodes, d, admit, ep, ef, seen, frontier, results) && evals == |seen|
      invariant Exploring(g, nodes, ef, seen - frontier, seen, results)
      decreases nodes - seen, frontier
    {
      var current := Nearest(d, frontier);
      if |results| >= ef && results != {} {
        var top := Farthest(d, results);
        if d(current) > d(top) {
          break;
        }
      }
      frontier := frontier - {current};
      var more;
      seen, frontier, results, more := ExpandGated(g, nodes, d, admit, ep, ef, current, seen, frontier, results);
      evals := evals + more;
    }
    res := Sorted(d, results);
    visited := seen;
    if |res| < ef {
      assert seen - frontier == seen;
      ClosedHoldsReach(g, nodes, ep, visited);
    }
  }

  lemma StartLeast(d: Distance, admit: Admit, ep: nat, ef: nat, results: set<nat>)
    requires results == if admit(ep) && ef > 0 then {ep} else {}
    ensures LeastOf(d, results, Admitted(admit, {ep}), ef)
  {
    assert Admitted(admit, {ep}) == if admit(ep) then {ep} else {};
  }

  method ExpandGated(g: Graph, ghost nodes: set<nat>, d: Distance, admit: Admit, ghost ep: nat, ef: nat, current: nat,
                     visited0: set<nat>, frontier0: set<nat>, results0: set<nat>)
    returns (visited: set<nat>, frontier: set<nat>, results: set<nat>, evals: nat)
    requires Closed(g, nodes) && current in visited0
    requires GatedInv(g, nodes, d, admit, ep, ef, visited0, frontier0, results0)
    requires Exploring(g, nodes, ef, visited0 - frontier0 - {current}, visited0, results0)
    ensures GatedInv(g, nodes, d, admit, ep, ef, visited, frontier, results)
    ensures Exploring(g, nodes, ef, visited - frontier, visited, results)
    ensures visited0 <= visited && frontier <= frontier0 + (visited - visited0) && evals == |visited| - |visited0|
  {
    hide Reach, LeastOf, Nearer;
    visited, frontier, results, evals := visited0, frontier0, results0, 0;
    var list := g(current);
    for j := 0 to |list|
      invariant GatedInv(g, nodes, d, admit, ep, ef, visited, frontier, results)
      invariant visited0 <= visited && frontier <= frontier0 + (visited - visited0) && evals == |visited| - |visited0|
      invariant Exploring(g, nodes, ef, visited - frontier - {current}, visited, results)
      invariant forall i :: 0 <= i < j ==> list[i] in visited
    {
      var nb := list[j];
      if nb !in visited {
        ReachStep(g, nodes, ep, current, nb);
        visited, frontier, results := OfferGated(g, nodes, d, admit, ep, ef, nb, visited, frontier, results);
        evals := evals + 1;
      }
    }
  }

  method OfferGated(ghost g: Graph, ghost nodes: set<nat>, d: Distance, admit: Admit, ghost ep: nat, ef: nat, nb: nat,
                    visited0: set<nat>, frontier0: set<nat>, results0: set<nat>)
    returns (visited: set<nat>, frontier: set<nat>, results: set<nat>)
    requires Closed(g, nodes) && nb in Reach(g, nodes, ep) && nb !in visited0
    requires GatedInv(g, nodes, d, admit, ep, ef, visited0, frontier0, results0)
    ensures GatedInv(g, nodes, d, admit, ep, ef, visited, frontier, results)
    ensures visited == visited0 + {nb} && frontier0 <= frontier <= frontier0 + {nb}
    ensures |results| < ef ==> |results0| < ef && nb in frontier
  {
    hide Reach, LeastOf, Nearer;
    HeapInside(d, results0, Admitted(admit, visited0), ef);
    visited, frontier, results := visited0 + {nb}, frontier0, results0;
    var near := true;
    if |results| >= ef && results != {} {
      var top := Farthest(d, results);
      near := d(nb) < d(top);
    }
    if near || |results| < ef {
      frontier := frontier + {nb};
    }
    AdmittedMore(admit, visited0, nb);
    if admit(nb) {
      results := PushCapped(d, results0, Admitted(admit, visited0), ef, nb);
    }
  }

  lemma AdmittedMore(admit: Admit, visited: set<nat>, nb: nat)
    ensures Admitted(admit, visited + {nb}) == if admit(nb) then Admitted(admit, visited) + {nb} else Admitted(admit, visited)
    ensures Admitted(admit, visited) <= visited
  {
  }

  /** Push an admitted node, and pop the farthest if that makes more than `ef`. */
  method PushCapped(d: Distance, results0: set<nat>, ghost all: set<nat>, ef: nat, nb: nat) returns (results: set<nat>)
    requires LeastOf(d, results0, all, ef) && nb !in all
    ensures LeastOf(d, results, all + {nb}, ef) && (|results| < ef ==> |results0| < ef)
  {
    hide LeastOf, Nearer;
    HeapInside(d, results0, all, ef);
    results := results0 + {nb};
    if |results| > ef {
      var worst := Farthest(d, results);
      DropWorst(d, results0, all, ef, nb, worst);
      results := results - {worst};
    } else {
      KeepAll(d, results0, all, ef, nb);
    }
  }

  /** A heap with room to spare holds everything. */
  lemma KeepAll(d: Distance, kept: set<nat>, all: set<nat>, ef: nat, nb: nat)
    requires LeastOf(d, kept, all, ef) && nb !in all && |kept + {nb}| <= ef
    ensures LeastOf(d, kept + {nb}, all + {nb}, ef)
  {
    assert |kept + {nb}| == |kept| + 1;
  }

  lemma HeapInside(d: Distance, kept: set<nat>, all: set<nat>, ef: nat)
    requires LeastOf(d, kept, all, ef)
    ensures kept <= all && |kept| <= ef
  {
  }

  /** Pushing a new candidate and popping the farthest keeps the `ef` least. */
  lemma DropWorst(d: Distance, kept: set<nat>, all: set<nat>, ef: nat, nb: nat, worst: nat)
    requires LeastOf(d, kept, all, ef) && nb !in all && |kept + {nb}| > ef
    requires worst in kept + {nb} && forall y <- kept + {nb} :: worst == y || Nearer(d, y, worst)
    ensures LeastOf(d, kept + {nb} - {worst}, all + {nb}, ef)
  {
    var kept', all' := kept + {nb} - {worst}, all + {nb};
    forall v, r | v in all' - kept' && r in kept'
      ensures Nearer(d, r, v)
    {
      if v != worst && v != nb && r == nb {
        assert worst in kept && Nearer(d, worst, v);
      }
    }
  }

  /** With room for everything reachable, the gated beam finds exactly the admitted reachable nodes. */
  lemma GatedExact(g: Graph, nodes: set<nat>, d: Distance, admit: Admit, ep: nat, ef: nat, res: seq<nat>, visited: set<nat>)
    requires Closed(g, nodes) && GatedFound(g, nodes, d, admit, ep, ef, res, visited)
    requires |Reach(g, nodes, ep)| <= ef
    ensures Elements(res) == Admitted(admit, Reach(g, nodes, ep))
  {
    hide Reach;
    var all := Reach(g, nodes, ep);
    DistinctCount(res);
    SubsetCount(Elements(res), all);
    if |res| == ef {
      SameCount(Elements(res), all);
    }
  }

  /** With room for everything reachable, the plain beam finds exactly that. */
  lemma BeamExact(g: Graph, nodes: set<nat>, d: Distance, ep: nat, ef: nat, res: seq<nat>, visited: set<nat>)
    requires Closed(g, nodes) && BeamFound(g, nodes, d, ep, ef, res, visited)
    requires |Reach(g, nodes, ep)| <= ef
    ensures Elements(res) == Reach(g, nodes, ep)
  {
    hide Reach;
    var all := Reach(g, nodes, ep);
    DistinctCount(res);
    SubsetCount(Elements(res), all);
    if |res| == ef {
      SameCount(Elements(res), all);
    }
  }

  /** Nothing one edge away from a result is strictly nearer than any result, unless it is a result itself. */
  lemma LocallyOptimal(g: Graph, nodes: set<nat>, d: Distance, ep: nat, ef: nat, res: seq<nat>, visited: set<nat>, r: nat, y: nat)
    requires Closed(g, nodes) && BeamFound(g, nodes, d, ep, ef, res, visited)
    requires r in res && y in g(r)
    ensures y in res || forall q <- res :: d(q) <= d(y)
  {
    hide Reach;
    assert r in Elements(res);
    assert y in visited;
    if y !in res {
      assert y in visited - Elements(res);
      forall q | q in res
        ensures d(q) <= d(y)
      {
        assert q in Elements(res);
      }
    }
  }

  // ---- greedy descent ----

  /**
   `to` is where a greedy descent from `from` at layer `top` enters the layer `floor`: on each layer in between it
   goes on from the one result of a beam of one, which visited the nodes in `seen`.
   */
  ghost predicate Descent(layer: nat -> Graph, nodes: nat -> set<nat>, d: Distance, from: nat, to: nat, top: nat, floor: nat, seen: seq<set<nat>>)
    decreases top - floor, 1
  {
    if top <= floor then to == from && seen == []
    else seen != [] && exists mid :: DescentVia(layer, nodes, d, from, mid, to, top, floor, seen)
  }

  /** It enters layer `floor + 1` at `mid`. */
  ghost predicate DescentVia(layer: nat -> Graph, nodes: nat -> set<nat>, d: Distance, from: nat, mid: nat, to: nat, top: nat, floor: nat,
                             seen: seq<set<nat>>)
    requires floor < top && seen != []
    decreases top - floor, 0
  {
    && Descent(layer, nodes, d, from, mid, top, floor + 1, seen[..|seen| - 1])
    && Closed(layer(floor + 1), nodes(floor + 1)) && BeamFound(layer(floor + 1), nodes(floor + 1), d, mid, 1, [to], seen[|seen| - 1])
  }

  ghost predicate Descended(layer: nat -> Graph, nodes: nat -> set<nat>, d: Distance, from: nat, to: nat, top: nat, floor: nat) {
    exists seen :: Descent(layer, nodes, d, from, to, top, floor, seen)
  }

  /** One layer further down. */
  lemma DescentMore(layer: nat -> Graph, nodes: nat -> set<nat>, d: Distance, from: nat, mid: nat, to: nat, top: nat, floor: nat,
                    seen: seq<set<nat>>, visited: set<nat>)
    requires floor < top && Descent(layer, nodes, d, from, mid, top, floor + 1, seen)
    requires Closed(layer(floor + 1), nodes(floor + 1)) && BeamFound(layer(floor + 1), nodes(floor + 1), d, mid, 1, [to], visited)
    ensures Descent(layer, nodes, d, from, to, top, floor, seen + [visited])
  {
    hide BeamFound;
    assert (seen + [visited])[..|seen|] == seen;
    assert DescentVia(layer, nodes, d, from, mid, to, top, floor, seen + [visited]);
  }

  /** It passes one layer after another, and never ends farther off than it began. */
  lemma {:induction false} DescentNears(layer: nat -> Graph, nodes: nat -> set<nat>, d: Distance, from: nat, to: nat, top: nat, floor: nat,
                                        seen: seq<set<nat>>)
    requires Descent(layer, nodes, d, from, to, top, floor, seen)
    ensures |seen| == (if top <= floor then 0 else top - floor) && d(to) <= d(from)
    decreases top - floor
  {
    hide BeamFound;
    if floor < top {
      var mid :| DescentVia(layer, nodes, d, from, mid, to, top, floor, seen);
      DescentNears(layer, nodes, d, from, mid, top, floor + 1, seen[..|seen| - 1]);
      FoundNearest(layer(floor + 1), nodes(floor + 1), d, mid, 1, [to], seen[|seen| - 1]);
    }
  }

  /** Where it leaves a layer, no neighbor on that layer is nearer. */
  lemma DescentLocal(layer: nat -> Graph, nodes: nat -> set<nat>, d: Distance, from: nat, to: nat, top: nat, floor: nat, seen: seq<set<nat>>)
    requires floor < top && Descent(layer, nodes, d, from, to, top, floor, seen)
    ensures Closed(layer(floor + 1), nodes(floor + 1)) && to in nodes(floor + 1)
    ensures forall y <- layer(floor + 1)(to) :: d(to) <= d(y)
  {
    hide Reach;
    var g, all, visited := layer(floor + 1), nodes(floor + 1), seen[|seen| - 1];
    var mid :| DescentVia(layer, nodes, d, from, mid, to, top, floor, seen);
    assert to in Elements([to]);
    forall y | y in g(to)
      ensures d(to) <= d(y)
    {
      LocallyOptimal(g, all, d, mid, 1, [to], visited, to, y);
    }
  }

  /** The first result is no farther than the entry. */
  lemma FoundNearest(g: Graph, nodes: set<nat>, d: Distance, ep: nat, ef: nat, w: seq<nat>, visited: set<nat>)
    requires Closed(g, nodes) && BeamFound(g, nodes, d, ep, ef, w, visited)
    ensures d(w[0]) <= d(ep)
  {
    assert w[0] in Elements(w);
    if ep in Elements(w) {
      var i :| 0 <= i < |w| && w[i] == ep;
      assert i > 0 ==> Nearer(d, w[0], w[i]);
    } else {
      assert ep in visited - Elements(w);
    }
  }
}
