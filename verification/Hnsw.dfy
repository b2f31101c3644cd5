/**
 The in-memory HNSW index: insertion keeps the layered graph well formed, so that no search
 ever indexes out of range, and search returns the best of what its layer-0 beam visited.
 Vectors and their distance are abstract; a node's random level is an argument.
 */
module HnswIndex {
  import opened Wrappers
  import opened Numbers
  import opened Beams

  type Links = seq<seq<seq<nat>>>

  // ---- the layered graph ----

  /** Neighbors at one layer; the index panics outside this domain. */
  function Layer(links: Links, lc: nat): Graph {
    (x: nat) requires x < |links| && lc < |links[x]| => links[x][lc]
  }

  /** The nodes that reach layer `lc`. */
  ghost function LayerNodes(links: Links, lc: nat): set<nat> {
    set x: nat | x < |links| && lc < |links[x]|
  }

  /** `m` neighbors per upper layer, twice as many at layer 0. */
  function Cap(m: nat, lc: nat): nat {
    if lc == 0 then 2 * m else m
  }

  /** A list fit to be `x`'s neighbors at layer `lc`. */
  predicate ListOk(links: Links, x: nat, lc: nat, list: seq<nat>, cap: nat) {
    && |list| <= cap && Distinct(list)
    && forall y <- list :: y != x && y < |links| && lc < |links[y]|
  }

  ghost predicate GraphOk(links: Links, m: nat) {
    forall x: nat, lc: nat {:trigger links[x][lc]} | x < |links| && lc < |links[x]| :: ListOk(links, x, lc, links[x][lc], Cap(m, lc))
  }

  lemma LayerClosed(links: Links, m: nat, lc: nat)
    requires GraphOk(links, m)
    ensures Closed(Layer(links, lc), LayerNodes(links, lc))
  {
    forall x, y | x in LayerNodes(links, lc) && y in links[x][lc]
      ensures y in LayerNodes(links, lc)
    {
      assert ListOk(links, x, lc, links[x][lc], Cap(m, lc));
    }
  }

  function WithList(links: Links, x: nat, lc: nat, list: seq<nat>): Links
    requires x < |links| && lc < |links[x]|
  {
    links[x := links[x][lc := list]]
  }

  lemma WithListOk(links: Links, m: nat, x: nat, lc: nat, list: seq<nat>)
    requires GraphOk(links, m) && x < |links| && lc < |links[x]|
    requires ListOk(links, x, lc, list, Cap(m, lc))
    ensures GraphOk(WithList(links, x, lc, list), m)
  {
    var links' := WithList(links, x, lc, list);
    forall y: nat, l: nat | y < |links'| && l < |links'[y]|
      ensures ListOk(links', y, l, links'[y][l], Cap(m, l))
    {
      var was := if y == x && l == lc then list else links[y][l];
      assert links'[y][l] == was && ListOk(links, y, l, was, Cap(m, l));
    }
  }

  /** A new node reaching layers 0 to `level`, without links yet. */
  function WithNode(links: Links, level: nat): Links {
    links + [seq(level + 1, _ => [])]
  }

  // ---- neighbor selection (Malkov, Algorithm 4) ----

  type Pair = (nat, nat) -> real

  /** No already selected node is nearer to `c` than the base is. */
  predicate Diverse(d: Distance, pair: Pair, c: nat, selected: seq<nat>) {
    forall r <- selected :: pair(c, r) >= d(c)
  }

  /** The first pass over the first `k` candidates: keep the diverse ones, up to `m`. */
  function Kept(d: Distance, pair: Pair, cands: seq<nat>, m: nat, k: nat): seq<nat>
    requires k <= |cands|
  {
    if k == 0 then []
    else
      var s, c := Kept(d, pair, cands, m, k - 1), cands[k - 1];
      if |s| < m && Diverse(d, pair, c, s) then s + [c] else s
  }

  /** The second pass: fill up with the nearest that remain. */
  function Filled(kept: seq<nat>, cands: seq<nat>, m: nat, k: nat): seq<nat>
    requires k <= |cands|
  {
    if k == 0 then kept
    else
      var s, c := Filled(kept, cands, m, k - 1), cands[k - 1];
      if |s| < m && c !in s then s + [c] else s
  }

  function Selected(d: Distance, pair: Pair, cands: seq<nat>, m: nat): seq<nat> {
    Filled(Kept(d, pair, cands, m, |cands|), cands, m, |cands|)
  }

  lemma {:induction false} KeptFacts(d: Distance, pair: Pair, cands: seq<nat>, m: nat, k: nat)
    requires k <= |cands| && Distinct(cands)
    ensures var s := Kept(d, pair, cands, m, k);
            && |s| <= m && |s| <= k && Distinct(s)
            && (forall x <- s :: x in cands[..k])
            && (k > 0 && m > 0 ==> |s| > 0 && s[0] == cands[0])
  {
    hide Diverse;
    if k > 0 {
      KeptFacts(d, pair, cands, m, k - 1);
      assert cands[..k] == cands[..k - 1] + [cands[k - 1]];
      assert cands[k - 1] !in cands[..k - 1];
      NothingIsDiverse(d, pair, cands[k - 1]);
    }
  }

  lemma NothingIsDiverse(d: Distance, pair: Pair, c: nat)
    ensures Diverse(d, pair, c, [])
  {
  }

  /** The kept candidates are pairwise diverse; a candidate is passed over only for a nearer kept one, or for want of room. */
  lemma {:induction false} KeptDiverse(d: Distance, pair: Pair, cands: seq<nat>, m: nat, k: nat)
    requires k <= |cands|
    ensures var s := Kept(d, pair, cands, m, k);
            && (forall i, j :: 0 <= i < j < |s| ==> pair(s[j], s[i]) >= d(s[j]))
            && (|s| < m ==> forall c <- cands[..k] :: c in s || exists r <- s :: pair(c, r) < d(c))
  {
    if k > 0 {
      KeptDiverse(d, pair, cands, m, k - 1);
      var s, c := Kept(d, pair, cands, m, k - 1), cands[k - 1];
      assert cands[..k] == cands[..k - 1] + [c];
      assert |s| < m && Diverse(d, pair, c, s) ==> forall i :: 0 <= i < |s| ==> pair(c, s[i]) >= d(c);
    }
  }

  lemma {:induction false} FilledFacts(kept: seq<nat>, cands: seq<nat>, m: nat, k: nat)
    requires k <= |cands| && Distinct(kept) && |kept| <= m && forall x <- kept :: x in cands
    ensures var s := Filled(kept, cands, m, k);
            && |kept| <= |s| <= m && s[..|kept|] == kept && Distinct(s)
            && (forall x <- s :: x in cands)
            && (|s| < m ==> forall c <- cands[..k] :: c in s)
  {
    if k > 0 {
      FilledFacts(kept, cands, m, k - 1);
      assert cands[..k] == cands[..k - 1] + [cands[k - 1]];
    }
  }

  /** What the second pass adds are the nearest of those passed over. */
  lemma {:induction false} FilledNearest(kept: seq<nat>, cands: seq<nat>, m: nat, k: nat, i: nat, j: nat)
    requires k <= |cands| && Distinct(cands) && Distinct(kept) && |kept| <= m && (forall x <- kept :: x in cands) && i < j < k
    ensures cands[j] in Filled(kept, cands, m, k) && cands[j] !in kept ==> cands[i] in Filled(kept, cands, m, k)
  {
    FilledFacts(kept, cands, m, k - 1);
    var s, c := Filled(kept, cands, m, k - 1), cands[k - 1];
    if j < k - 1 {
      FilledNearest(kept, cands, m, k - 1, i, j);
      assert cands[j] != c;
    } else if cands[j] !in kept && cands[j] in Filled(kept, cands, m, k) {
      NotYetFilled(kept, cands, m, k - 1, cands[j]);
      assert |s| < m;
      assert cands[..k - 1][i] == cands[i];
    }
  }

  /** A candidate is added when its turn comes, not before. */
  lemma {:induction false} NotYetFilled(kept: seq<nat>, cands: seq<nat>, m: nat, k: nat, c: nat)
    requires k <= |cands| && c !in kept && forall q :: 0 <= q < k ==> cands[q] != c
    ensures c !in Filled(kept, cands, m, k)
  {
    if k > 0 {
      NotYetFilled(kept, cands, m, k - 1, c);
    }
  }

  /** At most `m` distinct candidates, all of them when there are no more, the nearest always among them. */
  lemma SelectedFacts(d: Distance, pair: Pair, cands: seq<nat>, m: nat)
    requires Distinct(cands)
    ensures var s := Selected(d, pair, cands, m);
            && |s| <= m && Distinct(s) && (forall x <- s :: x in cands)
            && (|s| < m ==> forall c <- cands :: c in s)
            && (cands != [] && m > 0 ==> |s| > 0 && s[0] == cands[0])
  {
    KeptFacts(d, pair, cands, m, |cands|);
    assert cands[..|cands|] == cands;
    FilledFacts(Kept(d, pair, cands, m, |cands|), cands, m, |cands|);
  }

  /** `select_neighbors_heuristic`. */
  method SelectNeighbors(d: Distance, pair: Pair, cands: seq<nat>, m: nat) returns (selected: seq<nat>)
    ensures selected == Selected(d, pair, cands, m)
  {
    selected := [];
    var i := 0;
    while i < |cands|
      invariant 0 <= i <= |cands| && selected == Kept(d, pair, cands, m, i)
    {
      if |selected| >= m {
        KeptStops(d, pair, cands, m, i, |cands|);
        break;
      }
      var c := cands[i];
      var keep := true;
      for j := 0 to |selected|
        invariant keep && forall q :: 0 <= q < j ==> pair(c, selected[q]) >= d(c)
      {
        if pair(c, selected[j]) < d(c) {
          keep := false;
          break;
        }
      }
      if keep {
        selected := selected + [c];
      }
      i := i + 1;
    }
    ghost var kept := selected;
    assert kept == Kept(d, pair, cands, m, |cands|);
    i := 0;
    while i < |cands|
      invariant 0 <= i <= |cands| && selected == Filled(kept, cands, m, i)
    {
      if |selected| >= m {
        FilledStops(kept, cands, m, i, |cands|);
        break;
      }
      if cands[i] !in selected {
        selected := selected + [cands[i]];
      }
      i := i + 1;
    }
  }

  lemma {:induction false} KeptStops(d: Distance, pair: Pair, cands: seq<nat>, m: nat, i: nat, k: nat)
    requires i <= k <= |cands| && |Kept(d, pair, cands, m, i)| >= m
    ensures Kept(d, pair, cands, m, k) == Kept(d, pair, cands, m, i)
  {
    if i < k {
      KeptStops(d, pair, cands, m, i, k - 1);
    }
  }

  lemma {:induction false} FilledStops(kept: seq<nat>, cands: seq<nat>, m: nat, i: nat, k: nat)
    requires i <= k <= |cands| && |Filled(kept, cands, m, i)| >= m
    ensures Filled(kept, cands, m, k) == Filled(kept, cands, m, i)
  {
    if i < k {
      FilledStops(kept, cands, m, i, k - 1);
    }
  }

  // ---- linking ----

  /** Distance of every stored vector to `v`. */
  function DistanceIn<V>(vs: seq<V>, dist: (V, V) -> real, v: V): Distance {
    (x: nat) => if x < |vs| then dist(v, vs[x]) else 0.0
  }

  function PairIn<V>(vs: seq<V>, dist: (V, V) -> real): Pair {
    (x: nat, y: nat) => if x < |vs| && y < |vs| then dist(vs[x], vs[y]) else 0.0
  }

  /** `now` is `was` with `id` pushed, selected anew by distance to the list's owner if that overflows. */
  ghost predicate LinkedBack(d: Distance, pair: Pair, was: seq<nat>, now: seq<nat>, id: nat, cap: nat) {
    if |was| < cap then now == was + [id]
    else exists cands :: Ascending(d, cands) && Elements(cands) == Elements(was) + {id} && now == Selected(d, pair, cands, cap)
  }

  /** At layer `lc`, node `id` points at `list`, each node of `list` is linked back, and no other list changed. */
  ghost predicate LayerConnected<V(!new)>(vs: seq<V>, dist: (V, V) -> real, was: Links, now: Links, id: nat, lc: nat, list: seq<nat>, cap: nat)
    requires SameShape(now, was) && |vs| == |was| && id < |was| && lc < |was[id]|
  {
    && now[id][lc] == list
    && forall x: nat | x < |was| && x != id && lc < |was[x]| ::
         if x in list then LinkedBack(DistanceIn(vs, dist, vs[x]), PairIn(vs, dist), was[x][lc], now[x][lc], id, cap)
         else now[x][lc] == was[x][lc]
  }

  ghost predicate LayerSame(was: Links, now: Links, lc: nat)
    requires SameShape(now, was)
  {
    forall x: nat | x < |was| && lc < |was[x]| :: now[x][lc] == was[x][lc]
  }

  /** The same nodes with the same layers. */
  ghost predicate SameShape(a: Links, b: Links) {
    |a| == |b| && forall x :: 0 <= x < |a| ==> |a[x]| == |b[x]|
  }

  /** The layers of an index, and their nodes. */
  function LayersOf(links: Links): nat -> Graph {
    (lc: nat) => Layer(links, lc)
  }

  ghost function NodesOf(links: Links): nat -> set<nat> {
    (lc: nat) => LayerNodes(links, lc)
  }

  /** The neighbors chosen for a new node at layer `lc`: the selection from a beam over that layer. */
  ghost predicate Chosen<V(!new)>(vs: seq<V>, dist: (V, V) -> real, links: Links, v: V, ef: nat, lc: nat, list: seq<nat>, cap: nat, ep: nat, next: nat)
    requires Closed(Layer(links, lc), LayerNodes(links, lc))
  {
    exists w, visited ::
      && BeamFound(Layer(links, lc), LayerNodes(links, lc), DistanceIn(vs, dist, v), ep, ef, w, visited) && next == w[0]
      && list == Selected(DistanceIn(vs, dist, v), PairIn(vs, dist), w, cap)
  }

  /**
   The way down for a new node: greedily to layer `start`, entered at `route[start + 1]`; from there the beam over layer
   `lc` starts at `route[lc + 1]` and its nearest result is `route[lc]`.
   */
  ghost predicate Routed<V(!new)>(vs: seq<V>, dist: (V, V) -> real, links: Links, v: V, ef: nat, m: nat, entry: nat, level: nat, top: nat,
                                  lists: seq<seq<nat>>, route: seq<nat>) {
    var start := if level <= top then level else top;
    && |lists| > start && |route| == start + 2
    && Descended(LayersOf(links), NodesOf(links), DistanceIn(vs, dist, v), entry, route[start + 1], top, level)
    && forall lc :: 0 <= lc <= start ==>
         && Closed(Layer(links, lc), LayerNodes(links, lc))
         && Chosen(vs, dist, links, v, ef, lc, lists[lc], Cap(m, lc), route[lc + 1], route[lc])
  }

  lemma ListIsOk(links: Links, m: nat, x: nat, lc: nat)
    requires GraphOk(links, m) && x < |links| && lc < |links[x]|
    ensures ListOk(links, x, lc, links[x][lc], Cap(m, lc))
  {
  }

  method PushAndPrune(d: Distance, pair: Pair, was: seq<nat>, id: nat, cap: nat) returns (list: seq<nat>)
    requires Distinct(was) && |was| <= cap && id !in was
    ensures LinkedBack(d, pair, was, list, id, cap)
    ensures |list| <= cap && Distinct(list) && forall y <- list :: y in was || y == id
  {
    list := was + [id];
    if |list| > cap {
      assert Elements(list) == Elements(was) + {id};
      var cands := Sorted(d, Elements(list));
      ghost var pushed := list;
      list := SelectNeighbors(d, pair, cands, cap);
      SelectedFacts(d, pair, cands, cap);
      forall y | y in list
        ensures y in pushed
      {
        assert y in Elements(cands);
      }
    }
  }

  // ---- the index ----

  class Hnsw<V(!new)> {
    const m: nat
    const efConstruction: nat
    const dist: (V, V) -> real
    var vectors: seq<V>
    var levels: seq<nat>
    var links: Links
    var entry: Option<nat>
    var maxLevel: nat

    ghost predicate Valid()
      reads this
    {
      && |levels| == |vectors| == |links|
      && (forall x :: 0 <= x < |links| ==> |links[x]| == levels[x] + 1)
      && GraphOk(links, m)
      && (entry.None? <==> |vectors| == 0)
      && (entry.Some? ==> entry.value < |vectors| && levels[entry.value] == maxLevel)
      && (forall x :: 0 <= x < |levels| ==> levels[x] <= maxLevel)
    }

    constructor (m: nat, efConstruction: nat, dist: (V, V) -> real)
      ensures Valid() && vectors == [] && this.m == m && this.efConstruction == efConstruction && this.dist == dist
    {
      this.m, this.efConstruction, this.dist := m, efConstruction, dist;
      vectors, levels, links, entry, maxLevel := [], [], [], None, 0;
    }

    /** `search_layer` of this index. */
    method SearchAt(d: Distance, ep: nat, ef: nat, lc: nat) returns (w: seq<nat>, ghost visited: set<nat>)
      requires Valid() && ep < |links| && lc < |links[ep]|
      ensures Closed(Layer(links, lc), LayerNodes(links, lc))
      ensures BeamFound(Layer(links, lc), LayerNodes(links, lc), d, ep, ef, w, visited)
      ensures forall x <- w :: x < |links| && lc < |links[x]|
    {
      LayerClosed(links, m, lc);
      var evals;
      w, evals, visited := SearchLayer(Layer(links, lc), LayerNodes(links, lc), d, ep, ef);
      forall x | x in w
        ensures x < |links| && lc < |links[x]|
      {
        assert x in Elements(w);
      }
    }

    /** Greedy descent from the entry to just above layer `floor`: one nearest node per layer. */
    method Descend(d: Distance, floor: nat) returns (ep: nat, ghost seen: seq<set<nat>>)
      requires Valid() && entry.Some?
      ensures ep < |links| && (if floor <= maxLevel then floor else maxLevel) < |links[ep]|
      ensures Descent(LayersOf(links), NodesOf(links), d, entry.value, ep, maxLevel, floor, seen)
    {
      hide BeamFound;
      ep, seen := entry.value, [];
      var lc := maxLevel;
      while lc > floor
        invariant ep < |links| && (floor <= maxLevel ==> floor <= lc) && (floor > maxLevel ==> lc == maxLevel)
        invariant lc < |links[ep]| && lc <= maxLevel
        invariant Descent(LayersOf(links), NodesOf(links), d, entry.value, ep, maxLevel, lc, seen)
      {
        var w, visited := SearchAt(d, ep, 1, lc);
        OneResult(Layer(links, lc), LayerNodes(links, lc), d, ep, w, visited);
        DescentMore(LayersOf(links), NodesOf(links), d, entry.value, ep, w[0], maxLevel, lc - 1, seen, visited);
        assert w[0] in w;
        ep, seen := w[0], seen + [visited];
        lc := lc - 1;
      }
      if floor > maxLevel {
        NoDescent(LayersOf(links), NodesOf(links), d, entry.value, maxLevel, floor);
      }
    }

    /** `search_with`: descend to layer 1, then a layer-0 beam cut off at `top`. */
    method SearchWith(d: Distance, top: nat, ef: nat)
      returns (w: seq<nat>, ghost ep: nat, ghost seen: seq<set<nat>>, ghost full: seq<nat>, ghost visited: set<nat>)
      requires Valid()
      ensures entry.None? ==> w == []
      ensures entry.Some? ==>
                && ep < |links| && Descent(LayersOf(links), NodesOf(links), d, entry.value, ep, maxLevel, 0, seen)
                && Closed(Layer(links, 0), LayerNodes(links, 0))
                && BeamFound(Layer(links, 0), LayerNodes(links, 0), d, ep, Max(ef, top), full, visited)
                && w == full[..if top <= |full| then top else |full|]
      ensures |w| <= top && Distinct(w) && Ascending(d, w) && forall x <- w :: x < |vectors|
    {
      if entry.None? {
        w, ep, seen, full, visited := [], 0, [], [], {};
        return;
      }
      var start, passed := Descend(d, 0);
      var all, last := SearchAt(d, start, Max(ef, top), 0);
      w := all[..if top <= |all| then top else |all|];
      forall x | x in w
        ensures x < |vectors|
      {
        assert x in all;
      }
      ep, seen, full, visited := start, passed, all, last;
    }

    /** The first phase of `insert`: for each layer from `start` down, the new node's neighbors. */
    method ChooseNeighbors(v: V, ep0: nat, start: nat) returns (chosen: seq<seq<nat>>, ghost route: seq<nat>)
      requires Valid() && ep0 < |links| && start < |links[ep0]|
      ensures |chosen| == start + 1 && |route| == start + 2 && route[start + 1] == ep0
      ensures forall lc :: 0 <= lc <= start ==> ListOk(links, |links|, lc, chosen[lc], Cap(m, lc))
      ensures forall lc :: 0 <= lc <= start ==> Closed(Layer(links, lc), LayerNodes(links, lc))
      ensures forall lc :: 0 <= lc <= start ==>
                Chosen(vectors, dist, links, v, efConstruction, lc, chosen[lc], Cap(m, lc), route[lc + 1], route[lc])
    {
      hide BeamFound, Selected;
      var d, pair := DistanceIn(vectors, dist, v), PairIn(vectors, dist);
      var ep: nat := ep0;
      chosen := seq(start + 1, _ => []);
      route := seq(start + 2, _ => ep0);
      var lc := start + 1;
      while lc > 0
        invariant 0 <= lc <= start + 1 && |chosen| == start + 1 && |route| == start + 2 && route[start + 1] == ep0 && route[lc] == ep
        invariant ep < |links| && (lc > 0 ==> lc - 1 < |links[ep]|)
        invariant forall l :: lc <= l <= start ==> ListOk(links, |links|, l, chosen[l], Cap(m, l))
        invariant forall l :: lc <= l <= start ==> Closed(Layer(links, l), LayerNodes(links, l))
        invariant forall l :: lc <= l <= start ==>
                    Chosen(vectors, dist, links, v, efConstruction, l, chosen[l], Cap(m, l), route[l + 1], route[l])
      {
        lc := lc - 1;
        var w, visited := SearchAt(d, ep, efConstruction, lc);
        var neighbors := SelectNeighbors(d, pair, w, Cap(m, lc));
        OneOrMore(Layer(links, lc), LayerNodes(links, lc), d, ep, efConstruction, w, visited);
        SelectedFacts(d, pair, w, Cap(m, lc));
        assert w[0] in w;
        assert Chosen(vectors, dist, links, v, efConstruction, lc, neighbors, Cap(m, lc), ep, w[0]);
        ep := w[0];
        chosen := chosen[lc := neighbors];
        route := route[lc := ep];
      }
    }

    /** The second phase: link the new node both ways, pruning lists that overflow. */
    method Connect(id: nat, chosen: seq<seq<nat>>)
      requires id + 1 == |links| == |vectors| && GraphOk(links, m) && |chosen| <= |links[id]|
      requires forall lc :: 0 <= lc < |chosen| ==> ListOk(links, id, lc, chosen[lc], Cap(m, lc))
      requires forall x: nat, lc: nat | x < |links| && lc < |links[x]| :: id !in links[x][lc]
      modifies this`links
      ensures GraphOk(links, m) && SameShape(links, old(links))
      ensures forall lc: nat | lc < |chosen| :: LayerConnected(vectors, dist, old(links), links, id, lc, chosen[lc], Cap(m, lc))
      ensures forall lc: nat | lc >= |chosen| :: LayerSame(old(links), links, lc)
    {
      var lc := |chosen|;
      while lc > 0
        invariant 0 <= lc <= |chosen| && GraphOk(links, m) && SameShape(links, old(links))
        invariant forall l: nat | lc <= l < |chosen| :: LayerConnected(vectors, dist, old(links), links, id, l, chosen[l], Cap(m, l))
        invariant forall l: nat | l < lc || l >= |chosen| :: LayerSame(old(links), links, l)
      {
        lc := lc - 1;
        forall x: nat | x < |links| && lc < |links[x]|
          ensures id !in links[x][lc]
        {
          assert LayerSame(old(links), links, lc);
        }
        ghost var before := links;
        ConnectLayer(id, lc, chosen[lc]);
        ConnectedFrom(vectors, dist, old(links), before, links, id, lc, chosen[lc], Cap(m, lc));
        forall l: nat | lc < l < |chosen|
          ensures LayerConnected(vectors, dist, old(links), links, id, l, chosen[l], Cap(m, l))
        {
          ConnectedStays(vectors, dist, old(links), before, links, id, l, chosen[l], Cap(m, l));
        }
        forall l: nat | l < lc || l >= |chosen|
          ensures LayerSame(old(links), links, l)
        {
          assert LayerSame(old(links), before, l) && LayerSame(before, links, l);
        }
      }
    }

    method ConnectLayer(id: nat, lc: nat, neighbors: seq<nat>)
      requires id + 1 == |links| == |vectors| && GraphOk(links, m) && lc < |links[id]|
      requires ListOk(links, id, lc, neighbors, Cap(m, lc))
      requires forall x: nat | x < |links| && lc < |links[x]| :: id !in links[x][lc]
      modifies this`links
      ensures GraphOk(links, m) && SameShape(links, old(links))
      ensures LayerConnected(vectors, dist, old(links), links, id, lc, neighbors, Cap(m, lc))
      ensures forall l: nat | l != lc :: LayerSame(old(links), links, l)
    {
      hide LinkedBack, DistanceIn, PairIn;
      WithListOk(links, m, id, lc, neighbors);
      links := WithList(links, id, lc, neighbors);
      for j := 0 to |neighbors|
        invariant GraphOk(links, m) && SameShape(links, old(links)) && links[id][lc] == neighbors
        invariant forall l: nat | l != lc :: LayerSame(old(links), links, l)
        invariant forall x: nat | x < |links| && x != id && lc < |links[x]| && x !in neighbors[..j] :: links[x][lc] == old(links)[x][lc]
        invariant forall x: nat | x < |links| && x != id && lc < |links[x]| && x in neighbors[..j] ::
                    LinkedBack(DistanceIn(vectors, dist, vectors[x]), PairIn(vectors, dist), old(links)[x][lc], links[x][lc], id, Cap(m, lc))
      {
        var nb := neighbors[j];
        assert nb in neighbors && nb !in neighbors[..j];
        assert neighbors[..j + 1] == neighbors[..j] + [nb];
        ghost var before := links;
        LinkBack(nb, id, lc);
        forall l: nat | l != lc
          ensures LayerSame(old(links), links, l)
        {
          assert LayerSame(old(links), before, l) && LayerSame(before, links, l);
        }
      }
      assert neighbors[..|neighbors|] == neighbors;
    }

    /** Push `id` onto `nb`'s list and, if it overflows, select again. */
    method LinkBack(nb: nat, id: nat, lc: nat)
      requires GraphOk(links, m) && nb < |links| == |vectors| && id < |links| && nb != id
      requires lc < |links[nb]| && lc < |links[id]| && id !in links[nb][lc]
      modifies this`links
      ensures GraphOk(links, m) && nb < |old(links)| && lc < |old(links)[nb]| && SameShape(links, old(links))
      ensures links == WithList(old(links), nb, lc, links[nb][lc])
      ensures LinkedBack(DistanceIn(vectors, dist, vectors[nb]), PairIn(vectors, dist), old(links)[nb][lc], links[nb][lc], id, Cap(m, lc))
    {
      hide LinkedBack, DistanceIn, PairIn, GraphOk;
      assert ListOk(links, nb, lc, links[nb][lc], Cap(m, lc)) by { ListIsOk(links, m, nb, lc); }
      var list := PushAndPrune(DistanceIn(vectors, dist, vectors[nb]), PairIn(vectors, dist), links[nb][lc], id, Cap(m, lc));
      WithListOk(links, m, nb, lc, list);
      links := WithList(links, nb, lc, list);
    }

    /** What a later insertion does to the graph: choose, link, link back; nothing else. */
    twostate predicate Linked(vector: V, level: nat, id: nat, from: nat, reach: nat)
      reads this
      requires |old(vectors)| == |old(links)| == id && |vectors| == id + 1
    {
      && SameShape(links, WithNode(old(links), level))
      && (exists route :: Routed(old(vectors), dist, old(links), vector, efConstruction, m, from, level, reach, links[id], route))
      && (forall lc: nat | lc <= level && lc <= reach ::
            LayerConnected(vectors, dist, WithNode(old(links), level), links, id, lc, links[id][lc], Cap(m, lc)))
      && (forall lc: nat | lc > level || lc > reach :: LayerSame(WithNode(old(links), level), links, lc))
    }

    /** `insert`, with the drawn level as an argument; returns the new node's id. */
    method Insert(vector: V, level: nat) returns (id: nat)
      requires Valid()
      modifies this
      ensures Valid() && id == old(|vectors|)
      ensures vectors == old(vectors) + [vector] && levels == old(levels) + [level]
      ensures maxLevel == (if old(entry).None? then level else Max(level, old(maxLevel)))
      ensures entry == (if old(entry).None? || level > old(maxLevel) then Some(id) else old(entry))
      ensures old(entry).None? ==> links == WithNode([], level)
      ensures old(entry).Some? ==> Linked(vector, level, id, old(entry).value, old(maxLevel))
    {
      id := |vectors|;
      if entry.None? {
        vectors := vectors + [vector];
        levels := levels + [level];
        links := WithNode(links, level);
        entry := Some(0);
        maxLevel := level;
        assert GraphOk(links, m);
        return;
      }
      AddNode(vector, level);
      if level > maxLevel {
        maxLevel := level;
        entry := Some(id);
      }
    }

    method AddNode(vector: V, level: nat)
      requires Valid() && entry.Some?
      modifies this`vectors, this`levels, this`links
      ensures vectors == old(vectors) + [vector] && levels == old(levels) + [level] && GraphOk(links, m)
      ensures Linked(vector, level, |old(vectors)|, entry.value, maxLevel)
    {
      hide LinkedBack, DistanceIn, PairIn, LayerConnected, Chosen, Descent, Routed, LayersOf, NodesOf;
      var id := |vectors|;
      var ep, seen := Descend(DistanceIn(vectors, dist, vector), level);
      var start := if level <= maxLevel then level else maxLevel;
      var chosen, route := ChooseNeighbors(vector, ep, start);
      assert Descended(LayersOf(links), NodesOf(links), DistanceIn(vectors, dist, vector), entry.value, ep, maxLevel, level);
      RouteIs(vectors, dist, links, vector, efConstruction, m, entry.value, level, maxLevel, chosen, route);
      vectors := vectors + [vector];
      levels := levels + [level];
      NewNode(links, m, level, chosen);
      links := WithNode(links, level);
      Connect(id, chosen);
      forall lc: nat | lc <= start
        ensures links[id][lc] == chosen[lc]
      {
        ConnectedList(vectors, dist, WithNode(old(links), level), links, id, lc, chosen[lc], Cap(m, lc));
      }
      SameRoute(old(vectors), dist, old(links), vector, efConstruction, m, entry.value, level, maxLevel, chosen, links[id], route);
    }
  }

  lemma RouteIs<V(!new)>(vs: seq<V>, dist: (V, V) -> real, links: Links, v: V, ef: nat, m: nat, entry: nat, level: nat, top: nat,
                         lists: seq<seq<nat>>, route: seq<nat>)
    requires var start := if level <= top then level else top;
             && |lists| > start && |route| == start + 2
             && Descended(LayersOf(links), NodesOf(links), DistanceIn(vs, dist, v), entry, route[start + 1], top, level)
             && forall lc :: 0 <= lc <= start ==>
                  && Closed(Layer(links, lc), LayerNodes(links, lc))
                  && Chosen(vs, dist, links, v, ef, lc, lists[lc], Cap(m, lc), route[lc + 1], route[lc])
    ensures Routed(vs, dist, links, v, ef, m, entry, level, top, lists, route)
  {
    hide Chosen, Descended;
  }

  lemma SameRoute<V(!new)>(vs: seq<V>, dist: (V, V) -> real, links: Links, v: V, ef: nat, m: nat, entry: nat, level: nat, top: nat,
                           a: seq<seq<nat>>, b: seq<seq<nat>>, route: seq<nat>)
    requires Routed(vs, dist, links, v, ef, m, entry, level, top, a, route)
    requires |a| <= |b| && forall lc :: 0 <= lc < |a| ==> b[lc] == a[lc]
    ensures Routed(vs, dist, links, v, ef, m, entry, level, top, b, route)
  {
    hide Chosen, Descended;
  }

  lemma ConnectedList<V(!new)>(vs: seq<V>, dist: (V, V) -> real, was: Links, now: Links, id: nat, lc: nat, list: seq<nat>, cap: nat)
    requires SameShape(now, was) && |vs| == |was| && id < |was| && lc < |was[id]|
    requires LayerConnected(vs, dist, was, now, id, lc, list, cap)
    ensures now[id][lc] == list
  {
  }

  /** A new node without links disturbs nothing and is in nobody's list. */
  lemma NewNode(links: Links, m: nat, level: nat, chosen: seq<seq<nat>>)
    requires GraphOk(links, m) && |chosen| <= level + 1
    requires forall lc :: 0 <= lc < |chosen| ==> ListOk(links, |links|, lc, chosen[lc], Cap(m, lc))
    ensures var links' := WithNode(links, level);
            && GraphOk(links', m)
            && (forall lc :: 0 <= lc < |chosen| ==> ListOk(links', |links|, lc, chosen[lc], Cap(m, lc)))
            && (forall x: nat, lc: nat | x < |links'| && lc < |links'[x]| :: |links| !in links'[x][lc])
  {
    var links' := WithNode(links, level);
    forall x: nat, lc: nat | x < |links'| && lc < |links'[x]|
      ensures ListOk(links', x, lc, links'[x][lc], Cap(m, lc)) && |links| !in links'[x][lc]
    {
      if x < |links| {
        assert ListOk(links, x, lc, links[x][lc], Cap(m, lc));
      }
    }
  }

  lemma ConnectedFrom<V(!new)>(vs: seq<V>, dist: (V, V) -> real, was: Links, mid: Links, now: Links, id: nat, lc: nat, list: seq<nat>, cap: nat)
    requires SameShape(mid, was) && SameShape(now, mid) && |vs| == |was| && id < |was| && lc < |was[id]|
    requires LayerSame(was, mid, lc) && LayerConnected(vs, dist, mid, now, id, lc, list, cap)
    ensures LayerConnected(vs, dist, was, now, id, lc, list, cap)
  {
    hide LinkedBack, DistanceIn, PairIn;
    assert forall x: nat | x < |was| && lc < |was[x]| :: mid[x][lc] == was[x][lc];
  }

  lemma ConnectedStays<V(!new)>(vs: seq<V>, dist: (V, V) -> real, was: Links, mid: Links, now: Links, id: nat, lc: nat, list: seq<nat>, cap: nat)
    requires SameShape(mid, was) && SameShape(now, mid) && |vs| == |was| && id < |was| && lc < |was[id]|
    requires LayerConnected(vs, dist, was, mid, id, lc, list, cap) && LayerSame(mid, now, lc)
    ensures LayerConnected(vs, dist, was, now, id, lc, list, cap)
  {
    hide LinkedBack, DistanceIn, PairIn;
    assert forall x: nat | x < |was| && lc < |was[x]| :: now[x][lc] == mid[x][lc];
  }

  /** A beam of one has one result. */
  lemma OneResult(g: Graph, nodes: set<nat>, d: Distance, ep: nat, w: seq<nat>, visited: set<nat>)
    requires Closed(g, nodes) && BeamFound(g, nodes, d, ep, 1, w, visited)
    ensures |w| == 1 && w == [w[0]]
  {
    hide Reach;
  }

  lemma OneOrMore(g: Graph, nodes: set<nat>, d: Distance, ep: nat, ef: nat, w: seq<nat>, visited: set<nat>)
    requires Closed(g, nodes) && BeamFound(g, nodes, d, ep, ef, w, visited)
    ensures |w| > 0
  {
    hide Reach;
  }

  /** Below the top there is nothing to descend. */
  lemma NoDescent(layer: nat -> Graph, nodes: nat -> set<nat>, d: Distance, from: nat, top: nat, floor: nat)
    requires top <= floor
    ensures Descent(layer, nodes, d, from, from, top, floor, [])
  {
  }
}
