/**
 Depth-limited forward traversal, over any adjacency. With its visited set and early exit it still
 finds exactly the targets at the end of some walk of at most that many edges.
 */
module Traversals {
  import opened Wrappers

  type Adjacency = nat -> seq<nat>
  type Resolve = nat -> Option<nat>

  /** A local node at the end of a walk of exactly `k` edges from a seed. */
  ghost predicate NodeAt(out: Adjacency, resolve: Resolve, seeds: seq<nat>, n: nat, k: nat)
    decreases k, 1
  {
    if k == 0 then n in seeds else exists t: nat :: TargetAt(out, resolve, seeds, t, k) && resolve(t) == Some(n)
  }

  /** A target at the end of a walk of exactly `k` edges from a seed; all but the last one lead to local nodes. */
  ghost predicate TargetAt(out: Adjacency, resolve: Resolve, seeds: seq<nat>, t: nat, k: nat)
    decreases k, 0
  {
    k > 0 && exists m: nat :: NodeAt(out, resolve, seeds, m, k - 1) && t in out(m)
  }

  ghost predicate NodeWithin(out: Adjacency, resolve: Resolve, seeds: seq<nat>, n: nat, k: nat) {
    exists j: nat :: j <= k && NodeAt(out, resolve, seeds, n, j)
  }

  ghost predicate TargetWithin(out: Adjacency, resolve: Resolve, seeds: seq<nat>, t: nat, k: nat) {
    exists j: nat :: j <= k && TargetAt(out, resolve, seeds, t, j)
  }

  lemma StepTarget(out: Adjacency, resolve: Resolve, seeds: seq<nat>, m: nat, t: nat, k: nat)
    requires NodeWithin(out, resolve, seeds, m, k) && t in out(m)
    ensures TargetWithin(out, resolve, seeds, t, k + 1)
  {
    var j: nat :| j <= k && NodeAt(out, resolve, seeds, m, j);
    assert TargetAt(out, resolve, seeds, t, j + 1);
  }

  lemma StepNode(out: Adjacency, resolve: Resolve, seeds: seq<nat>, t: nat, n: nat, k: nat)
    requires TargetWithin(out, resolve, seeds, t, k) && resolve(t) == Some(n)
    ensures NodeWithin(out, resolve, seeds, n, k)
  {
    var j: nat :| j <= k && TargetAt(out, resolve, seeds, t, j);
    assert NodeAt(out, resolve, seeds, n, j);
  }

  /** What the rounds keep: only nodes and targets within `k` edges, and beyond the frontier nothing left to do. */
  ghost predicate RoundInv(out: Adjacency, resolve: Resolve, seeds: seq<nat>, k: nat, visited: set<nat>, reached: set<nat>) {
    && (forall s <- seeds :: s in visited)
    && (forall n <- visited :: NodeWithin(out, resolve, seeds, n, k))
    && (forall t <- reached :: TargetWithin(out, resolve, seeds, t, k))
  }

  /** Every edge of `m` has been followed. */
  ghost predicate Followed(out: Adjacency, resolve: Resolve, m: nat, visited: set<nat>, reached: set<nat>) {
    forall t <- out(m) :: t in reached && (resolve(t).Some? ==> resolve(t).value in visited)
  }

  /** All visited nodes outside the frontier have been followed. */
  ghost predicate Swept(out: Adjacency, resolve: Resolve, visited: set<nat>, reached: set<nat>, frontier: seq<nat>) {
    forall m <- visited :: m in frontier || Followed(out, resolve, m, visited, reached)
  }

  /** All targets within `k` edges have been reached. */
  ghost predicate Complete(out: Adjacency, resolve: Resolve, seeds: seq<nat>, k: nat, visited: set<nat>, reached: set<nat>) {
    && (forall n: nat :: NodeWithin(out, resolve, seeds, n, k) ==> n in visited)
    && (forall t: nat :: TargetWithin(out, resolve, seeds, t, k) ==> t in reached)
  }

  /** One more round completes one more edge. */
  lemma RoundCompletes(out: Adjacency, resolve: Resolve, seeds: seq<nat>, k: nat, before: set<nat>, visited: set<nat>, reached: set<nat>)
    requires before <= visited && (forall n: nat :: NodeWithin(out, resolve, seeds, n, k) ==> n in before)
    requires forall m <- before :: Followed(out, resolve, m, visited, reached)
    ensures Complete(out, resolve, seeds, k + 1, visited, reached)
  {
    hide Followed;
    forall t: nat | TargetWithin(out, resolve, seeds, t, k + 1)
      ensures t in reached && (resolve(t).Some? ==> resolve(t).value in visited)
    {
      var j: nat :| j <= k + 1 && TargetAt(out, resolve, seeds, t, j);
      var m: nat :| NodeAt(out, resolve, seeds, m, j - 1) && t in out(m);
      assert NodeWithin(out, resolve, seeds, m, k);
      FollowedEdge(out, resolve, m, t, visited, reached);
    }
    forall n: nat | NodeWithin(out, resolve, seeds, n, k + 1)
      ensures n in visited
    {
      var j: nat :| j <= k + 1 && NodeAt(out, resolve, seeds, n, j);
      if j > 0 {
        var t: nat :| TargetAt(out, resolve, seeds, t, j) && resolve(t) == Some(n);
        assert TargetWithin(out, resolve, seeds, t, k + 1);
      } else {
        assert NodeWithin(out, resolve, seeds, n, k);
      }
    }
  }

  lemma FollowedEdge(out: Adjacency, resolve: Resolve, m: nat, t: nat, visited: set<nat>, reached: set<nat>)
    requires Followed(out, resolve, m, visited, reached) && t in out(m)
    ensures t in reached && (resolve(t).Some? ==> resolve(t).value in visited)
  {
  }

  /** With nothing new in a round, no further edge can add anything. */
  lemma {:induction false} ClosedCompletes(out: Adjacency, resolve: Resolve, seeds: seq<nat>, k: nat, d: nat, visited: set<nat>, reached: set<nat>)
    requires Complete(out, resolve, seeds, k, visited, reached) && k <= d
    requires forall m <- visited :: Followed(out, resolve, m, visited, reached)
    ensures Complete(out, resolve, seeds, d, visited, reached)
    decreases d
  {
    hide Followed, Complete;
    if k < d {
      ClosedCompletes(out, resolve, seeds, k, d - 1, visited, reached);
      CompleteNodes(out, resolve, seeds, d - 1, visited, reached);
      RoundCompletes(out, resolve, seeds, d - 1, visited, visited, reached);
    }
  }

  lemma CompleteNodes(out: Adjacency, resolve: Resolve, seeds: seq<nat>, k: nat, visited: set<nat>, reached: set<nat>)
    requires Complete(out, resolve, seeds, k, visited, reached)
    ensures forall n: nat :: NodeWithin(out, resolve, seeds, n, k) ==> n in visited
  {
  }

  lemma StartComplete(out: Adjacency, resolve: Resolve, seeds: seq<nat>)
    ensures Complete(out, resolve, seeds, 0, set s <- seeds, {})
    ensures RoundInv(out, resolve, seeds, 0, set s <- seeds, {})
  {
    forall n | n in seeds
      ensures NodeWithin(out, resolve, seeds, n, 0)
    {
      assert NodeAt(out, resolve, seeds, n, 0);
    }
  }

  lemma RoundSound(out: Adjacency, resolve: Resolve, seeds: seq<nat>, k: nat, visited: set<nat>, reached: set<nat>)
    requires RoundInv(out, resolve, seeds, k, visited, reached)
    ensures RoundInv(out, resolve, seeds, k + 1, visited, reached)
  {
    forall n | n in visited
      ensures NodeWithin(out, resolve, seeds, n, k + 1)
    {
      var j: nat :| j <= k && NodeAt(out, resolve, seeds, n, j);
    }
    forall t | t in reached
      ensures TargetWithin(out, resolve, seeds, t, k + 1)
    {
      var j: nat :| j <= k && TargetAt(out, resolve, seeds, t, j);
    }
  }

  lemma {:induction false} RoundSoundTo(out: Adjacency, resolve: Resolve, seeds: seq<nat>, k: nat, d: nat, visited: set<nat>, reached: set<nat>)
    requires RoundInv(out, resolve, seeds, k, visited, reached) && k <= d
    ensures RoundInv(out, resolve, seeds, d, visited, reached)
    decreases d
  {
    hide RoundInv;
    if k < d {
      RoundSoundTo(out, resolve, seeds, k, d - 1, visited, reached);
      RoundSound(out, resolve, seeds, d - 1, visited, reached);
    }
  }

  /** The two inner loops over one node's edges. */
  method FollowNode(out: Adjacency, resolve: Resolve, ghost seeds: seq<nat>, ghost k: nat, node: nat,
                    visited0: set<nat>, reached0: set<nat>, next0: seq<nat>)
    returns (visited: set<nat>, reached: set<nat>, next: seq<nat>)
    requires RoundInv(out, resolve, seeds, k + 1, visited0, reached0) && NodeWithin(out, resolve, seeds, node, k)
    ensures RoundInv(out, resolve, seeds, k + 1, visited, reached)
    ensures Followed(out, resolve, node, visited, reached)
    ensures visited0 <= visited && reached0 <= reached
    ensures next0 <= next && forall n :: n in visited && n !in visited0 ==> n in next
    ensures (forall n <- next :: n in next0 || n in visited) && (next == next0 ==> visited == visited0)
  {
    hide NodeWithin, TargetWithin;
    visited, reached, next := visited0, reached0, next0;
    var list := out(node);
    for j := 0 to |list|
      invariant RoundInv(out, resolve, seeds, k + 1, visited, reached)
      invariant visited0 <= visited && reached0 <= reached && next0 <= next
      invariant forall n :: n in visited && n !in visited0 ==> n in next
      invariant forall n <- next :: n in next0 || n in visited
      invariant next == next0 ==> visited == visited0
      invariant forall i :: 0 <= i < j ==> list[i] in reached && (resolve(list[i]).Some? ==> resolve(list[i]).value in visited)
    {
      var t := list[j];
      StepTarget(out, resolve, seeds, node, t, k);
      reached := reached + {t};
      var loc := resolve(t);
      if loc.Some? && loc.value !in visited {
        StepNode(out, resolve, seeds, t, loc.value, k + 1);
        visited := visited + {loc.value};
        next := next + [loc.value];
      }
    }
  }

  lemma FollowedStays(out: Adjacency, resolve: Resolve, m: nat, visited: set<nat>, reached: set<nat>, visited': set<nat>, reached': set<nat>)
    requires Followed(out, resolve, m, visited, reached) && visited <= visited' && reached <= reached'
    ensures Followed(out, resolve, m, visited', reached')
  {
  }

  /** One round: everything visited before it is followed after it. */
  method Round(out: Adjacency, resolve: Resolve, ghost seeds: seq<nat>, ghost k: nat, visited0: set<nat>, reached0: set<nat>, frontier: seq<nat>)
    returns (visited: set<nat>, reached: set<nat>, next: seq<nat>)
    requires RoundInv(out, resolve, seeds, k, visited0, reached0) && Swept(out, resolve, visited0, reached0, frontier)
    requires forall n <- frontier :: n in visited0
    ensures RoundInv(out, resolve, seeds, k + 1, visited, reached) && visited0 <= visited && reached0 <= reached
    ensures forall m <- visited0 :: Followed(out, resolve, m, visited, reached)
    ensures forall n :: n in visited && n !in visited0 ==> n in next
    ensures (forall n <- next :: n in visited) && (next == [] ==> visited == visited0)
  {
    hide Followed, NodeWithin, TargetWithin;
    RoundSound(out, resolve, seeds, k, visited0, reached0);
    visited, reached, next := visited0, reached0, [];
    for i := 0 to |frontier|
      invariant RoundInv(out, resolve, seeds, k + 1, visited, reached) && visited0 <= visited && reached0 <= reached
      invariant forall m <- visited0 :: m in frontier[i..] || Followed(out, resolve, m, visited, reached)
      invariant forall n :: n in visited && n !in visited0 ==> n in next
      invariant (forall n <- next :: n in visited) && (next == [] ==> visited == visited0)
    {
      var node := frontier[i];
      assert node in frontier;
      ghost var v, r := visited, reached;
      visited, reached, next := FollowNode(out, resolve, seeds, k, node, visited, reached, next);
      assert frontier[i..] == [node] + frontier[i + 1..];
      forall m | m in visited0
        ensures m in frontier[i + 1..] || Followed(out, resolve, m, visited, reached)
      {
        if m !in frontier[i + 1..] && m != node {
          FollowedStays(out, resolve, m, v, r, visited, reached);
        }
      }
    }
  }

  /** `traverse_forward`: exactly the targets at the end of some walk of 1 to `maxDepth` edges. */
  method TraverseForward(out: Adjacency, resolve: Resolve, seeds: seq<nat>, maxDepth: nat) returns (reached: set<nat>)
    ensures forall t: nat :: t in reached <==> TargetWithin(out, resolve, seeds, t, maxDepth)
  {
    hide NodeWithin, TargetWithin;
    var visited := set s <- seeds;
    reached := {};
    var frontier := seeds;
    StartComplete(out, resolve, seeds);
    for d := 0 to maxDepth
      invariant RoundInv(out, resolve, seeds, d, visited, reached) && Complete(out, resolve, seeds, d, visited, reached)
      invariant Swept(out, resolve, visited, reached, frontier) && forall n <- frontier :: n in visited
    {
      ghost var before := visited;
      var next;
      visited, reached, next := Round(out, resolve, seeds, d, visited, reached, frontier);
      RoundCompletes(out, resolve, seeds, d, before, visited, reached);
      if next == [] {
        ClosedCompletes(out, resolve, seeds, d + 1, maxDepth, visited, reached);
        RoundSoundTo(out, resolve, seeds, d + 1, maxDepth, visited, reached);
        break;
      }
      frontier := next;
    }
  }

  /** Adjacencies that agree everywhere have the same walks. */
  lemma {:induction false} SameWalks(a: Adjacency, b: Adjacency, resolve: Resolve, seeds: seq<nat>, t: nat, k: nat)
    requires forall m: nat :: a(m) == b(m)
    ensures TargetAt(a, resolve, seeds, t, k) <==> TargetAt(b, resolve, seeds, t, k)
    decreases k
  {
    if k > 0 {
      var j: nat := k - 1;
      if j > 0 {
        forall u: nat
          ensures TargetAt(a, resolve, seeds, u, j) <==> TargetAt(b, resolve, seeds, u, j)
        {
          SameWalks(a, b, resolve, seeds, u, j);
        }
      }
      assert forall m: nat :: NodeAt(a, resolve, seeds, m, j) <==> NodeAt(b, resolve, seeds, m, j);
    }
  }

  /** So traversal of one finds what traversal of the other finds. */
  lemma SameTargets(a: Adjacency, b: Adjacency, resolve: Resolve, seeds: seq<nat>, t: nat, depth: nat)
    requires forall m: nat :: a(m) == b(m)
    ensures TargetWithin(a, resolve, seeds, t, depth) <==> TargetWithin(b, resolve, seeds, t, depth)
  {
    forall k: nat
      ensures TargetAt(a, resolve, seeds, t, k) <==> TargetAt(b, resolve, seeds, t, k)
    {
      SameWalks(a, b, resolve, seeds, t, k);
    }
  }
}
