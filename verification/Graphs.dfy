/** Dependency graphs as adjacency maps: walks, cycles and the depth of a node.

    An edge runs from a task to a task it depends on.  A node that is not a key
    of the map has no outgoing edges, as `dict.get(node, [])` gives. */
module Graphs {

  type Graph<T> = map<T, seq<T>>

  function Succ<T(==)>(g: Graph<T>, n: T): seq<T> {
    if n in g then g[n] else []
  }

  predicate Edge<T(==)>(g: Graph<T>, n: T, s: T) {
    s in Succ(g, n)
  }

  ghost predicate Walk<T>(g: Graph<T>, w: seq<T>) {
    && |w| > 0
    && forall i, j {:trigger Edge(g, w[i], w[j])} :: 0 <= i && j == i + 1 < |w| ==> Edge(g, w[i], w[j])
  }

  ghost predicate WalkFrom<T>(g: Graph<T>, n: T, w: seq<T>) {
    Walk(g, w) && w[0] == n
  }

  /** A closed walk: at least one edge, and back where it started. */
  ghost predicate Cycle<T>(g: Graph<T>, w: seq<T>) {
    Walk(g, w) && |w| >= 2 && w[0] == w[|w| - 1]
  }

  ghost predicate Acyclic<T(!new)>(g: Graph<T>) {
    forall w: seq<T> :: !Cycle(g, w)
  }

  ghost predicate Distinct<T>(s: seq<T>) {
    forall i, j :: 0 <= i < j < |s| ==> s[i] != s[j]
  }

  /** `d` is the number of edges on a longest walk from `n`. */
  ghost predicate IsDepth<T(!new)>(g: Graph<T>, n: T, d: nat) {
    && (exists w: seq<T> :: WalkFrom(g, n, w) && |w| == d + 1)
    && (forall w: seq<T> :: WalkFrom(g, n, w) ==> |w| <= d + 1)
  }

  /** Every edge out of a ranked node leads to a node of smaller rank. */
  ghost predicate Ranked<T(!new)>(g: Graph<T>, rank: map<T, nat>) {
    forall n, s {:trigger Edge(g, n, s)} :: n in rank && Edge(g, n, s) ==> s in rank && rank[s] < rank[n]
  }

  lemma {:induction false} RankedWalkDescends<T(!new)>(g: Graph<T>, rank: map<T, nat>, w: seq<T>)
    requires Ranked(g, rank) && Walk(g, w) && w[0] in rank
    ensures w[|w| - 1] in rank && rank[w[|w| - 1]] + |w| - 1 <= rank[w[0]]
    decreases |w|
  {
    if |w| > 1 {
      assert Edge(g, w[0], w[1]);
      WalkSlice(g, w, 1, |w|);
      RankedWalkDescends(g, rank, w[1..]);
    }
  }

  lemma RankedIsAcyclic<T(!new)>(g: Graph<T>, rank: map<T, nat>)
    requires Ranked(g, rank) && g.Keys <= rank.Keys
    ensures Acyclic(g)
  {
    forall w | Cycle(g, w)
      ensures false
    {
      assert Edge(g, w[0], w[1]);
      RankedWalkDescends(g, rank, w);
    }
  }

  lemma WalkSlice<T>(g: Graph<T>, w: seq<T>, i: nat, j: nat)
    requires Walk(g, w) && i < j <= |w|
    ensures Walk(g, w[i..j])
  {
  }

  lemma WalkJoin<T>(g: Graph<T>, v: seq<T>, w: seq<T>)
    requires Walk(g, v) && Walk(g, w) && Edge(g, v[|v| - 1], w[0])
    ensures Walk(g, v + w)
  {
  }

  lemma AcyclicWalkIsDistinct<T(!new)>(g: Graph<T>, w: seq<T>)
    requires Acyclic(g) && Walk(g, w)
    ensures Distinct(w)
  {
    forall i, j | 0 <= i < j < |w|
      ensures w[i] != w[j]
    {
      WalkSlice(g, w, i, j + 1);
      assert !Cycle(g, w[i..j + 1]);
    }
  }

  lemma {:induction false} Pigeonhole<T>(w: seq<T>, s: set<T>)
    requires Distinct(w) && forall x :: x in w ==> x in s
    ensures |w| <= |s|
    decreases |w|
  {
    if w == [] {
    } else {
      var x := w[0];
      forall y | y in w[1..]
        ensures y in s - {x}
      {
      }
      Pigeonhole(w[1..], s - {x});
    }
  }

  /** Every node of a walk but the last is a key, since it has an outgoing edge. */
  lemma WalkInKeys<T>(g: Graph<T>, w: seq<T>)
    requires Walk(g, w)
    ensures forall i :: 0 <= i < |w| - 1 ==> w[i] in g
  {
    forall i | 0 <= i < |w| - 1
      ensures w[i] in g
    {
      assert Edge(g, w[i], w[i + 1]);
    }
  }

  lemma DistinctWalkIsShort<T(!new)>(g: Graph<T>, w: seq<T>)
    requires Walk(g, w) && Distinct(w)
    ensures |w| <= |g| + 1
  {
    WalkInKeys(g, w);
    var v := w[..|w| - 1];
    forall x | x in v
      ensures x in g.Keys
    {
      var i :| 0 <= i < |v| && v[i] == x;
      assert w[i] in g;
    }
    Pigeonhole(v, g.Keys);
  }

  lemma {:induction false} BoundedWalksHaveDepth<T(!new)>(g: Graph<T>, n: T, bound: nat)
    requires forall w: seq<T> :: WalkFrom(g, n, w) ==> |w| <= bound + 1
    ensures exists d: nat :: IsDepth(g, n, d)
  {
    if exists w: seq<T> :: WalkFrom(g, n, w) && |w| == bound + 1 {
      assert IsDepth(g, n, bound);
    } else {
      assert WalkFrom(g, n, [n]);
      BoundedWalksHaveDepth(g, n, bound - 1);
    }
  }

  lemma DepthExists<T(!new)>(g: Graph<T>, n: T)
    requires Acyclic(g)
    ensures exists d: nat :: IsDepth(g, n, d)
  {
    forall w: seq<T> | WalkFrom(g, n, w)
      ensures |w| <= |g| + 1
    {
      AcyclicWalkIsDistinct(g, w);
      DistinctWalkIsShort(g, w);
    }
    BoundedWalksHaveDepth(g, n, |g|);
  }

  /** The number of edges on a longest walk from `n`. */
  ghost function Depth<T(!new)>(g: Graph<T>, n: T): (d: nat)
    requires Acyclic(g)
    ensures IsDepth(g, n, d)
  {
    DepthExists(g, n);
    var d: nat :| IsDepth(g, n, d);
    d
  }

  lemma LongestWalk<T(!new)>(g: Graph<T>, n: T) returns (w: seq<T>)
    requires Acyclic(g)
    ensures WalkFrom(g, n, w) && |w| == Depth(g, n) + 1
  {
    var d := Depth(g, n);
    w :| WalkFrom(g, n, w) && |w| == d + 1;
  }

  lemma DepthDecreases<T(!new)>(g: Graph<T>, n: T, s: T)
    requires Acyclic(g) && Edge(g, n, s)
    ensures Depth(g, s) < Depth(g, n)
  {
    var w := LongestWalk(g, s);
    WalkJoin(g, [n], w);
    assert WalkFrom(g, n, [n] + w);
  }

  lemma DeepestSuccessor<T(!new)>(g: Graph<T>, n: T) returns (s: T)
    requires Acyclic(g) && Depth(g, n) > 0
    ensures Edge(g, n, s) && Depth(g, n) == Depth(g, s) + 1
  {
    var w := LongestWalk(g, n);
    s := w[1];
    assert Edge(g, w[0], w[1]);
    WalkSlice(g, w, 1, |w|);
    assert WalkFrom(g, s, w[1..]);
    DepthDecreases(g, n, s);
  }

  /** Depth obeys the recursion the memoised function computes. */
  lemma DepthRecursion<T(!new)>(g: Graph<T>, n: T, deepest: nat)
    requires Acyclic(g)
    requires forall s :: Edge(g, n, s) ==> Depth(g, s) <= deepest
    requires exists s :: Edge(g, n, s) && Depth(g, s) == deepest
    ensures Depth(g, n) == 1 + deepest
  {
    var s :| Edge(g, n, s) && Depth(g, s) == deepest;
    DepthDecreases(g, n, s);
    var t := DeepestSuccessor(g, n);
  }

  lemma DepthOfLeaf<T(!new)>(g: Graph<T>, n: T)
    requires Acyclic(g)
    ensures Succ(g, n) == [] <==> Depth(g, n) == 0
  {
    if Succ(g, n) != [] {
      assert Edge(g, n, Succ(g, n)[0]);
      DepthDecreases(g, n, Succ(g, n)[0]);
    } else if Depth(g, n) > 0 {
      var s := DeepestSuccessor(g, n);
    }
  }

  /** When every edge leads to a key, a longest walk visits keys only. */
  lemma ClosedGraphIsShallow<T(!new)>(g: Graph<T>, n: T)
    requires Acyclic(g) && n in g
    requires forall m, s :: Edge(g, m, s) ==> s in g
    ensures Depth(g, n) < |g|
  {
    var w := LongestWalk(g, n);
    AcyclicWalkIsDistinct(g, w);
    forall x | x in w
      ensures x in g.Keys
    {
      var i :| 0 <= i < |w| && w[i] == x;
      if i > 0 {
        assert Edge(g, w[i - 1], w[i]);
      }
    }
    Pigeonhole(w, g.Keys);
  }

  /** The walk ends on a node it has visited before. */
  ghost predicate Laps<T>(w: seq<T>) {
    exists i :: 0 <= i < |w| - 1 && w[i] == w[|w| - 1]
  }

  ghost predicate ReachesCycle<T(!new)>(g: Graph<T>, n: T) {
    exists w: seq<T> :: WalkFrom(g, n, w) && Laps(w)
  }

  lemma {:induction false} LappingWalksAreUnbounded<T(!new)>(g: Graph<T>, n: T, w: seq<T>, bound: nat)
    requires WalkFrom(g, n, w) && Laps(w)
    ensures exists v: seq<T> :: WalkFrom(g, n, v) && |v| > bound
    decreases bound - |w|
  {
    if |w| <= bound {
      var i :| 0 <= i < |w| - 1 && w[i] == w[|w| - 1];
      WalkSlice(g, w, i + 1, |w|);
      assert Edge(g, w[i], w[i + 1]);
      var lap := w[i + 1..|w|];
      WalkJoin(g, w, lap);
      var v := w + lap;
      assert v[i] == v[|v| - 1];
      LappingWalksAreUnbounded(g, n, v, bound);
    }
  }

  lemma NoLapIsDistinct<T(!new)>(g: Graph<T>, n: T, w: seq<T>)
    requires !ReachesCycle(g, n) && WalkFrom(g, n, w)
    ensures Distinct(w)
  {
    forall i, j | 0 <= i < j < |w|
      ensures w[i] != w[j]
    {
      var v := w[0..j + 1];
      WalkSlice(g, w, 0, j + 1);
      assert WalkFrom(g, n, v) && v[i] == w[i] && v[|v| - 1] == w[j];
    }
  }

  /** The recursion that measures depth has an answer exactly when no cycle can
      be reached; on a cycle it would never end. */
  lemma DepthDefinedIffNoCycle<T(!new)>(g: Graph<T>, n: T)
    ensures (exists d: nat :: IsDepth(g, n, d)) <==> !ReachesCycle(g, n)
  {
    if ReachesCycle(g, n) {
      var w :| WalkFrom(g, n, w) && Laps(w);
      forall d: nat
        ensures !IsDepth(g, n, d)
      {
        LappingWalksAreUnbounded(g, n, w, d + 1);
      }
    } else {
      forall w: seq<T> | WalkFrom(g, n, w)
        ensures |w| <= |g| + 1
      {
        NoLapIsDistinct(g, n, w);
        DistinctWalkIsShort(g, w);
      }
      BoundedWalksHaveDepth(g, n, |g|);
    }
  }

  /** A cycle can be reached from a node on it, and reaching one means there is one. */
  lemma AcyclicIffNoneReached<T(!new)>(g: Graph<T>)
    ensures Acyclic(g) <==> forall n :: n in g ==> !ReachesCycle(g, n)
  {
    if Acyclic(g) {
      forall n, w | WalkFrom(g, n, w)
        ensures !Laps(w)
      {
        AcyclicWalkIsDistinct(g, w);
      }
    } else {
      var w :| Cycle(g, w);
      assert Edge(g, w[0], w[1]);
      assert WalkFrom(g, w[0], w) && Laps(w);
    }
  }
}
