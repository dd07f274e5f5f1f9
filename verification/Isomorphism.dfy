/** Renaming the nodes of a graph without confusing any two of them. */
module Isomorphism {
  import opened Graphs

  function Image<T>(f: T -> T, w: seq<T>): (v: seq<T>)
    ensures |v| == |w| && forall i :: 0 <= i < |v| ==> v[i] == f(w[i])
  {
    seq(|w|, i requires 0 <= i < |w| => f(w[i]))
  }

  /** `f` carries the edges of `g` among `nodes` onto the edges of `h`. */
  ghost predicate Isomorphic<T(!new)>(g: Graph<T>, h: Graph<T>, nodes: set<T>, f: T -> T) {
    && (forall n, s {:trigger Edge(g, n, s)} :: Edge(g, n, s) ==> n in nodes && s in nodes && Edge(h, f(n), f(s)))
    && (forall m, b {:trigger Edge(h, m, b)} :: Edge(h, m, b) ==> exists n :: n in nodes && m == f(n))
    && (forall n, b {:trigger Edge(h, f(n), b)} :: n in nodes && Edge(h, f(n), b) ==>
      exists s :: Edge(g, n, s) && b == f(s))
    && (forall a, b :: a in nodes && b in nodes && f(a) == f(b) ==> a == b)
  }

  lemma WalkCommutes<T(!new)>(g: Graph<T>, h: Graph<T>, nodes: set<T>, f: T -> T, w: seq<T>)
    requires Isomorphic(g, h, nodes, f) && Walk(g, w)
    ensures Walk(h, Image(f, w))
  {
    var v := Image(f, w);
    forall i, j | 0 <= i && j == i + 1 < |v|
      ensures Edge(h, v[i], v[j])
    {
      assert Edge(g, w[i], w[j]);
    }
  }

  /** Every edge out of an image is the image of an edge among the nodes. */
  ghost predicate Lifting<T(!new)>(g: Graph<T>, h: Graph<T>, nodes: set<T>, f: T -> T) {
    forall n, b {:trigger Edge(h, f(n), b)} :: n in nodes && Edge(h, f(n), b) ==>
      exists s :: s in nodes && Edge(g, n, s) && b == f(s)
  }

  lemma IsomorphicLifts<T(!new)>(g: Graph<T>, h: Graph<T>, nodes: set<T>, f: T -> T)
    requires Isomorphic(g, h, nodes, f)
    ensures Lifting(g, h, nodes, f)
  {
    forall n, b | n in nodes && Edge(h, f(n), b)
      ensures exists s :: s in nodes && Edge(g, n, s) && b == f(s)
    {
      var s :| Edge(g, n, s) && b == f(s);
      assert s in nodes;
    }
  }

  lemma WalkFromEdge<T>(g: Graph<T>, n: T, rest: seq<T>)
    requires Walk(g, rest) && Edge(g, n, rest[0])
    ensures WalkFrom(g, n, [n] + rest)
  {
    assert Walk(g, [n]);
    WalkJoin(g, [n], rest);
  }

  lemma ImagePrepend<T>(f: T -> T, n: T, rest: seq<T>, v: seq<T>)
    requires v != [] && v[0] == f(n) && v[1..] == Image(f, rest)
    ensures v == Image(f, [n] + rest)
  {
    assert v == [v[0]] + v[1..];
  }

  /** Every walk of `h` from an image is the image of a walk of `g`. */
  lemma {:induction false} WalkLifts<T(!new)>(g: Graph<T>, h: Graph<T>, nodes: set<T>, f: T -> T, n: T, v: seq<T>)
    returns (w: seq<T>)
    requires Lifting(g, h, nodes, f) && n in nodes && WalkFrom(h, f(n), v)
    ensures WalkFrom(g, n, w) && v == Image(f, w) && w[|w| - 1] in nodes
    decreases |v|
  {
    if |v| == 1 {
      w := [n];
    } else {
      assert Edge(h, f(n), v[1]);
      var s :| s in nodes && Edge(g, n, s) && v[1] == f(s);
      WalkSlice(h, v, 1, |v|);
      assert v[1..|v|] == v[1..];
      var rest := WalkLifts(g, h, nodes, f, s, v[1..]);
      WalkFromEdge(g, n, rest);
      ImagePrepend(f, n, rest, v);
      w := [n] + rest;
    }
  }

  lemma CyclesCorrespond<T(!new)>(g: Graph<T>, h: Graph<T>, nodes: set<T>, f: T -> T, v: seq<T>)
    requires Isomorphic(g, h, nodes, f)
    ensures Cycle(h, v) <==> exists w :: Cycle(g, w) && v == Image(f, w)
  {
    if Cycle(h, v) {
      assert Edge(h, v[0], v[1]);
      var n :| n in nodes && v[0] == f(n);
      IsomorphicLifts(g, h, nodes, f);
      var w := WalkLifts(g, h, nodes, f, n, v);
      assert Cycle(g, w);
    }
    forall w | Cycle(g, w) && v == Image(f, w)
      ensures Cycle(h, v)
    {
      WalkCommutes(g, h, nodes, f, w);
    }
  }

  lemma AcyclicityPreserved<T(!new)>(g: Graph<T>, h: Graph<T>, nodes: set<T>, f: T -> T)
    requires Isomorphic(g, h, nodes, f)
    ensures Acyclic(h) <==> Acyclic(g)
  {
    if w :| Cycle(g, w) {
      CyclesCorrespond(g, h, nodes, f, Image(f, w));
    } else if v :| Cycle(h, v) {
      CyclesCorrespond(g, h, nodes, f, v);
    }
  }

  lemma DepthPreserved<T(!new)>(g: Graph<T>, h: Graph<T>, nodes: set<T>, f: T -> T, n: T, d: nat)
    requires Isomorphic(g, h, nodes, f) && n in nodes
    ensures IsDepth(h, f(n), d) <==> IsDepth(g, n, d)
  {
    forall w | WalkFrom(g, n, w)
      ensures WalkFrom(h, f(n), Image(f, w))
    {
      WalkCommutes(g, h, nodes, f, w);
    }
    IsomorphicLifts(g, h, nodes, f);
    forall v | WalkFrom(h, f(n), v)
      ensures exists w :: WalkFrom(g, n, w) && |w| == |v|
    {
      var w := WalkLifts(g, h, nodes, f, n, v);
    }
  }
}
