/** The set of nodes obtained by repeatedly adding every node whose successors
    are all there, and which nodes that never reaches. */
module Fixpoints {
  import opened Graphs

  ghost predicate ClosedUnder<T>(g: Graph<T>, x: set<T>) {
    forall n :: n in g && (forall s :: s in g[n] ==> s in x) ==> n in x
  }

  ghost predicate LeastClosed<T(!new)>(g: Graph<T>, have: set<T>, c: set<T>) {
    && have <= c
    && ClosedUnder(g, c)
    && forall x: set<T> :: have <= x && ClosedUnder(g, x) ==> c <= x
  }

  /** A walk from `n` comes to a node that is neither a key nor given. */
  ghost predicate ReachesUnknown<T(!new)>(g: Graph<T>, have: set<T>, n: T) {
    exists w: seq<T> :: WalkFrom(g, n, w) && w[|w| - 1] !in g && w[|w| - 1] !in have
  }

  ghost predicate Blocked<T(!new)>(g: Graph<T>, have: set<T>, n: T) {
    ReachesCycle(g, n) || ReachesUnknown(g, have, n)
  }

  /** A blocked key has a blocked successor, or one that is not there at all. */
  lemma BlockedSuccessor<T(!new)>(g: Graph<T>, have: set<T>, n: T) returns (s: T)
    requires n in g && have !! g.Keys && Blocked(g, have, n)
    ensures s in g[n] && s !in have && (s in g ==> Blocked(g, have, s))
  {
    if ReachesCycle(g, n) {
      var w :| WalkFrom(g, n, w) && Laps(w);
      s := w[1];
      assert Edge(g, w[0], w[1]);
      var v := LapFromSecond(g, w);
      assert Edge(g, v[0], v[1]);
    } else {
      var w :| WalkFrom(g, n, w) && w[|w| - 1] !in g && w[|w| - 1] !in have;
      s := w[1];
      assert Edge(g, w[0], w[1]);
      WalkSlice(g, w, 1, |w|);
      var v := w[1..|w|];
      assert WalkFrom(g, s, v) && v[|v| - 1] == w[|w| - 1];
      if |v| > 1 {
        assert Edge(g, v[0], v[1]);
      }
    }
  }

  lemma LapFromSecond<T(!new)>(g: Graph<T>, w: seq<T>) returns (v: seq<T>)
    requires Walk(g, w) && Laps(w)
    ensures WalkFrom(g, w[1], v) && Laps(v)
  {
    var i :| 0 <= i < |w| - 1 && w[i] == w[|w| - 1];
    WalkSlice(g, w, 1, |w|);
    v := w[1..|w|];
    if i == 0 {
      assert Edge(g, w[0], w[1]);
      assert Walk(g, [w[1]]);
      WalkJoin(g, v, [w[1]]);
      v := v + [w[1]];
      assert v[0] == v[|v| - 1];
    } else {
      assert v[i - 1] == v[|v| - 1];
    }
  }

  lemma UnblockedIsClosed<T(!new)>(g: Graph<T>, have: set<T>)
    requires have !! g.Keys
    ensures ClosedUnder(g, have + set n | n in g && !Blocked(g, have, n))
  {
    var x := have + set n | n in g && !Blocked(g, have, n);
    forall n | n in g && Blocked(g, have, n)
      ensures exists s :: s in g[n] && s !in x
    {
      var s := BlockedSuccessor(g, have, n);
    }
  }

  /** Following successors outside `c` runs into a cycle or an unknown node. */
  lemma {:induction false} OutsideIsBlocked<T(!new)>(g: Graph<T>, have: set<T>, c: set<T>, n: T, w: seq<T>)
    requires have <= c && ClosedUnder(g, c)
    requires WalkFrom(g, n, w) && Distinct(w)
    requires forall x :: x in w ==> x in g && x !in c
    ensures Blocked(g, have, n)
    decreases |g| - |w|
  {
    Pigeonhole(w, g.Keys);
    var last := w[|w| - 1];
    assert last in w;
    var s :| s in g[last] && s !in c;
    assert Edge(g, last, s);
    WalkJoin(g, w, [s]);
    var v := w + [s];
    assert WalkFrom(g, n, v) && v[|v| - 1] == s;
    if s in g {
      if s in w {
        var i :| 0 <= i < |w| && w[i] == s;
        assert v[i] == v[|v| - 1];
        assert Laps(v);
      } else {
        Pigeonhole(v, g.Keys);
        OutsideIsBlocked(g, have, c, n, v);
      }
    }
  }

  lemma LeftOutIffBlocked<T(!new)>(g: Graph<T>, have: set<T>, c: set<T>, n: T)
    requires have !! g.Keys && LeastClosed(g, have, c) && n in g
    ensures n !in c <==> Blocked(g, have, n)
  {
    if Blocked(g, have, n) {
      UnblockedIsClosed(g, have);
      var x := have + set m | m in g && !Blocked(g, have, m);
      assert c <= x;
      assert n !in x;
    } else if n !in c {
      OutsideIsBlocked(g, have, c, n, [n]);
    }
  }
}
