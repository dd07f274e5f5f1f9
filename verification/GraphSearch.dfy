/** The two recursive searches of the plan validator, over any node type. */
module GraphSearch {
  import opened Graphs
  import opened Wrappers

  /** Every node the depth-first search can meet. */
  ghost function Nodes<T(!new)>(g: Graph<T>): set<T> {
    g.Keys + (set n, s | n in g && s in g[n] :: s)
  }

  /** Python's `list.index`. */
  method IndexOf<T(==)>(s: seq<T>, x: T) returns (i: nat)
    requires x in s
    ensures i < |s| && s[i] == x && forall j :: 0 <= j < i ==> s[j] != x
  {
    i := 0;
    while s[i] != x
      invariant i < |s| && forall j :: 0 <= j < i ==> s[j] != x
      decreases |s| - i
    {
      i := i + 1;
    }
  }

  function Elements<T(==)>(s: seq<T>): set<T> {
    if s == [] then {} else Elements(s[..|s| - 1]) + {s[|s| - 1]}
  }

  /** A walk without repetition, growing and shrinking at its end. */
  ghost predicate Trail<T>(g: Graph<T>, path: seq<T>) {
    path == [] ||
    var front, last := path[..|path| - 1], path[|path| - 1];
    && Trail(g, front)
    && last !in Elements(front)
    && (front == [] || Edge(g, front[|front| - 1], last))
  }

  /** What the search leaves behind when it meets a node still on its stack. */
  ghost predicate ClosesOnItself<T>(g: Graph<T>, path: seq<T>) {
    && |path| >= 2
    && var front, last := path[..|path| - 1], path[|path| - 1];
    && Trail(g, front)
    && last in Elements(front)
    && Edge(g, front[|front| - 1], last)
  }

  /** What the search keeps: the path is a trail listing exactly the recursion
      stack, and every edge out of a finished node leads to a node that
      finished before it. */
  ghost predicate Consistent<T(!new)>(g: Graph<T>, visited: set<T>, recStack: set<T>, path: seq<T>, finished: map<T, nat>, clock: nat) {
    && Trail(g, path)
    && recStack == Elements(path)
    && (forall n :: n in visited <==> n in recStack || n in finished)
    && (forall n :: n in recStack ==> n !in finished)
    && Ranked(g, finished)
    && forall n {:trigger finished[n]} :: n in finished ==> finished[n] < clock
  }

  lemma Leave<T(!new)>(g: Graph<T>, finished: map<T, nat>, clock: nat, n: T)
    requires Ranked(g, finished) && n !in finished
    requires forall m {:trigger finished[m]} :: m in finished ==> finished[m] < clock
    requires forall s :: Edge(g, n, s) ==> s in finished
    ensures
      var left := finished[n := clock];
      Ranked(g, left) && forall m {:trigger left[m]} :: m in left ==> left[m] < clock + 1
  {
  }

  lemma {:induction false} TrailIsDistinctWalk<T>(g: Graph<T>, path: seq<T>)
    requires Trail(g, path)
    ensures Distinct(path)
    ensures path == [] || Walk(g, path)
    ensures forall n :: n in Elements(path) <==> n in path
  {
    if path == [] {
    } else {
      var front, last := path[..|path| - 1], path[|path| - 1];
      assert path == front + [last];
      TrailIsDistinctWalk(g, front);
      if front == [] {
        assert path == [last];
      } else {
        WalkJoin(g, front, [last]);
      }
    }
  }

  /** The state the nested function `dfs` shares with its caller. */
  class CycleSearch<T(==,!new)> {
    const graph: Graph<T>
    var visited: set<T>
    var recStack: set<T>
    var path: seq<T>
    /** Nodes the search has left, numbered in the order it left them. */
    ghost var finished: map<T, nat>
    ghost var clock: nat

    ghost predicate Valid()
      reads this
    {
      Consistent(graph, visited, recStack, path, finished, clock)
    }

    constructor (graph: Graph<T>)
      ensures Valid() && this.graph == graph && path == [] && visited == {}
    {
      this.graph := graph;
      visited, recStack, path := {}, {}, [];
      finished, clock := map[], 0;
    }

    method Push(node: T)
      requires Valid() && node !in visited
      requires path == [] || Edge(graph, path[|path| - 1], node)
      modifies this
      ensures Valid() && finished == old(finished)
      ensures visited == old(visited) + {node} && path == old(path) + [node]
    {
      visited := visited + {node};
      recStack := recStack + {node};
      path := path + [node];
      assert path[..|path| - 1] == old(path);
    }

    method Pop(node: T)
      requires Valid() && path != [] && path[|path| - 1] == node
      requires forall s :: Edge(graph, node, s) ==> s in finished
      modifies this
      ensures Valid() && forall n :: n in old(finished) || n == node ==> n in finished
      ensures visited == old(visited) && path == old(path)[..|old(path)| - 1]
    {
      Leave(graph, finished, clock, node);
      path := path[..|path| - 1];
      recStack := recStack - {node};
      finished, clock := finished[node := clock], clock + 1;
    }

    method Close(node: T)
      requires Valid() && node in recStack && path != [] && Edge(graph, path[|path| - 1], node)
      modifies this
      ensures ClosesOnItself(graph, path)
    {
      path := path + [node];
      assert path[..|path| - 1] == old(path);
    }

    /** Leaving `node` finishes everything reachable from it; stopping early
        leaves a path that closes on itself. */
    method Dfs(node: T) returns (found: bool)
      requires Valid() && node in Nodes(graph) && node !in visited
      requires path == [] || Edge(graph, path[|path| - 1], node)
      modifies this
      ensures found ==> ClosesOnItself(graph, path)
      ensures !found ==> Valid() && path == old(path) && old(visited) <= visited
      ensures !found ==> forall n :: n in old(finished) || n == node ==> n in finished
      decreases Nodes(graph) - visited, 0
    {
      Push(node);
      var neighbors := Succ(graph, node);
      ghost var trail, start := path, visited;
      for i := 0 to |neighbors|
        invariant Valid() && path == trail && start <= visited
        invariant forall n :: n in old(finished) ==> n in finished
        invariant forall j :: 0 <= j < i ==> neighbors[j] in finished
      {
        assert Edge(graph, node, neighbors[i]);
        found := Visit(neighbors[i]);
        if found {
          return;
        }
      }
      Pop(node);
      assert path == old(path);
      found := false;
    }

    /** The body of the loop over the neighbors of the last node of the path. */
    method Visit(neighbor: T) returns (found: bool)
      requires Valid() && path != [] && Edge(graph, path[|path| - 1], neighbor)
      modifies this
      ensures found ==> ClosesOnItself(graph, path)
      ensures !found ==> Valid() && path == old(path) && old(visited) <= visited
      ensures !found ==> forall n :: n in old(finished) || n == neighbor ==> n in finished
      decreases Nodes(graph) - visited, 1
    {
      found := false;
      if neighbor !in visited {
        found := Dfs(neighbor);
      } else if neighbor in recStack {
        Close(neighbor);
        found := true;
      }
    }
  }

  /** Cut at the first occurrence of its last node, a path that closes on
      itself is a simple cycle. */
  lemma ClosingPathHoldsCycle<T>(g: Graph<T>, path: seq<T>, k: nat)
    requires ClosesOnItself(g, path)
    requires k < |path| && path[k] == path[|path| - 1] && forall j :: 0 <= j < k ==> path[j] != path[k]
    ensures Cycle(g, path[k..]) && Distinct(path[k + 1..])
  {
    var front, last := path[..|path| - 1], path[|path| - 1];
    TrailIsDistinctWalk(g, front);
    CutTrail(g, front, last, k);
    assert path[k..] == front[k..] + [last];
    assert path[k + 1..] == front[k + 1..] + [last];
  }

  lemma CutTrail<T>(g: Graph<T>, front: seq<T>, last: T, k: nat)
    requires front != [] && Walk(g, front) && Distinct(front) && Edge(g, front[|front| - 1], last)
    requires last in front
    requires forall j :: 0 <= j < k && j < |front| ==> front[j] != last
    requires k < |front| ==> front[k] == last
    ensures k < |front|
    ensures Cycle(g, front[k..] + [last]) && Distinct(front[k + 1..] + [last])
  {
  }

  /** None exactly when the graph is acyclic; otherwise a genuine simple cycle. */
  method FindCycle<T(==,!new)>(graph: Graph<T>, order: seq<T>) returns (cycle: Option<seq<T>>)
    requires forall n :: n in graph <==> n in order
    ensures cycle.None? <==> Acyclic(graph)
    ensures cycle.Some? ==> Cycle(graph, cycle.value) && Distinct(cycle.value[1..])
  {
    var search := new CycleSearch(graph);
    for k := 0 to |order|
      invariant search.Valid() && search.graph == graph && search.path == []
      invariant forall j :: 0 <= j < k ==> order[j] in search.visited
    {
      if order[k] !in search.visited {
        ghost var before := search.visited;
        var hit := search.Dfs(order[k]);
        if hit {
          var path := search.path;
          var cycleIdx := IndexOf(path, path[|path| - 1]);
          ClosingPathHoldsCycle(graph, path, cycleIdx);
          assert path[cycleIdx..][1..] == path[cycleIdx + 1..];
          return Some(path[cycleIdx..]);
        }
        assert before <= search.visited;
      }
    }
    assert forall n :: n in search.recStack ==> n in Elements([]);
    RankedIsAcyclic(graph, search.finished);
    return None;
  }

  /** The state the nested function `depth` shares with its caller. */
  class DepthSearch<T(==,!new)> {
    const depMap: Graph<T>
    var cache: map<T, nat>

    ghost predicate Valid()
      reads this
    {
      && Acyclic(depMap)
      && forall n :: n in cache ==> cache[n] == Depth(depMap, n)
    }

    constructor (depMap: Graph<T>)
      requires Acyclic(depMap)
      ensures Valid() && this.depMap == depMap
    {
      this.depMap := depMap;
      cache := map[];
    }

    method DepthOf(id: T) returns (d: nat)
      requires Valid()
      modifies this
      ensures Valid() && d == Depth(depMap, id)
      ensures old(cache).Keys <= cache.Keys && id in cache
      decreases Depth(depMap, id)
    {
      if id in cache {
        return cache[id];
      }
      var deps := Succ(depMap, id);
      DepthOfLeaf(depMap, id);
      if deps == [] {
        cache := cache[id := 0];
        return 0;
      }
      var deepest := 0;
      for i := 0 to |deps|
        invariant Valid() && old(cache).Keys <= cache.Keys
        invariant forall j :: 0 <= j < i ==> Depth(depMap, deps[j]) <= deepest
        invariant i > 0 ==> exists j :: 0 <= j < i && Depth(depMap, deps[j]) == deepest
      {
        assert Edge(depMap, id, deps[i]);
        DepthDecreases(depMap, id, deps[i]);
        var e := DepthOf(deps[i]);
        if i == 0 || e > deepest {
          deepest := e;
        }
      }
      assert forall e :: Edge(depMap, id, e) ==> e in deps;
      DepthRecursion(depMap, id, deepest);
      d := 1 + deepest;
      cache := cache[id := d];
    }
  }
}
