/** Making task ids unique to a plan by a prefix (`agents/nodes.py`, planning). */
module Prefixing {
  import opened Graphs
  import opened Isomorphism
  import opened Plans

  function Prefix(uuid: string, id: TaskId): TaskId {
    uuid + "_" + id
  }

  /** `id_mapping.get(dep, dep)`: an id of the plan is prefixed, any other kept. */
  function Rename(uuid: string, ids: set<TaskId>, id: TaskId): TaskId {
    if id in ids then Prefix(uuid, id) else id
  }

  function RenameAll(uuid: string, ids: set<TaskId>, deps: seq<TaskId>): (r: seq<TaskId>)
    ensures |r| == |deps| && forall i :: 0 <= i < |r| ==> r[i] == Rename(uuid, ids, deps[i])
  {
    seq(|deps|, i requires 0 <= i < |deps| => Rename(uuid, ids, deps[i]))
  }

  function PrefixTask(uuid: string, ids: set<TaskId>, t: Task): Task {
    t.(id := Prefix(uuid, t.id), dependencies := RenameAll(uuid, ids, t.dependencies))
  }

  function PrefixedWith(uuid: string, ids: set<TaskId>, tasks: seq<Task>): (r: seq<Task>)
    ensures |r| == |tasks| && forall i :: 0 <= i < |r| ==> r[i] == PrefixTask(uuid, ids, tasks[i])
  {
    seq(|tasks|, i requires 0 <= i < |tasks| => PrefixTask(uuid, ids, tasks[i]))
  }

  function Prefixed(uuid: string, tasks: seq<Task>): seq<Task> {
    PrefixedWith(uuid, Ids(tasks), tasks)
  }

  /** `plan_id.replace("plan_", "")` */
  function WithoutPlan(planId: string): string {
    if |planId| >= 5 && planId[..5] == "plan_" then WithoutPlan(planId[5..])
    else if planId == "" then ""
    else [planId[0]] + WithoutPlan(planId[1..])
  }

  function PlanUuid(planId: string): string {
    var s := WithoutPlan(planId);
    if |s| <= 8 then s else s[..8]
  }

  /** "plan_" starts at position `i`. */
  predicate PlanAt(s: string, i: nat) {
    i + 5 <= |s| && s[i..i + 5] == "plan_"
  }

  lemma PlanAtShift(s: string, i: nat)
    requires s != ""
    ensures PlanAt(s[1..], i) == PlanAt(s, i + 1)
  {
    if i + 6 <= |s| {
      assert s[1..][i..i + 5] == s[i + 1..i + 6];
    }
  }

  /** The first "plan_" is taken out, and so are those after it. */
  lemma {:induction false} FirstPlanIsTakenOut(s: string, at: nat)
    requires at <= |s| && forall i: nat :: i < at ==> !PlanAt(s, i)
    ensures at == |s| ==> WithoutPlan(s) == s
    ensures PlanAt(s, at) ==> WithoutPlan(s) == s[..at] + WithoutPlan(s[at + 5..])
    decreases at
  {
    if at == 0 {
      if PlanAt(s, 0) {
        assert s[..5] == s[0..5];
        assert s[..0] + WithoutPlan(s[5..]) == WithoutPlan(s[5..]);
      }
    } else {
      assert !PlanAt(s, 0);
      FirstCharStays(s);
      NonePlanBehind(s, at);
      FirstPlanIsTakenOut(s[1..], at - 1);
      PlanAtShift(s, at - 1);
      if PlanAt(s, at) {
        assert s[1..][at - 1 + 5..] == s[at + 5..];
        assert s[..at] == [s[0]] + s[1..][..at - 1];
      }
    }
  }

  lemma FirstCharStays(s: string)
    requires s != "" && !PlanAt(s, 0)
    ensures WithoutPlan(s) == [s[0]] + WithoutPlan(s[1..])
  {
    assert |s| >= 5 ==> s[..5] == s[0..5];
  }

  lemma NonePlanBehind(s: string, at: nat)
    requires 0 < at <= |s| && forall i: nat :: i < at ==> !PlanAt(s, i)
    ensures forall i: nat :: i < at - 1 ==> !PlanAt(s[1..], i)
  {
    forall i: nat | i < at - 1
      ensures !PlanAt(s[1..], i)
    {
      PlanAtShift(s, i);
    }
  }

  /** The prefix of a plan: the first eight characters of what follows "plan_". */
  lemma PlanUuidOf(u: string)
    requires forall i: nat :: i < |u| ==> !PlanAt(u, i)
    ensures PlanUuid("plan_" + u) == PlanUuid(u) == if |u| <= 8 then u else u[..8]
  {
    var s := "plan_" + u;
    FirstPlanIsTakenOut(u, |u|);
    assert s[0..5] == "plan_" && s[5..] == u;
    assert PlanAt(s, 0);
    FirstPlanIsTakenOut(s, 0);
    assert s[..0] + u == u;
  }

  ghost predicate MapsIds(uuid: string, tasks: seq<Task>, idMapping: map<TaskId, TaskId>) {
    && (forall id :: id in idMapping <==> id in Ids(tasks))
    && (forall id :: id in idMapping ==> idMapping[id] == Prefix(uuid, id))
  }

  lemma MapsOneMore(uuid: string, tasks: seq<Task>, k: nat, m: map<TaskId, TaskId>)
    requires k < |tasks| && MapsIds(uuid, tasks[..k], m)
    ensures MapsIds(uuid, tasks[..k + 1], m[tasks[k].id := Prefix(uuid, tasks[k].id)])
  {
    assert tasks[..k + 1] == tasks[..k] + [tasks[k]];
  }

  function WithPrefix(uuid: string, t: Task): Task {
    t.(id := Prefix(uuid, t.id))
  }

  /** The first loop over the plan's tasks, which are changed in place. */
  method PrefixIds(uuid: string, tasks: array<Task>) returns (idMapping: map<TaskId, TaskId>)
    modifies tasks
    ensures MapsIds(uuid, old(tasks[..]), idMapping)
    ensures forall j :: 0 <= j < tasks.Length ==> tasks[j] == WithPrefix(uuid, old(tasks[j]))
  {
    ghost var before := tasks[..];
    idMapping := map[];
    for k := 0 to tasks.Length
      invariant MapsIds(uuid, before[..k], idMapping)
      invariant forall j :: 0 <= j < k ==> tasks[j] == WithPrefix(uuid, before[j])
      invariant forall j :: k <= j < tasks.Length ==> tasks[j] == before[j]
    {
      MapsOneMore(uuid, before, k, idMapping);
      var oldId := tasks[k].id;
      var newId := Prefix(uuid, oldId);
      idMapping := idMapping[oldId := newId];
      tasks[k] := tasks[k].(id := newId);
      assert tasks[k] == WithPrefix(uuid, before[k]);
    }
    assert before[..tasks.Length] == before;
  }

  /** The second loop: dependencies follow the mapping. */
  method RenameDependencies(
    ghost uuid: string, ghost ids: set<TaskId>, tasks: array<Task>, idMapping: map<TaskId, TaskId>)
    requires forall id :: id in idMapping <==> id in ids
    requires forall id :: id in idMapping ==> idMapping[id] == Prefix(uuid, id)
    modifies tasks
    ensures forall j :: 0 <= j < tasks.Length ==>
      tasks[j] == old(tasks[j]).(dependencies := RenameAll(uuid, ids, old(tasks[j]).dependencies))
  {
    for k := 0 to tasks.Length
      invariant forall j :: 0 <= j < k ==>
        tasks[j] == old(tasks[j]).(dependencies := RenameAll(uuid, ids, old(tasks[j]).dependencies))
      invariant forall j :: k <= j < tasks.Length ==> tasks[j] == old(tasks[j])
    {
      var deps := tasks[k].dependencies;
      var renamed := seq(|deps|, i requires 0 <= i < |deps| =>
        if deps[i] in idMapping then idMapping[deps[i]] else deps[i]);
      assert renamed == RenameAll(uuid, ids, deps);
      tasks[k] := tasks[k].(dependencies := renamed);
    }
  }

  method PrefixInPlace(uuid: string, tasks: array<Task>)
    modifies tasks
    ensures tasks[..] == Prefixed(uuid, old(tasks[..]))
  {
    ghost var ids := Ids(tasks[..]);
    var idMapping := PrefixIds(uuid, tasks);
    RenameDependencies(uuid, ids, tasks, idMapping);
  }

  /** Every task keeps its place and what it says; only ids change. */
  lemma OnlyIdsChange(uuid: string, tasks: seq<Task>, i: nat)
    requires i < |tasks|
    ensures |Prefixed(uuid, tasks)| == |tasks|
    ensures
      var t, u := tasks[i], Prefixed(uuid, tasks)[i];
      && u == t.(id := uuid + "_" + t.id, dependencies := u.dependencies)
      && |u.dependencies| == |t.dependencies|
      && forall j :: 0 <= j < |t.dependencies| ==>
        u.dependencies[j] ==
        if exists k :: 0 <= k < |tasks| && tasks[k].id == t.dependencies[j] then uuid + "_" + t.dependencies[j]
        else t.dependencies[j]
  {
    var t := tasks[i];
    forall j | 0 <= j < |t.dependencies|
      ensures t.dependencies[j] in Ids(tasks) <==> exists k :: 0 <= k < |tasks| && tasks[k].id == t.dependencies[j]
    {
      if k :| 0 <= k < |tasks| && tasks[k].id == t.dependencies[j] {
        assert tasks[k] in tasks;
      }
    }
  }

  // -------------------------------------------------- prefixing is injective

  lemma PrefixIsInjective(uuid: string, a: TaskId, b: TaskId)
    ensures Prefix(uuid, a) == Prefix(uuid, b) <==> a == b
  {
    assert Prefix(uuid, a)[|uuid| + 1..] == a;
    assert Prefix(uuid, b)[|uuid| + 1..] == b;
  }

  /** No dependency outside the plan already has the form of a prefixed id. */
  ghost predicate NoAlias(uuid: string, tasks: seq<Task>) {
    forall t, d, x :: t in tasks && d in t.dependencies && d !in Ids(tasks) && x in Ids(tasks) ==> d != Prefix(uuid, x)
  }

  lemma PrefixedIdHasPrefix(uuid: string, tasks: seq<Task>, id: TaskId) returns (x: TaskId)
    requires id in Ids(Prefixed(uuid, tasks))
    ensures x in Ids(tasks) && id == Prefix(uuid, x)
  {
    var r := Prefixed(uuid, tasks);
    var u :| u in r && u.id == id;
    var i :| 0 <= i < |r| && r[i] == u;
    x := tasks[i].id;
    assert tasks[i] in tasks;
  }

  /** A dependency is known after prefixing exactly when it was known before —
      for every dependency of the plan — if and only if nothing aliases. */
  lemma KnownnessPreservedIffNoAlias(uuid: string, tasks: seq<Task>)
    ensures
      (forall t, d :: t in tasks && d in t.dependencies ==>
        (Rename(uuid, Ids(tasks), d) in Ids(Prefixed(uuid, tasks)) <==> d in Ids(tasks)))
      <==> NoAlias(uuid, tasks)
  {
  }

  // ------------------------------------------------------- graph isomorphism

  lemma {:induction false} GraphCommutes(uuid: string, ids: set<TaskId>, tasks: seq<Task>, n: TaskId)
    ensures
      var g, h := DependencyGraph(tasks), DependencyGraph(PrefixedWith(uuid, ids, tasks));
      && (n in g <==> Prefix(uuid, n) in h)
      && (n in g ==> h[Prefix(uuid, n)] == RenameAll(uuid, ids, g[n]))
  {
    if tasks == [] {
    } else {
      var k := |tasks| - 1;
      var r := PrefixedWith(uuid, ids, tasks);
      assert r[..k] == PrefixedWith(uuid, ids, tasks[..k]);
      GraphCommutes(uuid, ids, tasks[..k], n);
      PrefixIsInjective(uuid, tasks[k].id, n);
    }
  }

  lemma EdgeCommutes(uuid: string, tasks: seq<Task>, n: TaskId, s: TaskId)
    requires Edge(DependencyGraph(tasks), n, s)
    ensures n in Ids(tasks)
    ensures Edge(DependencyGraph(Prefixed(uuid, tasks)), Rename(uuid, Ids(tasks), n), Rename(uuid, Ids(tasks), s))
  {
    var g, ids := DependencyGraph(tasks), Ids(tasks);
    GraphKeys(tasks);
    GraphCommutes(uuid, ids, tasks, n);
    var i :| 0 <= i < |g[n]| && g[n][i] == s;
    assert RenameAll(uuid, ids, g[n])[i] == Rename(uuid, ids, s);
  }

  /** An edge of the prefixed graph comes from an edge of the original one. */
  lemma EdgeLifts(uuid: string, tasks: seq<Task>, n: TaskId, b: TaskId) returns (s: TaskId)
    requires n in Ids(tasks)
    requires Edge(DependencyGraph(Prefixed(uuid, tasks)), Prefix(uuid, n), b)
    ensures Edge(DependencyGraph(tasks), n, s) && b == Rename(uuid, Ids(tasks), s)
  {
    var g, ids := DependencyGraph(tasks), Ids(tasks);
    GraphKeys(tasks);
    GraphCommutes(uuid, ids, tasks, n);
    var renamed := RenameAll(uuid, ids, g[n]);
    var i :| 0 <= i < |renamed| && renamed[i] == b;
    s := g[n][i];
  }

  /** The nodes of the plan: its ids and everybody's dependencies. */
  ghost function Occurring(tasks: seq<Task>): set<TaskId> {
    Ids(tasks) + (set t, d | t in tasks && d in t.dependencies :: d)
  }

  /** Renaming does not identify nodes of the plan. */
  lemma RenameIsInjective(uuid: string, tasks: seq<Task>, a: TaskId, b: TaskId)
    requires NoAlias(uuid, tasks) && a in Occurring(tasks) && b in Occurring(tasks)
    ensures Rename(uuid, Ids(tasks), a) == Rename(uuid, Ids(tasks), b) <==> a == b
  {
    PrefixIsInjective(uuid, a, b);
  }

  /** A node with an outgoing edge in the prefixed graph is a prefixed id. */
  lemma SourceIsPrefixed(uuid: string, tasks: seq<Task>, m: TaskId, b: TaskId) returns (n: TaskId)
    requires Edge(DependencyGraph(Prefixed(uuid, tasks)), m, b)
    ensures n in Ids(tasks) && m == Prefix(uuid, n)
  {
    GraphKeys(Prefixed(uuid, tasks));
    n := PrefixedIdHasPrefix(uuid, tasks, m);
  }

  /** Prefixing is a graph isomorphism on the nodes of the plan. */
  lemma PrefixingIsIsomorphism(uuid: string, tasks: seq<Task>)
    requires NoAlias(uuid, tasks)
    ensures Isomorphic(
      DependencyGraph(tasks), DependencyGraph(Prefixed(uuid, tasks)), Occurring(tasks),
      (n: TaskId) => Rename(uuid, Ids(tasks), n))
  {
    var g, h := DependencyGraph(tasks), DependencyGraph(Prefixed(uuid, tasks));
    var ids := Ids(tasks);
    forall n, s | Edge(g, n, s)
      ensures n in Occurring(tasks) && s in Occurring(tasks) && Edge(h, Rename(uuid, ids, n), Rename(uuid, ids, s))
    {
      EdgeCommutes(uuid, tasks, n, s);
      SuccessorsAreIds(tasks, n, s);
    }
    forall m, b | Edge(h, m, b)
      ensures exists n :: n in Occurring(tasks) && m == Rename(uuid, ids, n)
    {
      var n := SourceIsPrefixed(uuid, tasks, m, b);
      assert m == Rename(uuid, ids, n);
    }
    forall n, b | n in Occurring(tasks) && Edge(h, Rename(uuid, ids, n), b)
      ensures exists s :: Edge(g, n, s) && b == Rename(uuid, ids, s)
    {
      var x := SourceIsPrefixed(uuid, tasks, Rename(uuid, ids, n), b);
      RenameIsInjective(uuid, tasks, n, x);
      var s := EdgeLifts(uuid, tasks, n, b);
    }
    forall a, b | a in Occurring(tasks) && b in Occurring(tasks)
      ensures Rename(uuid, ids, a) == Rename(uuid, ids, b) ==> a == b
    {
      RenameIsInjective(uuid, tasks, a, b);
    }
  }

  /** Every task keeps its depth. */
  lemma DepthsPreserved(uuid: string, tasks: seq<Task>, n: TaskId, d: nat)
    requires NoAlias(uuid, tasks) && n in Ids(tasks)
    ensures
      IsDepth(DependencyGraph(Prefixed(uuid, tasks)), Prefix(uuid, n), d) <==>
      IsDepth(DependencyGraph(tasks), n, d)
  {
    PrefixingIsIsomorphism(uuid, tasks);
    DepthPreserved(
      DependencyGraph(tasks), DependencyGraph(Prefixed(uuid, tasks)), Occurring(tasks),
      (m: TaskId) => Rename(uuid, Ids(tasks), m), n, d);
  }

  /** The cycles of the prefixed plan are exactly the images of the plan's. */
  lemma CyclesPreserved(uuid: string, tasks: seq<Task>, v: seq<TaskId>)
    requires NoAlias(uuid, tasks)
    ensures
      Cycle(DependencyGraph(Prefixed(uuid, tasks)), v) <==>
      exists w :: Cycle(DependencyGraph(tasks), w) && v == RenameAll(uuid, Ids(tasks), w)
  {
    var f := (m: TaskId) => Rename(uuid, Ids(tasks), m);
    PrefixingIsIsomorphism(uuid, tasks);
    CyclesCorrespond(DependencyGraph(tasks), DependencyGraph(Prefixed(uuid, tasks)), Occurring(tasks), f, v);
    forall w
      ensures Image(f, w) == RenameAll(uuid, Ids(tasks), w)
    {
    }
  }

  lemma PrefixedAcyclic(uuid: string, tasks: seq<Task>)
    requires NoAlias(uuid, tasks)
    ensures Acyclic(DependencyGraph(Prefixed(uuid, tasks))) <==> Acyclic(DependencyGraph(tasks))
  {
    PrefixingIsIsomorphism(uuid, tasks);
    AcyclicityPreserved(
      DependencyGraph(tasks), DependencyGraph(Prefixed(uuid, tasks)), Occurring(tasks),
      (m: TaskId) => Rename(uuid, Ids(tasks), m));
  }

  /** Prefixing keeps the validator's verdict. */
  lemma VerdictPreserved(uuid: string, tasks: seq<Task>, personas: set<string>)
    requires NoAlias(uuid, tasks)
    ensures ValidPlan(Prefixed(uuid, tasks), personas) <==> ValidPlan(tasks, personas)
  {
    UniquenessPreserved(uuid, tasks);
    PersonasPreserved(uuid, tasks, personas);
    DependenciesPreserved(uuid, tasks);
    PrefixedAcyclic(uuid, tasks);
    assert tasks == [] <==> |tasks| == 0;
  }

  /** Some unknown dependency, and every one already has the form of a prefixed
      id of the plan. */
  ghost predicate OnlyAliasesUnknown(uuid: string, tasks: seq<Task>) {
    && !KnownDependencies(tasks)
    && forall t, d :: t in tasks && d in t.dependencies && d !in Ids(tasks) ==>
      exists x :: x in Ids(tasks) && d == Prefix(uuid, x)
  }

  lemma RenamedIsKnownIff(uuid: string, tasks: seq<Task>, d: TaskId)
    ensures
      Rename(uuid, Ids(tasks), d) in Ids(Prefixed(uuid, tasks)) <==>
      d in Ids(tasks) || exists x :: x in Ids(tasks) && d == Prefix(uuid, x)
  {
    var r := Prefixed(uuid, tasks);
    forall x | x in Ids(tasks)
      ensures Prefix(uuid, x) in Ids(r)
    {
      var t :| t in tasks && t.id == x;
      var i :| 0 <= i < |tasks| && tasks[i] == t;
      assert r[i] in r;
    }
    if Rename(uuid, Ids(tasks), d) in Ids(r) && d !in Ids(tasks) {
      var x := PrefixedIdHasPrefix(uuid, tasks, d);
    }
  }

  /** Every dependency after prefixing is a renamed one. */
  lemma KnownAfterIff(uuid: string, tasks: seq<Task>)
    ensures
      KnownDependencies(Prefixed(uuid, tasks)) <==>
      forall t, d :: t in tasks && d in t.dependencies ==> Rename(uuid, Ids(tasks), d) in Ids(Prefixed(uuid, tasks))
  {
    var r, ids := Prefixed(uuid, tasks), Ids(tasks);
    if KnownDependencies(r) {
      forall t, d | t in tasks && d in t.dependencies
        ensures Rename(uuid, ids, d) in Ids(r)
      {
        var i :| 0 <= i < |tasks| && tasks[i] == t;
        var j :| 0 <= j < |t.dependencies| && t.dependencies[j] == d;
        assert r[i] in r && r[i].dependencies[j] in r[i].dependencies;
      }
    } else {
      var u, e :| u in r && e in u.dependencies && e !in Ids(r);
      var i :| 0 <= i < |r| && r[i] == u;
      var j :| 0 <= j < |u.dependencies| && u.dependencies[j] == e;
      assert tasks[i] in tasks && tasks[i].dependencies[j] in tasks[i].dependencies;
    }
  }

  lemma KnownAfterPrefixing(uuid: string, tasks: seq<Task>)
    ensures
      KnownDependencies(Prefixed(uuid, tasks)) <==> KnownDependencies(tasks) || OnlyAliasesUnknown(uuid, tasks)
  {
    KnownAfterIff(uuid, tasks);
    forall d
      ensures
        Rename(uuid, Ids(tasks), d) in Ids(Prefixed(uuid, tasks)) <==>
        d in Ids(tasks) || exists x :: x in Ids(tasks) && d == Prefix(uuid, x)
    {
      RenamedIsKnownIff(uuid, tasks, d);
    }
  }

  /** Exactly when prefixing changes the validator's verdict, which it does only
      by making an invalid plan valid. */
  lemma AliasChangesVerdict(uuid: string, tasks: seq<Task>, personas: set<string>)
    ensures ValidPlan(tasks, personas) ==> ValidPlan(Prefixed(uuid, tasks), personas)
    ensures
      (ValidPlan(Prefixed(uuid, tasks), personas) <==> ValidPlan(tasks, personas))
      <==>
      !(tasks != [] && UniqueIds(tasks) && KnownPersonas(tasks, personas) && OnlyAliasesUnknown(uuid, tasks)
        && Acyclic(DependencyGraph(Prefixed(uuid, tasks))))
  {
    if KnownDependencies(tasks) {
      KnownMeansNoAlias(uuid, tasks);
      VerdictPreserved(uuid, tasks, personas);
    } else {
      UniquenessPreserved(uuid, tasks);
      PersonasPreserved(uuid, tasks, personas);
      KnownAfterPrefixing(uuid, tasks);
      assert tasks == [] <==> |tasks| == 0;
    }
  }

  /** Such a plan: it depends on an unknown task whose name is that of its own
      first task once that has its prefix. */
  lemma AliasedPlan() returns (tasks: seq<Task>)
    ensures !ValidPlan(tasks, {"writer"}) && ValidPlan(Prefixed("p", tasks), {"writer"})
  {
    var a := Task("a", "", "", "writer", []);
    var b := Task("b", "", "", "writer", ["p_a"]);
    tasks := [a, b];
    assert Ids(tasks) == {"a", "b"} && a in tasks && b in tasks;
    assert Prefix("p", "a") == "p_a" && Prefix("p", "b") == "p_b";
    assert "p_a" in b.dependencies && "p_a" !in Ids(tasks) && "a" in Ids(tasks);
    forall t, d | t in tasks && d in t.dependencies
      ensures d == "p_a"
    {
    }
    assert OnlyAliasesUnknown("p", tasks);
    AliasedGraph(Prefixed("p", tasks));
    AliasChangesVerdict("p", tasks, {"writer"});
  }

  lemma AliasedGraph(r: seq<Task>)
    requires |r| == 2 && r[0].id == "p_a" && r[0].dependencies == []
    requires r[1].id == "p_b" && |r[1].dependencies| == 1 && r[1].dependencies[0] == "p_a"
    ensures Acyclic(DependencyGraph(r))
  {
    var g, one := DependencyGraph(r), r[..1];
    assert one[..0] == [] && DependencyGraph(one[..0]) == map[];
    assert DependencyGraph(one) == map["p_a" := r[0].dependencies];
    assert g == map["p_a" := r[0].dependencies, "p_b" := r[1].dependencies];
    RankedIsAcyclic(g, map["p_a" := 0, "p_b" := 1]);
  }

  /** A valid plan stays valid whatever the prefix. */
  lemma KnownMeansNoAlias(uuid: string, tasks: seq<Task>)
    requires KnownDependencies(tasks)
    ensures NoAlias(uuid, tasks)
  {
  }

  lemma UniquenessPreserved(uuid: string, tasks: seq<Task>)
    ensures UniqueIds(Prefixed(uuid, tasks)) <==> UniqueIds(tasks)
  {
    var r := Prefixed(uuid, tasks);
    forall i, j | 0 <= i < j < |tasks|
      ensures r[i].id == r[j].id <==> tasks[i].id == tasks[j].id
    {
      PrefixIsInjective(uuid, tasks[i].id, tasks[j].id);
    }
  }

  lemma PersonasPreserved(uuid: string, tasks: seq<Task>, personas: set<string>)
    ensures KnownPersonas(Prefixed(uuid, tasks), personas) <==> KnownPersonas(tasks, personas)
  {
  }

  lemma DependenciesPreserved(uuid: string, tasks: seq<Task>)
    requires NoAlias(uuid, tasks)
    ensures KnownDependencies(Prefixed(uuid, tasks)) <==> KnownDependencies(tasks)
  {
    var r, ids := Prefixed(uuid, tasks), Ids(tasks);
    KnownnessPreservedIffNoAlias(uuid, tasks);
    if KnownDependencies(r) {
      forall t, d | t in tasks && d in t.dependencies
        ensures d in ids
      {
        var i :| 0 <= i < |tasks| && tasks[i] == t;
        var j :| 0 <= j < |t.dependencies| && t.dependencies[j] == d;
        assert r[i] in r && r[i].dependencies[j] == Rename(uuid, ids, d);
        assert r[i].dependencies[j] in r[i].dependencies;
      }
    }
    if KnownDependencies(tasks) {
      forall t, d | t in r && d in t.dependencies
        ensures d in Ids(r)
      {
        var i :| 0 <= i < |r| && r[i] == t;
        var j :| 0 <= j < |t.dependencies| && t.dependencies[j] == d;
        var original := tasks[i].dependencies[j];
        assert tasks[i] in tasks && original in tasks[i].dependencies;
        assert d == Rename(uuid, ids, original);
      }
    }
  }

  /** `c'` is what `c` becomes under the renaming, as far as the plan can tell. */
  ghost predicate Corresponds(uuid: string, tasks: seq<Task>, c: set<TaskId>, c': set<TaskId>) {
    forall n :: n in Occurring(tasks) ==> (Rename(uuid, Ids(tasks), n) in c' <==> n in c)
  }

  lemma ReadyTaskPreserved(uuid: string, tasks: seq<Task>, c: set<TaskId>, c': set<TaskId>, t: Task)
    requires Corresponds(uuid, tasks, c, c') && t in tasks
    ensures IsReady(PrefixTask(uuid, Ids(tasks), t), c') <==> IsReady(t, c)
  {
    var ids := Ids(tasks);
    var deps, renamed := t.dependencies, RenameAll(uuid, ids, t.dependencies);
    assert t.id in ids && t.id in Occurring(tasks);
    forall i | 0 <= i < |deps|
      ensures renamed[i] in c' <==> deps[i] in c
    {
      assert deps[i] in deps && deps[i] in Occurring(tasks);
    }
    AllIn(deps, c);
    AllIn(renamed, c');
  }

  lemma AllIn<T>(xs: seq<T>, s: set<T>)
    ensures (forall x :: x in xs ==> x in s) <==> forall i :: 0 <= i < |xs| ==> xs[i] in s
  {
  }

  lemma PrefixedAppend(uuid: string, ids: set<TaskId>, a: seq<Task>, b: seq<Task>)
    ensures PrefixedWith(uuid, ids, a + b) == PrefixedWith(uuid, ids, a) + PrefixedWith(uuid, ids, b)
  {
  }

  /** The ready tasks of the prefixed plan are the prefixed ready tasks. */
  lemma {:induction false} ReadySetPreserved(
    uuid: string, tasks: seq<Task>, c: set<TaskId>, c': set<TaskId>, some: seq<Task>)
    requires Corresponds(uuid, tasks, c, c') && forall t :: t in some ==> t in tasks
    ensures
      GetReadyTasks(PrefixedWith(uuid, Ids(tasks), some), c') ==
      PrefixedWith(uuid, Ids(tasks), GetReadyTasks(some, c))
    decreases |some|
  {
    var ids := Ids(tasks);
    if some == [] {
    } else {
      var rest := some[1..];
      ReadyTaskPreserved(uuid, tasks, c, c', some[0]);
      ReadySetPreserved(uuid, tasks, c, c', rest);
      var first := if IsReady(some[0], c) then [some[0]] else [];
      PrefixedAppend(uuid, ids, first, GetReadyTasks(rest, c));
      assert PrefixedWith(uuid, ids, some)[1..] == PrefixedWith(uuid, ids, rest);
      assert PrefixedWith(uuid, ids, first) == if IsReady(some[0], c) then [PrefixTask(uuid, ids, some[0])] else [];
    }
  }

  // ---------------------------------------------- ids left by earlier turns

  /** Neither prefix, with its separator, begins with the other. */
  predicate Apart(p: string, q: string) {
    !(p + "_" <= q + "_") && !(q + "_" <= p + "_")
  }

  lemma CollisionMeansNested(p: string, x: TaskId, q: string, y: TaskId)
    requires Prefix(p, x) == Prefix(q, y) && |p| <= |q|
    ensures p + "_" <= q + "_"
  {
    var id := Prefix(p, x);
    assert id[..|p| + 1] == p + "_";
    assert id[..|q| + 1] == q + "_";
    assert id[..|q| + 1][..|p| + 1] == id[..|p| + 1];
  }

  lemma NestedMeansCollision(p: string, q: string)
    requires p + "_" <= q + "_"
    ensures exists x, y :: Prefix(p, x) == Prefix(q, y)
  {
    var x := (q + "_")[|p| + 1..];
    assert (p + "_") + x == q + "_";
    assert Prefix(p, x) == Prefix(q, "");
  }

  /** Exactly when two plans' ids can be the same. */
  lemma PrefixLengthMatters(p: string, q: string)
    ensures (exists x, y :: Prefix(p, x) == Prefix(q, y)) <==> !Apart(p, q)
    ensures |p| == |q| ==> (Apart(p, q) <==> p != q)
  {
    forall x, y | Prefix(p, x) == Prefix(q, y)
      ensures !Apart(p, q)
    {
      if |p| <= |q| {
        CollisionMeansNested(p, x, q, y);
      } else {
        CollisionMeansNested(q, y, p, x);
      }
    }
    if p + "_" <= q + "_" {
      NestedMeansCollision(p, q);
    } else if q + "_" <= p + "_" {
      NestedMeansCollision(q, p);
      var y, x :| Prefix(q, y) == Prefix(p, x);
      assert Prefix(p, x) == Prefix(q, y);
    }
    if |p| == |q| && p + "_" == q + "_" {
      assert (p + "_")[..|p|] == (q + "_")[..|p|];
    }
  }

  /** Ids made with prefixes that are apart from this one. */
  ghost predicate OtherPlans(uuid: string, ids: set<TaskId>) {
    forall id :: id in ids ==> exists q, x :: Apart(q, uuid) && id == Prefix(q, x)
  }

  lemma OtherPrefixDiffers(q: string, x: TaskId, uuid: string, y: TaskId)
    requires Apart(q, uuid)
    ensures Prefix(q, x) != Prefix(uuid, y)
  {
    PrefixLengthMatters(q, uuid);
  }

  lemma OtherIdsAreNew(uuid: string, tasks: seq<Task>, earlier: set<TaskId>, id: TaskId)
    requires OtherPlans(uuid, earlier) && id in Ids(Prefixed(uuid, tasks))
    ensures id !in earlier
  {
    var y := PrefixedIdHasPrefix(uuid, tasks, id);
    if id in earlier {
      var q, x :| Apart(q, uuid) && id == Prefix(q, x);
      OtherPrefixDiffers(q, x, uuid, y);
    }
  }

  /** With no unknown dependencies, ids accumulated from other plans never
      change what is ready. */
  lemma EarlierTurnsDoNotMatter(uuid: string, tasks: seq<Task>, earlier: set<TaskId>, c: set<TaskId>, t: Task)
    requires KnownDependencies(tasks) && OtherPlans(uuid, earlier) && t in Prefixed(uuid, tasks)
    ensures IsReady(t, earlier + c) <==> IsReady(t, c)
    ensures t.id !in earlier
  {
    var r := Prefixed(uuid, tasks);
    KnownMeansNoAlias(uuid, tasks);
    DependenciesPreserved(uuid, tasks);
    forall id | id in Ids(r)
      ensures id !in earlier
    {
      OtherIdsAreNew(uuid, tasks, earlier, id);
    }
    assert t.id in Ids(r);
  }

  /** Where prefixes are nested, an earlier id can be the id of a new task, which
      then counts as completed before it has run. */
  lemma NestedPrefixesCollide(p: string, q: string) returns (x: TaskId, t: Task)
    requires !Apart(p, q)
    ensures !IsReady(PrefixTask(q, {t.id}, t), {Prefix(p, x)}) && IsReady(PrefixTask(q, {t.id}, t), {})
  {
    PrefixLengthMatters(p, q);
    var a, y :| Prefix(p, a) == Prefix(q, y);
    x, t := a, Task(y, "", "", "", []);
  }
}
