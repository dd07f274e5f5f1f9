/** The execute/review loop as a schedule: that it stops, what it completes and
    in which round each task runs. */
module Schedule {
  import opened Execution
  import opened Fixpoints
  import opened Graphs
  import opened Plans

  /** Distinct ids of the plan that are not completed yet. */
  function Pending(s: BossState): set<TaskId> {
    if s.plan.None? then {} else Ids(s.plan.value) - Done(s)
  }

  lemma PendingShrinks(rt: Runtime, s: BossState)
    requires Ready(s) != []
    ensures Pending(Execute(rt, s)) < Pending(s)
  {
    ExecuteEffect(rt, s);
    var t := Ready(s)[0];
    assert t in Ready(s);
    assert t.id in Pending(s) && t.id in Done(Execute(rt, s));
  }

  /** Execute, then review routes back to execute as long as a task is ready. */
  function RunLoop(rt: Runtime, s: BossState): BossState
    decreases Pending(s)
  {
    if Ready(s) == [] then s
    else
      PendingShrinks(rt, s);
      RunLoop(rt, Execute(rt, s))
  }

  /** How many rounds find something to run. */
  function Rounds(rt: Runtime, s: BossState): nat
    decreases Pending(s)
  {
    if Ready(s) == [] then 0
    else
      PendingShrinks(rt, s);
      1 + Rounds(rt, Execute(rt, s))
  }

  /** The state after `k` visits of the execute node. */
  function After(rt: Runtime, s: BossState, k: nat): BossState
    decreases k
  {
    if k == 0 then s else After(rt, Execute(rt, s), k - 1)
  }

  /** The personas the loop calls, round after round. */
  function AllCalls(rt: Runtime, s: BossState): seq<Task>
    decreases Pending(s)
  {
    if Ready(s) == [] then []
    else
      PendingShrinks(rt, s);
      Calls(s) + AllCalls(rt, Execute(rt, s))
  }

  ghost predicate Closed(tasks: seq<Task>, x: set<TaskId>) {
    forall t :: t in tasks && (forall d :: d in t.dependencies ==> d in x) ==> t.id in x
  }

  lemma NothingReadyIffClosed(s: BossState)
    requires s.plan.Some?
    ensures Ready(s) == [] <==> Closed(s.plan.value, Done(s))
  {
  }

  lemma ReadyStaysInside(s: BossState, x: set<TaskId>)
    requires s.plan.Some? && Done(s) <= x && Closed(s.plan.value, x)
    ensures Ids(Ready(s)) <= x
  {
  }

  /** For any plan, valid or approved anyway: the loop stops within one round
      per distinct id, and what is completed then is the least set that holds
      the ids completed before and is closed under "all dependencies done". */
  lemma {:induction false} LoopIsLeastFixedPoint(rt: Runtime, s: BossState)
    requires s.plan.Some?
    ensures
      var e := RunLoop(rt, s);
      && e.plan == s.plan && e.finalResult == s.finalResult
      && Done(s) <= Done(e)
      && Closed(s.plan.value, Done(e))
      && forall x: set<TaskId> :: Done(s) <= x && Closed(s.plan.value, x) ==> Done(e) <= x
    ensures Rounds(rt, s) <= |Pending(s)|
    decreases Pending(s)
  {
    NothingReadyIffClosed(s);
    if Ready(s) != [] {
      var next := Execute(rt, s);
      ExecuteEffect(rt, s);
      PendingShrinks(rt, s);
      LoopIsLeastFixedPoint(rt, next);
      ProperSubsetIsSmaller(Pending(next), Pending(s));
      forall x: set<TaskId> | Done(s) <= x && Closed(s.plan.value, x)
        ensures Done(RunLoop(rt, s)) <= x
      {
        ReadyStaysInside(s, x);
        assert Done(next) <= x;
      }
    }
  }

  lemma ProperSubsetIsSmaller<T>(a: set<T>, b: set<T>)
    requires a < b
    ensures |a| < |b|
  {
    var x :| x in b && x !in a;
    assert a <= b - {x};
    SubsetIsNoLarger(a, b - {x});
  }

  lemma {:induction false} SubsetIsNoLarger<T>(a: set<T>, b: set<T>)
    requires a <= b
    ensures |a| <= |b|
  {
    if a != {} {
      var x :| x in a;
      SubsetIsNoLarger(a - {x}, b - {x});
    }
  }

  /** The tasks not completed yet, with their dependencies. */
  function Remaining(g: Graph<TaskId>, done: set<TaskId>): Graph<TaskId> {
    map n | n in g && n !in done :: g[n]
  }

  lemma RemainingIsClosedAlike(g: Graph<TaskId>, done: set<TaskId>, x: set<TaskId>)
    requires done <= x
    ensures ClosedUnder(Remaining(g, done), x) <==> ClosedUnder(g, x)
  {
  }

  /** With unique ids the tasks left out are exactly those, not completed before,
      from which a cycle or an unknown id can be reached. */
  lemma LeftOutExactly(rt: Runtime, s: BossState, id: TaskId)
    requires s.plan.Some? && UniqueIds(s.plan.value) && id in Pending(s)
    ensures
      id !in Done(RunLoop(rt, s)) <==> Blocked(Remaining(DependencyGraph(s.plan.value), Done(s)), Done(s), id)
  {
    var tasks, done := s.plan.value, Done(s);
    var g, c := DependencyGraph(tasks), Done(RunLoop(rt, s));
    GraphKeys(tasks);
    LoopIsLeastFixedPoint(rt, s);
    forall x | done <= x
      ensures Closed(tasks, x) <==> ClosedUnder(Remaining(g, done), x)
    {
      ClosedAsGraph(tasks, x);
      RemainingIsClosedAlike(g, done, x);
    }
    LeftOutIffBlocked(Remaining(g, done), done, c, id);
  }

  lemma ClosedAsGraph(tasks: seq<Task>, x: set<TaskId>)
    requires UniqueIds(tasks)
    ensures Closed(tasks, x) <==> ClosedUnder(DependencyGraph(tasks), x)
  {
    var g := DependencyGraph(tasks);
    GraphKeys(tasks);
    forall t | t in tasks
      ensures t.id in g && g[t.id] == t.dependencies
    {
      GraphEntry(tasks, t);
    }
  }
}
