/** The endpoints and handlers as code over the two tables (`api/routes.py`,
    `worker/main.py`), each tied to the step it is in the claim protocol.  The
    user's access rights are left out. */
module TaskTables {
  import opened WorkerClaims
  import opened Wrappers

  datatype Reply = Ok | NotFound | Conflict(status: Status) | TooMany | AlreadyDone

  datatype Item = NewTaskItem(thread: ThreadId) | ResumeItem(thread: ThreadId)

  const MAX_CONCURRENT := 3

  const ACTIVE := {Pending, Running, Interrupted, Resuming}

  lemma ActiveUnlessDone(status: Status)
    ensures status in ACTIVE <==> !Done(status)
  {
  }

  /** What the recovery scan puts back into the worker's queue. */
  function Requeued(orphans: seq<(ThreadId, Status)>, hasNext: ThreadId -> bool): seq<Item> {
    if orphans == [] then []
    else
      var (t, status) := orphans[|orphans| - 1];
      Requeued(orphans[..|orphans| - 1], hasNext) +
      if status == Pending || (status == Running && hasNext(t)) then [NewTaskItem(t)]
      else if status == Resuming then [ResumeItem(t)]
      else []
  }

  lemma RequeuedSnoc(orphans: seq<(ThreadId, Status)>, hasNext: ThreadId -> bool, k: nat)
    requires k < |orphans|
    ensures
      var (t, status) := orphans[k];
      Requeued(orphans[..k + 1], hasNext) ==
      Requeued(orphans[..k], hasNext) +
      if status == Pending || (status == Running && hasNext(t)) then [NewTaskItem(t)]
      else if status == Resuming then [ResumeItem(t)]
      else []
  {
    assert orphans[..k + 1][..k] == orphans[..k];
  }

  /** Exactly the pending orphans and the running ones with work left come back as
      new tasks, and exactly the resuming ones as resumes. */
  lemma {:induction false} RequeuedIff(orphans: seq<(ThreadId, Status)>, hasNext: ThreadId -> bool, t: ThreadId)
    ensures
      NewTaskItem(t) in Requeued(orphans, hasNext) <==>
      (t, Pending) in orphans || ((t, Running) in orphans && hasNext(t))
    ensures ResumeItem(t) in Requeued(orphans, hasNext) <==> (t, Resuming) in orphans
    ensures |Requeued(orphans, hasNext)| <= |orphans|
  {
    if orphans == [] {
    } else {
      var n := |orphans| - 1;
      RequeuedIff(orphans[..n], hasNext, t);
      forall status
        ensures (t, status) in orphans <==> (t, status) in orphans[..n] || orphans[n] == (t, status)
      {
        assert orphans == orphans[..n] + [orphans[n]];
      }
      var (u, status) := orphans[n];
      assert orphans[n] == (u, status);
    }
  }

  class Tables {
    var tasks: map<ThreadId, Task>
    var requests: seq<Request>

    function Value(): Db
      reads this
    {
      Db(tasks, requests)
    }

    constructor ()
      ensures Value() == START.db
    {
      tasks, requests := map[], [];
    }

    /** `UPDATE tasks SET status = to WHERE thread_id = t AND status IN from` */
    method Update(t: ThreadId, from: set<Status>, to: Status) returns (rows: nat)
      modifies this`tasks
      ensures rows == if t in old(tasks) && old(tasks)[t].status in from then 1 else 0
      ensures Value() == if rows == 1 then SetStatus(old(Value()), t, to) else old(Value())
    {
      rows := 0;
      if t in tasks && tasks[t].status in from {
        tasks := tasks[t := tasks[t].(status := to)];
        rows := 1;
      }
    }

    /** `active` is the number of the user's unfinished tasks. */
    method PostTask(t: ThreadId, active: nat) returns (reply: Reply)
      modifies this`tasks
      ensures reply == if active >= MAX_CONCURRENT then TooMany else Ok
      ensures Value() == if reply == Ok then CreateTask(old(Value()), t) else old(Value())
    {
      if active >= MAX_CONCURRENT {
        return TooMany;
      }
      if t in tasks {
        tasks := tasks[t := Task(Pending, tasks[t].entries + 1, tasks[t].accepts)];
      } else {
        tasks := tasks[t := Task(Pending, 1, 0)];
      }
      return Ok;
    }

    method PostResume(t: ThreadId, value: string) returns (reply: Reply)
      modifies this
      ensures Value() == AcceptResume(old(Value()), t, value)
      ensures reply ==
        if t !in old(tasks) then NotFound
        else if old(tasks)[t].status != Interrupted then Conflict(old(tasks)[t].status)
        else Ok
    {
      if t !in tasks {
        return NotFound;
      }
      var before := tasks[t];
      var rows := Update(t, {Interrupted}, Resuming);
      if rows == 0 {
        return Conflict(before.status);
      }
      tasks := tasks[t := tasks[t].(accepts := before.accepts + 1)];
      requests := requests + [Request(t, value, false)];
      return Ok;
    }

    method PostCancel(t: ThreadId) returns (reply: Reply)
      modifies this`tasks
      ensures Value() == CancelTask(old(Value()), t)
      ensures reply ==
        if t !in old(tasks) then NotFound else if Done(old(tasks)[t].status) then AlreadyDone else Ok
    {
      if t !in tasks {
        return NotFound;
      }
      if Done(tasks[t].status) {
        return AlreadyDone;
      }
      ActiveUnlessDone(tasks[t].status);
      var _ := Update(t, ACTIVE, Cancelled);
      return Ok;
    }

    /** The claim at the start of `handle_new_task`. */
    method ClaimTask(t: ThreadId) returns (claimed: bool)
      modifies this`tasks
      ensures claimed == Is(old(Value()), t, Pending)
      ensures Value() == CasStatus(old(Value()), t, Pending, Running)
    {
      var rows := Update(t, {Pending}, Running);
      claimed := rows != 0;
    }

    /** The loop behind `ORDER BY created_at DESC LIMIT 1`. */
    method SelectNewest(t: ThreadId) returns (r: int)
      ensures r == Newest(requests, t, true)
    {
      r := |requests| - 1;
      while r >= 0 && (requests[r].thread != t || requests[r].consumed)
        invariant -1 <= r < |requests|
        invariant forall i :: r < i < |requests| ==> requests[i].thread != t || requests[i].consumed
      {
        r := r - 1;
      }
      NewestIsUnique(requests, t, true, r);
    }

    /** The start of `handle_resume_task`, as one transaction: when it claims, it
        delivers the thread's most recently accepted value, provided that row
        is still waiting. */
    method ClaimResume(t: ThreadId) returns (delivered: Option<string>)
      modifies this
      ensures
        var before, r := old(Value()), Newest(old(requests), t, true);
        if r >= 0 && Is(before, t, Resuming)
        then delivered == Some(before.requests[r].value) && Value() == Consume(SetStatus(before, t, Running), r)
        else delivered == None && Value() == before
    {
      delivered := None;
      var r := SelectNewest(t);
      if r < 0 {
        return;
      }
      var rows := Update(t, {Resuming}, Running);
      if rows == 0 {
        return;
      }
      delivered := Some(requests[r].value);
      requests := requests[r := requests[r].(consumed := true)];
    }

    method FinalizeTask(t: ThreadId, outcome: Outcome)
      modifies this`tasks
      ensures Value() == Finalize(old(Value()), t, outcome)
    {
      if t in tasks {
        match outcome
        case Interrupts => tasks := tasks[t := tasks[t].(status := Interrupted)];
        case Completes => tasks := tasks[t := tasks[t].(status := Completed)];
        case StopsEarly =>
      }
    }

    /** `recover_orphaned_tasks`: `orphans` is what its SELECT returned, the
        table may have changed since. */
    method RecoverOrphans(orphans: seq<(ThreadId, Status)>, hasNext: ThreadId -> bool) returns (queue: seq<Item>)
      modifies this`tasks
      ensures queue == Requeued(orphans, hasNext)
      ensures forall t :: t in tasks <==> t in old(tasks)
      ensures forall t :: t in tasks ==>
        tasks[t] == if (t, Running) in orphans && !hasNext(t) then old(tasks)[t].(status := Completed) else old(tasks)[t]
    {
      queue := [];
      for k := 0 to |orphans|
        invariant queue == Requeued(orphans[..k], hasNext)
        invariant forall t :: t in tasks <==> t in old(tasks)
        invariant forall t :: t in tasks ==>
          tasks[t] == if (t, Running) in orphans[..k] && !hasNext(t) then old(tasks)[t].(status := Completed) else old(tasks)[t]
      {
        RequeuedSnoc(orphans, hasNext, k);
        var (t, status) := orphans[k];
        if status == Pending {
          queue := queue + [NewTaskItem(t)];
        } else if status == Running {
          if hasNext(t) {
            queue := queue + [NewTaskItem(t)];
          } else if t in tasks {
            tasks := tasks[t := tasks[t].(status := Completed)];
          }
        } else if status == Resuming {
          queue := queue + [ResumeItem(t)];
        }
        assert orphans[..k + 1] == orphans[..k] + [(t, status)];
      }
      assert orphans[..|orphans|] == orphans;
    }
  }

  /** The transaction of `ClaimResume` is the three steps of the protocol in a row,
      and from a reachable state it delivers the most recently accepted value. */
  lemma TransactionIsPrompt(s: System, t: ThreadId, h: HandlerId)
    requires DeliveryInv(s) && Is(s.db, t, Resuming) && h !in s.handlers
    ensures
      var r := Newest(s.db.requests, t, true);
      var chosen := Apply(s, Select(h, t));
      && r == Newest(s.db.requests, t, false) >= 0
      && ClaimSucceeds(chosen, h) && Prompt(chosen, h)
      && var end := Apply(Apply(chosen, Cas(h)), Mark(h));
      && end.db == Consume(SetStatus(s.db, t, Running), r)
      && end.delivered == s.delivered + [r]
  {
    SelectFindsWaiting(s, t);
  }

  /** A running orphan with work left is requeued as a new task, and that claim
      fails: its status is not pending. */
  lemma RunningOrphanIsNotClaimed(s: System, h: HandlerId, t: ThreadId, hasNext: ThreadId -> bool)
    requires Is(s.db, t, Running) && hasNext(t) && h !in s.handlers
    ensures Requeued([(t, Running)], hasNext) == [NewTaskItem(t)]
    ensures Apply(s, ClaimNew(h, t)) == s
  {
  }
}
