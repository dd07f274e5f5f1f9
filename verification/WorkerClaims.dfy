/** Claiming tasks by compare-and-set (`worker/main.py`, `api/routes.py`), with
    any number of workers, duplicated notifications and crashes.

    Every SQL statement is one step.  A notification only makes a worker try, so
    it is modelled by letting every claim be tried at any time. */
module WorkerClaims {
  type ThreadId = string
  type HandlerId = int

  datatype Status = Pending | Running | Interrupted | Resuming | Completed | Failed | Cancelled

  /** `entries` and `accepts` are history: how often the task entered `pending`
      and how many resumes were accepted. */
  datatype Task = Task(status: Status, entries: nat, accepts: nat)

  /** Rows are listed in the order of `created_at`. */
  datatype Request = Request(thread: ThreadId, value: string, consumed: bool)

  datatype Db = Db(tasks: map<ThreadId, Task>, requests: seq<Request>)

  predicate Is(db: Db, t: ThreadId, status: Status) {
    t in db.tasks && db.tasks[t].status == status
  }

  /** `UPDATE tasks SET status = to WHERE thread_id = t` */
  function SetStatus(db: Db, t: ThreadId, to: Status): Db {
    if t in db.tasks then db.(tasks := db.tasks[t := db.tasks[t].(status := to)]) else db
  }

  /** ... `AND status = from` */
  function CasStatus(db: Db, t: ThreadId, from: Status, to: Status): Db {
    if Is(db, t, from) then SetStatus(db, t, to) else db
  }

  /** `INSERT ... ON CONFLICT (thread_id) DO UPDATE SET status = 'pending'` */
  function CreateTask(db: Db, t: ThreadId): Db {
    var task := if t in db.tasks then Task(Pending, db.tasks[t].entries + 1, db.tasks[t].accepts) else Task(Pending, 1, 0);
    db.(tasks := db.tasks[t := task])
  }

  /** The transaction of `resume_task`. */
  function AcceptResume(db: Db, t: ThreadId, value: string): Db {
    if !Is(db, t, Interrupted) then db
    else
      var task := db.tasks[t];
      Db(db.tasks[t := Task(Resuming, task.entries, task.accepts + 1)], db.requests + [Request(t, value, false)])
  }

  predicate Done(status: Status) {
    status in {Completed, Failed, Cancelled}
  }

  function CancelTask(db: Db, t: ThreadId): Db {
    if t in db.tasks && !Done(db.tasks[t].status) then SetStatus(db, t, Cancelled) else db
  }

  /** The newest row of a thread, consumed or not, or among the `open` ones; -1
      when there is none. */
  function Newest(requests: seq<Request>, t: ThreadId, open: bool): (r: int)
    ensures -1 <= r < |requests|
    ensures r >= 0 ==> requests[r].thread == t && (open ==> !requests[r].consumed)
    ensures forall i :: r < i < |requests| ==> requests[i].thread != t || (open && requests[i].consumed)
  {
    if requests == [] then -1
    else
      var last := |requests| - 1;
      if requests[last].thread == t && (open ==> !requests[last].consumed) then last
      else Newest(requests[..last], t, open)
  }

  function Consume(db: Db, req: nat): Db {
    if req < |db.requests| then db.(requests := db.requests[req := db.requests[req].(consumed := true)]) else db
  }

  // ------------------------------------------------------------- the system

  /** `total` is history: how many requests there were at the SELECT. */
  datatype Handler =
    | Chosen(thread: ThreadId, req: nat, total: nat)
    | Claimed(thread: ThreadId, req: nat)
    | InNewTask(thread: ThreadId)
    | InResume(thread: ThreadId)

  datatype Ticket =
    | Entry(thread: ThreadId, number: nat)
    | Accept(thread: ThreadId, number: nat)

  /** `claims` and `delivered` are history: the entries and accepted resumes that
      were claimed, and the request rows that graph runs were started with. */
  datatype System = System(
    db: Db,
    handlers: map<HandlerId, Handler>,
    scanned: set<ThreadId>,
    claims: seq<Ticket>,
    delivered: seq<nat>)

  datatype Outcome = Interrupts | Completes | StopsEarly

  datatype Step =
    | Create(thread: ThreadId)
    | Resume(thread: ThreadId, value: string)
    | Cancel(thread: ThreadId)
    | ClaimNew(h: HandlerId, thread: ThreadId)
    | Select(h: HandlerId, thread: ThreadId)
    | Cas(h: HandlerId)
    | Mark(h: HandlerId)
    | Finish(h: HandlerId, outcome: Outcome)
    | Fail(h: HandlerId)
    | Quit(h: HandlerId)
    | Scan(thread: ThreadId)
    | Fix(thread: ThreadId)

  predicate InGraph(handler: Handler) {
    handler.InNewTask? || handler.InResume?
  }

  predicate Enabled(s: System, e: Step) {
    match e
    case ClaimNew(h, _) => h !in s.handlers
    case Select(h, _) => h !in s.handlers
    case Cas(h) => h in s.handlers && s.handlers[h].Chosen?
    case Mark(h) => h in s.handlers && s.handlers[h].Claimed?
    case Finish(h, _) => h in s.handlers && InGraph(s.handlers[h])
    case Fail(h) => h in s.handlers && InGraph(s.handlers[h])
    case Quit(h) => h in s.handlers
    case Scan(t) => Is(s.db, t, Running)
    case Fix(t) => t in s.scanned
    case _ => true
  }

  /** `finalize_task`: a run that neither interrupts nor ends leaves the status. */
  function Finalize(db: Db, t: ThreadId, outcome: Outcome): Db {
    match outcome
    case Interrupts => SetStatus(db, t, Interrupted)
    case Completes => SetStatus(db, t, Completed)
    case StopsEarly => db
  }

  /** A new task fails only while it is running, a resumed one in any state. */
  function FailTask(db: Db, handler: Handler): Db {
    if handler.InNewTask? then CasStatus(db, handler.thread, Running, Failed) else SetStatus(db, handler.thread, Failed)
  }

  function ClaimNewTask(s: System, h: HandlerId, t: ThreadId): System {
    if !Is(s.db, t, Pending) then s
    else
      s.(db := SetStatus(s.db, t, Running),
         handlers := s.handlers[h := InNewTask(t)],
         claims := s.claims + [Entry(t, s.db.tasks[t].entries)])
  }

  function SelectRequest(s: System, h: HandlerId, t: ThreadId): System {
    var r := Newest(s.db.requests, t, true);
    if r < 0 then s else s.(handlers := s.handlers[h := Chosen(t, r, |s.db.requests|)])
  }

  function CasRequest(s: System, h: HandlerId): System
    requires h in s.handlers && s.handlers[h].Chosen?
  {
    var chosen := s.handlers[h];
    var t := chosen.thread;
    if !Is(s.db, t, Resuming) then s.(handlers := s.handlers - {h})
    else
      s.(db := SetStatus(s.db, t, Running),
         handlers := s.handlers[h := Claimed(t, chosen.req)],
         claims := s.claims + [Accept(t, s.db.tasks[t].accepts)],
         delivered := s.delivered + [chosen.req])
  }

  function Apply(s: System, e: Step): System
    requires Enabled(s, e)
  {
    match e
    case Create(t) => s.(db := CreateTask(s.db, t))
    case Resume(t, value) => s.(db := AcceptResume(s.db, t, value))
    case Cancel(t) => s.(db := CancelTask(s.db, t))
    case ClaimNew(h, t) => ClaimNewTask(s, h, t)
    case Select(h, t) => SelectRequest(s, h, t)
    case Cas(h) => CasRequest(s, h)
    case Mark(h) =>
      var c := s.handlers[h];
      s.(db := Consume(s.db, c.req), handlers := s.handlers[h := InResume(c.thread)])
    case Finish(h, outcome) =>
      s.(db := Finalize(s.db, s.handlers[h].thread, outcome), handlers := s.handlers - {h})
    case Fail(h) => s.(db := FailTask(s.db, s.handlers[h]), handlers := s.handlers - {h})
    case Quit(h) => s.(handlers := s.handlers - {h})
    case Scan(t) => s.(scanned := s.scanned + {t})
    case Fix(t) => s.(db := SetStatus(s.db, t, Completed))
  }

  const START := System(Db(map[], []), map[], {}, [], [])

  predicate Runs(s: System, steps: seq<Step>, e: System)
    decreases |steps|
  {
    if steps == [] then s == e
    else Enabled(s, steps[0]) && Runs(Apply(s, steps[0]), steps[1..], e)
  }

  // ------------------------------------------ every claim has its own ticket

  predicate Distinct<T(==)>(xs: seq<T>) {
    forall i, j :: 0 <= i < j < |xs| ==> xs[i] != xs[j]
  }

  lemma DistinctSnoc<T>(xs: seq<T>, x: T)
    requires Distinct(xs) && x !in xs
    ensures Distinct(xs + [x])
  {
  }

  /** Tickets of a thread are numbered up to its counters, and the current one is
      unclaimed as long as the status says so. */
  predicate TicketFits(s: System, ticket: Ticket) {
    ticket in s.claims ==>
      && ticket.thread in s.db.tasks
      && var task := s.db.tasks[ticket.thread];
      match ticket
      case Entry(_, n) => 1 <= n <= task.entries && (n == task.entries ==> task.status != Pending)
      case Accept(_, n) => 1 <= n <= task.accepts && (n == task.accepts ==> task.status != Resuming)
  }

  predicate Counted(db: Db, t: ThreadId) {
    t in db.tasks ==> db.tasks[t].entries >= 1 && (db.tasks[t].status == Resuming ==> db.tasks[t].accepts >= 1)
  }

  ghost predicate TicketInv(s: System) {
    && Distinct(s.claims)
    && (forall t :: Counted(s.db, t))
    && forall ticket :: TicketFits(s, ticket)
  }

  /** Entering `pending` or `resuming` always comes with a new number. */
  lemma TasksAdvance(s: System, e: Step, t: ThreadId)
    requires Enabled(s, e) && t in s.db.tasks
    ensures
      var s' := Apply(s, e);
      && t in s'.db.tasks
      && var a, b := s.db.tasks[t], s'.db.tasks[t];
      && (b.entries == a.entries || (b.entries == a.entries + 1 && b.status == Pending))
      && (b.accepts == a.accepts || (b.accepts == a.accepts + 1 && b.status == Resuming))
      && (b.entries == a.entries && b.status == Pending ==> a.status == Pending)
      && (b.accepts == a.accepts && b.status == Resuming ==> a.status == Resuming)
  {
  }

  lemma ClaimsGrow(s: System, e: Step)
    requires Enabled(s, e)
    ensures
      var s' := Apply(s, e);
      || s'.claims == s.claims
      || (exists t ::
           && t in s.db.tasks && t in s'.db.tasks && s'.db.tasks[t] == s.db.tasks[t].(status := Running)
           && (|| (Is(s.db, t, Pending) && s'.claims == s.claims + [Entry(t, s.db.tasks[t].entries)])
               || (Is(s.db, t, Resuming) && s'.claims == s.claims + [Accept(t, s.db.tasks[t].accepts)])))
  {
  }

  lemma CountsGrow(s: System, e: Step, t: ThreadId)
    requires Enabled(s, e) && Counted(s.db, t)
    ensures Counted(Apply(s, e).db, t)
  {
  }

  lemma StepKeepsTickets(s: System, e: Step)
    requires TicketInv(s) && Enabled(s, e)
    ensures TicketInv(Apply(s, e))
  {
    var s' := Apply(s, e);
    forall t
      ensures Counted(s'.db, t)
    {
      CountsGrow(s, e, t);
    }
    ClaimsGrow(s, e);
    if s'.claims != s.claims {
      var ticket := s'.claims[|s.claims|];
      assert TicketFits(s, ticket) && Counted(s.db, ticket.thread);
      DistinctSnoc(s.claims, ticket);
    }
    forall ticket
      ensures TicketFits(s', ticket)
    {
      assert TicketFits(s, ticket);
      if ticket in s.claims {
        TasksAdvance(s, e, ticket.thread);
      }
    }
  }

  lemma {:induction false} RunKeepsTickets(s: System, steps: seq<Step>, e: System)
    requires TicketInv(s) && Runs(s, steps, e)
    ensures TicketInv(e)
    decreases |steps|
  {
    if steps == [] {
    } else {
      StepKeepsTickets(s, steps[0]);
      RunKeepsTickets(Apply(s, steps[0]), steps[1..], e);
    }
  }

  /** Under every interleaving each entry into `pending` and each accepted resume
      is claimed at most once: the claims are distinct numbers from 1 to the
      thread's counters. */
  lemma ClaimedAtMostOnce(steps: seq<Step>, e: System, ticket: Ticket)
    requires Runs(START, steps, e)
    ensures Distinct(e.claims)
    ensures ticket in e.claims ==>
      ticket.thread in e.db.tasks && 1 <= ticket.number <=
        if ticket.Entry? then e.db.tasks[ticket.thread].entries else e.db.tasks[ticket.thread].accepts
  {
    RunKeepsTickets(START, steps, e);
    assert TicketFits(e, ticket);
  }

  // ---------------------------------------------------------- resume delivery

  /** The last accepted resume of a thread waits to be claimed. */
  predicate Waiting(s: System, t: ThreadId) {
    var last := Newest(s.db.requests, t, false);
    && 0 <= last
    && !s.db.requests[last].consumed
    && last !in s.delivered
    && forall h :: h in s.handlers && s.handlers[h].Claimed? ==> s.handlers[h].req != last
  }

  predicate HandlerFits(s: System, h: HandlerId) {
    h in s.handlers ==>
      match s.handlers[h]
      case Chosen(t, req, total) =>
        && req < total <= |s.db.requests| && s.db.requests[req].thread == t
        && (Is(s.db, t, Resuming) && Newest(s.db.requests, t, false) < total ==>
          req == Newest(s.db.requests, t, false))
      case Claimed(t, req) => req < |s.db.requests| && s.db.requests[req].thread == t
      case _ => true
  }

  ghost predicate DeliveryInv(s: System) {
    && (forall r :: r in s.delivered ==> r < |s.db.requests|)
    && (forall h :: HandlerFits(s, h))
    && (forall t :: Is(s.db, t, Resuming) ==> Waiting(s, t))
  }

  /** The newest row depends on the threads only, or on the flags as well. */
  lemma {:induction false} NewestIsUnique(requests: seq<Request>, t: ThreadId, open: bool, r: int)
    requires -1 <= r < |requests|
    requires r >= 0 ==> requests[r].thread == t && (open ==> !requests[r].consumed)
    requires forall i :: r < i < |requests| ==> requests[i].thread != t || (open && requests[i].consumed)
    ensures r == Newest(requests, t, open)
  {
  }

  lemma ConsumeKeepsNewest(db: Db, req: nat, t: ThreadId)
    ensures Newest(Consume(db, req).requests, t, false) == Newest(db.requests, t, false)
  {
    NewestIsUnique(Consume(db, req).requests, t, false, Newest(db.requests, t, false));
  }

  lemma InsertNewest(requests: seq<Request>, t: ThreadId, row: Request)
    ensures Newest(requests + [row], t, false) == if row.thread == t then |requests| else Newest(requests, t, false)
  {
  }

  /** A waiting resume is what a SELECT finds. */
  lemma SelectFindsWaiting(s: System, t: ThreadId)
    requires Waiting(s, t)
    ensures Newest(s.db.requests, t, true) == Newest(s.db.requests, t, false)
  {
  }

  /** What a step does to the requests. */
  lemma RequestsChange(s: System, e: Step)
    requires Enabled(s, e)
    ensures
      var a, b := s.db.requests, Apply(s, e).db.requests;
      || b == a
      || (e.Resume? && Is(s.db, e.thread, Interrupted) && b == a + [Request(e.thread, e.value, false)])
      || (e.Mark? && b == Consume(s.db, s.handlers[e.h].req).requests)
  {
  }

  lemma NewestAfter(s: System, e: Step, t: ThreadId)
    requires Enabled(s, e)
    ensures
      var a, b := s.db.requests, Apply(s, e).db.requests;
      && |a| <= |b|
      && (forall i :: 0 <= i < |a| ==> b[i].thread == a[i].thread)
      && (Newest(b, t, false) == Newest(a, t, false)
          || (e.Resume? && e.thread == t && Is(s.db, t, Interrupted) && Newest(b, t, false) == |a|))
      && (Newest(a, t, false) < 0 || Newest(b, t, false) != Newest(a, t, false)
          || b[Newest(a, t, false)].consumed == a[Newest(a, t, false)].consumed
          || (e.Mark? && s.handlers[e.h].req == Newest(a, t, false)))
  {
    var a, b := s.db.requests, Apply(s, e).db.requests;
    RequestsChange(s, e);
    if e.Resume? && |b| > |a| {
      InsertNewest(a, t, Request(e.thread, e.value, false));
    } else if e.Mark? {
      ConsumeKeepsNewest(s.db, s.handlers[e.h].req, t);
    }
  }

  /** `resuming` is entered only by accepting a resume. */
  lemma ResumingAfter(s: System, e: Step, t: ThreadId)
    requires Enabled(s, e) && Is(Apply(s, e).db, t, Resuming)
    ensures Is(s.db, t, Resuming) || (e.Resume? && e.thread == t && Is(s.db, t, Interrupted))
    ensures e.Cas? && Is(s.db, s.handlers[e.h].thread, Resuming) ==> t != s.handlers[e.h].thread
  {
  }

  lemma SelectKeepsHandler(s: System, h: HandlerId, t: ThreadId)
    requires DeliveryInv(s) && h !in s.handlers
    ensures HandlerFits(SelectRequest(s, h, t), h)
  {
  }

  lemma OldHandlerFits(s: System, e: Step, h: HandlerId)
    requires HandlerFits(s, h) && Enabled(s, e) && h in s.handlers && h in Apply(s, e).handlers
    ensures HandlerFits(Apply(s, e), h)
  {
    var s' := Apply(s, e);
    var t := s'.handlers[h].thread;
    NewestAfter(s, e, t);
    if Is(s'.db, t, Resuming) {
      ResumingAfter(s, e, t);
    }
  }

  lemma StepKeepsHandler(s: System, e: Step, h: HandlerId)
    requires DeliveryInv(s) && Enabled(s, e)
    ensures HandlerFits(Apply(s, e), h)
  {
    assert HandlerFits(s, h);
    if h in s.handlers && h in Apply(s, e).handlers {
      OldHandlerFits(s, e, h);
    } else if e.Select? && e.h == h {
      SelectKeepsHandler(s, h, e.thread);
    }
  }

  lemma DeliveredAfter(s: System, e: Step)
    requires Enabled(s, e)
    ensures
      var s' := Apply(s, e);
      || s'.delivered == s.delivered
      || (e.Cas? && Is(s.db, s.handlers[e.h].thread, Resuming) && s'.delivered == s.delivered + [s.handlers[e.h].req])
  {
  }

  /** A handler that has claimed a request had it before, or has just claimed. */
  lemma ClaimedAfter(s: System, e: Step, h: HandlerId)
    requires Enabled(s, e) && h in Apply(s, e).handlers && Apply(s, e).handlers[h].Claimed?
    ensures h in s.handlers
    ensures s.handlers[h] == Apply(s, e).handlers[h]
      || (e == Cas(h) && Is(s.db, s.handlers[h].thread, Resuming) && Apply(s, e).handlers[h].req == s.handlers[h].req)
  {
  }

  lemma StepKeepsWaiting(s: System, e: Step, t: ThreadId)
    requires DeliveryInv(s) && Enabled(s, e) && Is(Apply(s, e).db, t, Resuming)
    ensures Waiting(Apply(s, e), t)
  {
    var s' := Apply(s, e);
    ResumingAfter(s, e, t);
    NewestAfter(s, e, t);
    DeliveredAfter(s, e);
    if e.Cas? || e.Mark? {
      assert HandlerFits(s, e.h);
    }
    forall h | h in s'.handlers && s'.handlers[h].Claimed?
      ensures s'.handlers[h].req != Newest(s'.db.requests, t, false)
    {
      ClaimedAfter(s, e, h);
      assert HandlerFits(s, h);
    }
  }

  lemma StepKeepsDelivery(s: System, e: Step)
    requires DeliveryInv(s) && Enabled(s, e)
    ensures DeliveryInv(Apply(s, e))
  {
    forall h
      ensures HandlerFits(Apply(s, e), h)
    {
      StepKeepsHandler(s, e, h);
    }
    forall t | Is(Apply(s, e).db, t, Resuming)
      ensures Waiting(Apply(s, e), t)
    {
      StepKeepsWaiting(s, e, t);
    }
    DeliveredAfter(s, e);
    RequestsChange(s, e);
    if e.Cas? {
      assert HandlerFits(s, e.h);
    }
  }

  lemma {:induction false} RunKeepsDelivery(s: System, steps: seq<Step>, e: System)
    requires DeliveryInv(s) && Runs(s, steps, e)
    ensures DeliveryInv(e)
    decreases |steps|
  {
    if steps == [] {
    } else {
      StepKeepsDelivery(s, steps[0]);
      RunKeepsDelivery(Apply(s, steps[0]), steps[1..], e);
    }
  }

  predicate ClaimSucceeds(s: System, h: HandlerId) {
    h in s.handlers && s.handlers[h].Chosen? && Is(s.db, s.handlers[h].thread, Resuming)
  }

  /** No resume of the thread was accepted between the SELECT and the update. */
  predicate Prompt(s: System, h: HandlerId)
    requires ClaimSucceeds(s, h)
  {
    Newest(s.db.requests, s.handlers[h].thread, false) < s.handlers[h].total
  }

  /** In every reachable state, a claim delivers the most recently accepted value
      of its thread exactly when no resume was accepted since its SELECT. */
  lemma DeliversNewestIffPrompt(steps: seq<Step>, e: System, h: HandlerId)
    requires Runs(START, steps, e) && ClaimSucceeds(e, h)
    ensures
      Apply(e, Cas(h)).delivered == e.delivered + [Newest(e.db.requests, e.handlers[h].thread, false)]
      <==> Prompt(e, h)
  {
    RunKeepsDelivery(START, steps, e);
    assert HandlerFits(e, h);
    var newest := Newest(e.db.requests, e.handlers[h].thread, false);
    assert Apply(e, Cas(h)).delivered[|e.delivered|] == e.handlers[h].req;
  }

  /** Runs whose claims are prompt, as they are when the SELECT, the update and
      the marking are one transaction. */
  predicate PromptRuns(s: System, steps: seq<Step>, e: System)
    decreases |steps|
  {
    if steps == [] then s == e
    else
      && Enabled(s, steps[0])
      && (steps[0].Cas? && ClaimSucceeds(s, steps[0].h) ==> Prompt(s, steps[0].h))
      && PromptRuns(Apply(s, steps[0]), steps[1..], e)
  }

  lemma PromptClaimIsNew(s: System, e: Step)
    requires DeliveryInv(s) && Distinct(s.delivered) && Enabled(s, e)
    requires e.Cas? && ClaimSucceeds(s, e.h) ==> Prompt(s, e.h)
    ensures Distinct(Apply(s, e).delivered)
  {
    DeliveredAfter(s, e);
    if e.Cas? && ClaimSucceeds(s, e.h) {
      assert HandlerFits(s, e.h) && Waiting(s, s.handlers[e.h].thread);
      DistinctSnoc(s.delivered, s.handlers[e.h].req);
    }
  }

  lemma {:induction false} PromptRunDelivers(s: System, steps: seq<Step>, e: System)
    requires DeliveryInv(s) && Distinct(s.delivered) && PromptRuns(s, steps, e)
    ensures DeliveryInv(e) && Distinct(e.delivered)
    decreases |steps|
  {
    if steps == [] {
    } else {
      PromptClaimIsNew(s, steps[0]);
      StepKeepsDelivery(s, steps[0]);
      PromptRunDelivers(Apply(s, steps[0]), steps[1..], e);
    }
  }

  /** With prompt claims every accepted resume value reaches at most one graph run. */
  lemma DeliveredAtMostOnce(steps: seq<Step>, e: System)
    requires PromptRuns(START, steps, e)
    ensures Distinct(e.delivered)
  {
    PromptRunDelivers(START, steps, e);
  }

  /** The row that waited was delivered twice; the value accepted since is still
      open, and the one claim its acceptance allowed has been spent on the other
      row. */
  predicate TwiceAndPassedOver(s: System, t: ThreadId, value: string, e: System) {
    var r, n := Newest(s.db.requests, t, false), |s.db.requests|;
    && r >= 0
    && e.delivered == s.delivered + [r, r]
    && |e.db.requests| == n + 1 && e.db.requests[n] == Request(t, value, false)
    && Is(e.db, t, Running) && Accept(t, e.db.tasks[t].accepts) in e.claims
  }

  lemma {:induction false} Chain(s: System, steps: seq<Step>, m: System, more: seq<Step>, e: System)
    requires Runs(s, steps, m) && Runs(m, more, e)
    ensures Runs(s, steps + more, e)
    decreases |steps|
  {
    if steps == [] {
      assert steps + more == more;
    } else {
      Chain(Apply(s, steps[0]), steps[1..], m, more, e);
      assert (steps + more)[1..] == steps[1..] + more;
    }
  }

  lemma One(s: System, e: Step)
    requires Enabled(s, e)
    ensures Runs(s, [e], Apply(s, e))
  {
  }

  lemma Two(s: System, e: Step, f: Step)
    requires Enabled(s, e) && Enabled(Apply(s, e), f)
    ensures Runs(s, [e] + [f], Apply(Apply(s, e), f))
  {
  }

  predicate Chose(s: System, h: HandlerId, t: ThreadId, r: nat) {
    h in s.handlers && s.handlers[h].Chosen? && s.handlers[h].thread == t && s.handlers[h].req == r
  }

  lemma BothChoose(s: System, t: ThreadId, h1: HandlerId, h2: HandlerId) returns (e: System)
    requires Waiting(s, t) && h1 !in s.handlers && h2 !in s.handlers && h1 != h2
    ensures Runs(s, [Select(h1, t)] + [Select(h2, t)], e) && e == s.(handlers := e.handlers)
    ensures Chose(e, h1, t, Newest(s.db.requests, t, false)) && Chose(e, h2, t, Newest(s.db.requests, t, false))
  {
    SelectFindsWaiting(s, t);
    Two(s, Select(h1, t), Select(h2, t));
    e := Apply(Apply(s, Select(h1, t)), Select(h2, t));
  }

  lemma FirstDelivers(s: System, t: ThreadId, r: nat, h1: HandlerId, h2: HandlerId) returns (e: System)
    requires Chose(s, h1, t, r) && Chose(s, h2, t, r) && h1 != h2 && Is(s.db, t, Resuming)
    ensures Runs(s, [Cas(h1)] + [Mark(h1)] + [Finish(h1, Interrupts)], e)
    ensures e.delivered == s.delivered + [r] && |e.db.requests| == |s.db.requests|
    ensures Is(e.db, t, Interrupted) && Chose(e, h2, t, r)
  {
    Two(s, Cas(h1), Mark(h1));
    var m := Apply(Apply(s, Cas(h1)), Mark(h1));
    e := Apply(m, Finish(h1, Interrupts));
    One(m, Finish(h1, Interrupts));
    Chain(s, [Cas(h1)] + [Mark(h1)], m, [Finish(h1, Interrupts)], e);
  }

  lemma SecondDelivers(s: System, t: ThreadId, r: nat, h2: HandlerId, value: string) returns (e: System)
    requires Chose(s, h2, t, r) && Is(s.db, t, Interrupted)
    ensures Runs(s, [Resume(t, value)] + [Cas(h2)], e)
    ensures e.delivered == s.delivered + [r] && e.db.requests == s.db.requests + [Request(t, value, false)]
    ensures Is(e.db, t, Running) && Accept(t, e.db.tasks[t].accepts) in e.claims
  {
    Two(s, Resume(t, value), Cas(h2));
    var m := Apply(s, Resume(t, value));
    e := Apply(m, Cas(h2));
    assert e.claims[|m.claims|] == Accept(t, e.db.tasks[t].accepts);
  }

  /** Without a transaction it is not so: two workers that answer the same
      duplicated notification both choose the waiting row; when the second one
      stalls until the next resume is accepted, it delivers the old value again
      and uses up the claim of the new one. */
  lemma StalledWorkerDeliversTwice(s: System, t: ThreadId, h1: HandlerId, h2: HandlerId, value: string)
    returns (steps: seq<Step>, e: System)
    requires Is(s.db, t, Resuming) && Waiting(s, t) && h1 !in s.handlers && h2 !in s.handlers && h1 != h2
    ensures Runs(s, steps, e) && TwiceAndPassedOver(s, t, value, e)
  {
    var r := Newest(s.db.requests, t, false);
    var m1 := BothChoose(s, t, h1, h2);
    var m2 := FirstDelivers(m1, t, r, h1, h2);
    e := SecondDelivers(m2, t, r, h2, value);
    assert e.delivered == s.delivered + [r, r];
    steps := Chain3(s, [Select(h1, t)] + [Select(h2, t)],
                    m1, [Cas(h1)] + [Mark(h1)] + [Finish(h1, Interrupts)],
                    m2, [Resume(t, value)] + [Cas(h2)], e);
  }

  lemma Chain3(s: System, a: seq<Step>, m1: System, b: seq<Step>, m2: System, c: seq<Step>, e: System)
    returns (steps: seq<Step>)
    requires Runs(s, a, m1) && Runs(m1, b, m2) && Runs(m2, c, e)
    ensures Runs(s, steps, e)
  {
    steps := a + b + c;
    Chain(s, a, m1, b, m2);
    Chain(s, a + b, m2, c, e);
  }

  lemma ConsumedStaysOnce(s: System, e: Step, r: nat)
    requires Enabled(s, e) && r < |s.db.requests| && s.db.requests[r].consumed
    ensures r < |Apply(s, e).db.requests| && Apply(s, e).db.requests[r].consumed
  {
    RequestsChange(s, e);
  }

  lemma {:induction false} ConsumedStays(s: System, steps: seq<Step>, e: System, r: nat)
    requires Runs(s, steps, e) && r < |s.db.requests| && s.db.requests[r].consumed
    ensures r < |e.db.requests| && e.db.requests[r].consumed
    decreases |steps|
  {
    if steps == [] {
    } else {
      ConsumedStaysOnce(s, steps[0], r);
      ConsumedStays(Apply(s, steps[0]), steps[1..], e, r);
    }
  }

  /** A marked row is over: whatever happens afterwards, no SELECT finds it. */
  lemma MarkedIsNotChosenAgain(s: System, h: HandlerId, steps: seq<Step>, e: System, t: ThreadId)
    requires DeliveryInv(s) && Enabled(s, Mark(h)) && Runs(Apply(s, Mark(h)), steps, e)
    ensures Newest(e.db.requests, t, true) != s.handlers[h].req
  {
    assert HandlerFits(s, h);
    ConsumedStays(Apply(s, Mark(h)), steps, e, s.handlers[h].req);
  }

  // --------------------------------------------------------- mutual exclusion

  /** Past its claim, a handler works on its thread. */
  predicate Live(s: System, h: HandlerId) {
    h in s.handlers && !s.handlers[h].Chosen?
  }

  ghost predicate HasLive(s: System, t: ThreadId) {
    exists h :: Live(s, h) && s.handlers[h].thread == t
  }

  /** At most one handler works on a thread, and the thread's status says so. */
  ghost predicate Exclusive(s: System) {
    && (forall h :: Live(s, h) ==> Is(s.db, s.handlers[h].thread, Running))
    && (forall h, k :: Live(s, h) && Live(s, k) && s.handlers[h].thread == s.handlers[k].thread ==> h == k)
  }

  /** The three statements that write a status without looking at it. */
  predicate Overrides(s: System, e: Step) {
    match e
    case Create(t) => true
    case Cancel(t) => t in s.db.tasks && !Done(s.db.tasks[t].status)
    case Fix(t) => true
    case _ => false
  }

  /** A step keeps the exclusion exactly when it does not override the status of
      a thread that a handler is working on. */
  lemma ExclusiveAfterIff(s: System, e: Step)
    requires Exclusive(s) && Enabled(s, e)
    ensures Exclusive(Apply(s, e)) <==> !(Overrides(s, e) && HasLive(s, e.thread))
  {
    var s' := Apply(s, e);
    if Overrides(s, e) {
      OverrideIff(s, e);
    } else {
      ClaimsKeepExclusive(s, e);
    }
  }

  lemma OverrideIff(s: System, e: Step)
    requires Exclusive(s) && Enabled(s, e) && Overrides(s, e)
    ensures Exclusive(Apply(s, e)) <==> !HasLive(s, e.thread)
  {
  }

  /** Where the live handlers come from, and that only the working handler's own
      steps change the status of its thread. */
  lemma LiveAfter(s: System, e: Step, h: HandlerId)
    requires Exclusive(s) && Enabled(s, e) && !Overrides(s, e) && Live(Apply(s, e), h)
    ensures
      var s' := Apply(s, e);
      var t := s'.handlers[h].thread;
      && Is(s'.db, t, Running)
      && ((Live(s, h) && s.handlers[h].thread == t) || Is(s.db, t, Pending) || Is(s.db, t, Resuming))
      && (!Live(s, h) ==> (e.ClaimNew? || e.Cas?) && e.h == h)
  {
    if Live(s, h) {
      assert Is(s.db, s.handlers[h].thread, Running);
      if (e.Finish? || e.Fail?) && e.h != h {
        assert Live(s, e.h);
      }
    }
  }

  lemma ClaimsKeepExclusive(s: System, e: Step)
    requires Exclusive(s) && Enabled(s, e) && !Overrides(s, e)
    ensures Exclusive(Apply(s, e))
  {
    var s' := Apply(s, e);
    forall h | Live(s', h)
      ensures Is(s'.db, s'.handlers[h].thread, Running)
    {
      LiveAfter(s, e, h);
    }
    forall h, k | Live(s', h) && Live(s', k) && s'.handlers[h].thread == s'.handlers[k].thread
      ensures h == k
    {
      LiveAfter(s, e, h);
      LiveAfter(s, e, k);
    }
  }

  /** Once a live handler's task is pending again, one notification is enough for
      a second handler. */
  lemma SecondHandler(s: System, h: HandlerId, k: HandlerId)
    requires Live(s, h) && Is(s.db, s.handlers[h].thread, Pending) && k !in s.handlers
    ensures
      var s' := Apply(s, ClaimNew(k, s.handlers[h].thread));
      Live(s', h) && Live(s', k) && h != k && s'.handlers[h].thread == s'.handlers[k].thread
  {
  }

  /** No cancel; a follow-up only where the interface allows it, on a finished
      thread; recovery writes only where no handler is at work. */
  ghost predicate Polite(s: System, e: Step) {
    match e
    case Create(t) => t !in s.db.tasks || Done(s.db.tasks[t].status)
    case Cancel(_) => false
    case Fix(t) => !HasLive(s, t)
    case _ => true
  }

  ghost predicate PoliteRuns(s: System, steps: seq<Step>, e: System)
    decreases |steps|
  {
    if steps == [] then s == e
    else Enabled(s, steps[0]) && Polite(s, steps[0]) && PoliteRuns(Apply(s, steps[0]), steps[1..], e)
  }

  lemma {:induction false} PoliteRunIsExclusive(s: System, steps: seq<Step>, e: System)
    requires Exclusive(s) && PoliteRuns(s, steps, e)
    ensures Exclusive(e)
    decreases |steps|
  {
    if steps == [] {
    } else {
      ExclusiveAfterIff(s, steps[0]);
      PoliteRunIsExclusive(Apply(s, steps[0]), steps[1..], e);
    }
  }

  /** At most one handler works on a thread, and then its task is running. */
  lemma MutualExclusion(steps: seq<Step>, e: System, h: HandlerId, k: HandlerId)
    requires PoliteRuns(START, steps, e)
    requires Live(e, h) && Live(e, k) && e.handlers[h].thread == e.handlers[k].thread
    ensures h == k && Is(e.db, e.handlers[h].thread, Running)
  {
    PoliteRunIsExclusive(START, steps, e);
  }

  // ---------------------------------------------------- what becomes of a task

  /** The task of `t` goes from `a` to `b` by this step. */
  predicate Leads(s: System, e: Step, t: ThreadId, a: Status, b: Status)
    requires Enabled(s, e)
  {
    match e
    case Create(u) => u == t && b == Pending
    case Resume(u, _) => u == t && a == Interrupted && b == Resuming
    case Cancel(u) => u == t && a !in {Completed, Failed, Cancelled} && b == Cancelled
    case ClaimNew(_, u) => u == t && a == Pending && b == Running
    case Cas(h) => s.handlers[h].thread == t && a == Resuming && b == Running
    case Finish(h, outcome) =>
      && s.handlers[h].thread == t && a == Running
      && ((outcome == Interrupts && b == Interrupted) || (outcome == Completes && b == Completed))
    case Fail(h) => s.handlers[h].thread == t && a == Running && b == Failed
    case Fix(u) => u == t && b == Completed
    case _ => false
  }

  /** While the exclusion holds, every change of a status is one of these and each
      of these takes place: an unconditional write of a handler, too, only ever
      meets a running task. */
  lemma StatusFollows(s: System, e: Step, t: ThreadId, b: Status)
    requires Exclusive(s) && Enabled(s, e) && t in s.db.tasks
    ensures
      var a := s.db.tasks[t].status;
      Is(Apply(s, e).db, t, b) <==> Leads(s, e, t, a, b) || (a == b && forall c :: !Leads(s, e, t, a, c))
  {
    var a := s.db.tasks[t].status;
    if e.Finish? || e.Fail? {
      assert Live(s, e.h);
    }
    var s' := Apply(s, e);
    assert t in s'.db.tasks;
    var c := s'.db.tasks[t].status;
    assert c != a ==> Leads(s, e, t, a, c);
    assert forall d :: Leads(s, e, t, a, d) ==> d == c;
  }

  /** A run that is done leaves its thread open to a resume exactly when it was
      interrupted. */
  lemma ResumableIffInterrupted(steps: seq<Step>, e: System, h: HandlerId, outcome: Outcome, value: string)
    requires PoliteRuns(START, steps, e) && Enabled(e, Finish(h, outcome))
    ensures
      var t := e.handlers[h].thread;
      var done := Apply(e, Finish(h, outcome));
      Is(Apply(done, Resume(t, value)).db, t, Resuming) <==> outcome == Interrupts
  {
    PoliteRunIsExclusive(START, steps, e);
    assert Live(e, h);
  }

  predicate Recreates(steps: seq<Step>, t: ThreadId) {
    exists i :: 0 <= i < |steps| && steps[i] == Create(t)
  }

  /** Cancelled with nobody at work on it, a task stays cancelled and is claimed by
      nobody, until the thread gets a new one. */
  lemma {:induction false} CancelStands(s: System, steps: seq<Step>, e: System, t: ThreadId)
    requires Is(s.db, t, Cancelled) && !HasLive(s, t) && t !in s.scanned
    requires Runs(s, steps, e) && !Recreates(steps, t)
    ensures Is(e.db, t, Cancelled) && !HasLive(e, t)
    ensures forall ticket :: ticket in e.claims && ticket.thread == t ==> ticket in s.claims
    decreases |steps|
  {
    if steps == [] {
    } else {
      assert steps[0] != Create(t);
      CancelStandsOnce(s, steps[0], t);
      assert forall i :: 0 <= i < |steps| - 1 ==> steps[1..][i] == steps[i + 1];
      CancelStands(Apply(s, steps[0]), steps[1..], e, t);
    }
  }

  lemma CancelStandsOnce(s: System, e: Step, t: ThreadId)
    requires Is(s.db, t, Cancelled) && !HasLive(s, t) && t !in s.scanned && Enabled(s, e) && e != Create(t)
    ensures
      var s' := Apply(s, e);
      && Is(s'.db, t, Cancelled) && !HasLive(s', t) && t !in s'.scanned
      && forall ticket :: ticket in s'.claims && ticket.thread == t ==> ticket in s.claims
  {
    var s' := Apply(s, e);
    forall h | Live(s', h)
      ensures s'.handlers[h].thread != t
    {
      if Live(s, h) {
        assert s.handlers[h].thread != t;
      }
    }
    if e.Finish? || e.Fail? {
      assert Live(s, e.h);
    }
  }

  /** With a handler at work, the end of its run overwrites the cancel, and so does
      the failure of a resumed one. */
  lemma CancelIsOverwritten(s: System, h: HandlerId, outcome: Outcome)
    requires Exclusive(s) && h in s.handlers && InGraph(s.handlers[h])
    ensures
      var t := s.handlers[h].thread;
      var cancelled := Apply(s, Cancel(t));
      && Is(cancelled.db, t, Cancelled)
      && (Is(Apply(cancelled, Finish(h, outcome)).db, t, Cancelled) <==> outcome == StopsEarly)
      && (Is(Apply(cancelled, Fail(h)).db, t, Cancelled) <==> s.handlers[h].InNewTask?)
  {
    assert Live(s, h);
  }
}
