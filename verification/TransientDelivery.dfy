/** What a stream sends besides persistent frames: the thread's own transient
    items, in order, and keepalives. */
module TransientDelivery {
  import opened EventStream
  import opened SseWire
  import opened Wrappers
  import StreamDelivery

  /** What the steps of a run have done to the current connection: the items that
      found room in its queue, those taken out of it, and the idle timeouts. */
  datatype History = History(accepted: seq<Item>, taken: seq<Item>, timeouts: nat)

  const NOTHING := History([], [], 0)

  function Offer(c: Connection, item: Item, h: History): History {
    if |c.queue| < QUEUE_SIZE then h.(accepted := h.accepted + [item]) else h
  }

  function Note(thread: ThreadId, s: System, e: Step, h: History): History
    requires Enabled(thread, s, e)
  {
    match e
    case Connect(_) => NOTHING
    case Drop => NOTHING
    case NotifyNext => if s.conn.None? then h else Offer(s.conn.value, Pg(thread, s.notified + 1), h)
    case Publish(item) => if s.conn.None? then h else Offer(s.conn.value, item, h)
    case Take => h.(taken := h.taken + [s.conn.value.queue[0]])
    case KeepaliveTick => h.(timeouts := h.timeouts + 1)
    case _ => h
  }

  /** The history after a run. */
  function HistoryOf(thread: ThreadId, s: System, steps: seq<Step>, h: History): History
    decreases |steps|
  {
    if steps == [] || !Enabled(thread, s, steps[0]) then h
    else HistoryOf(thread, Apply(thread, s, steps[0]), steps[1..], Note(thread, s, steps[0], h))
  }

  /** The transient frames due for these items: one for every item of the thread
      from the transient channel, with its type and payload. */
  function Due(thread: ThreadId, items: seq<Item>): seq<Frame> {
    if items == [] then []
    else
      var last := items[|items| - 1];
      Due(thread, items[..|items| - 1]) +
      if last.Redis? && last.thread == thread then [Transient(last.eventType, last.payload)] else []
  }

  function Transients(out: seq<Frame>): seq<Frame> {
    if out == [] then []
    else
      var last := out[|out| - 1];
      Transients(out[..|out| - 1]) + if last.Transient? then [last] else []
  }

  function Keepalives(out: seq<Frame>): nat {
    if out == [] then 0 else Keepalives(out[..|out| - 1]) + if out[|out| - 1].Keepalive? then 1 else 0
  }

  lemma DueSnoc(thread: ThreadId, items: seq<Item>, item: Item)
    ensures
      Due(thread, items + [item]) ==
      Due(thread, items) +
      if item.Redis? && item.thread == thread then [Transient(item.eventType, item.payload)] else []
  {
    assert (items + [item])[..|items|] == items;
  }

  lemma FrameSnoc(out: seq<Frame>, f: Frame)
    ensures Transients(out + [f]) == if f.Transient? then Transients(out) + [f] else Transients(out)
    ensures Keepalives(out + [f]) == Keepalives(out) + if f.Keepalive? then 1 else 0
  {
    assert (out + [f])[..|out|] == out;
    assert Transients(out) + [] == Transients(out);
  }

  /** What the stream has sent is what is due, and what it has accepted has been
      taken or waits. */
  predicate Fits(thread: ThreadId, c: Connection, h: History) {
    && Transients(c.out) == Due(thread, h.taken)
    && Keepalives(c.out) == h.timeouts
    && h.taken + c.queue == h.accepted
  }

  predicate SystemFits(thread: ThreadId, s: System, h: History) {
    s.conn.Some? ==> Fits(thread, s.conn.value, h)
  }

  lemma OfferFits(thread: ThreadId, c: Connection, item: Item, h: History)
    requires Fits(thread, c, h)
    ensures Fits(thread, Enqueue(thread, c, item), Offer(c, item, h))
  {
    assert h.taken + (c.queue + [item]) == h.taken + c.queue + [item];
  }

  lemma ReplayFits(thread: ThreadId, c: Connection, h: History)
    requires Fits(thread, c, h) && c.phase.Replaying?
    ensures Fits(thread, ReplayOne(c), h)
  {
    if c.phase.missed != [] {
      var (n, row) := c.phase.missed[0];
      FrameSnoc(c.out, Persistent(n, row.eventType, row.payload));
    }
  }

  lemma TakeQueue(c: Connection, h: History)
    requires c.queue != [] && h.taken + c.queue == h.accepted
    ensures h.taken + [c.queue[0]] + c.queue[1..] == h.accepted
  {
    assert c.queue == [c.queue[0]] + c.queue[1..];
  }

  lemma TakeOutput(thread: ThreadId, log: seq<Row>, c: Connection)
    requires c.queue != []
    ensures
      var item, out := c.queue[0], TakeOne(thread, log, c).out;
      && Transients(out) ==
        Transients(c.out) +
        (if item.Redis? && item.thread == thread then [Transient(item.eventType, item.payload)] else [])
      && Keepalives(out) == Keepalives(c.out)
  {
    assert Transients(c.out) + [] == Transients(c.out);
    match c.queue[0]
    case Pg(t, n) =>
      if 0 < n <= |log| {
        FrameSnoc(c.out, Persistent(n, log[n - 1].eventType, log[n - 1].payload));
      }
    case Redis(ty, t, p) => FrameSnoc(c.out, Transient(ty, p));
  }

  lemma TakeFits(thread: ThreadId, log: seq<Row>, c: Connection, h: History)
    requires Fits(thread, c, h) && c.queue != []
    ensures Fits(thread, TakeOne(thread, log, c), h.(taken := h.taken + [c.queue[0]]))
  {
    TakeQueue(c, h);
    TakeOutput(thread, log, c);
    DueSnoc(thread, h.taken, c.queue[0]);
    assert TakeOne(thread, log, c).queue == c.queue[1..];
  }

  lemma StepFits(thread: ThreadId, s: System, e: Step, h: History)
    requires SystemFits(thread, s, h) && Enabled(thread, s, e)
    ensures SystemFits(thread, Apply(thread, s, e), Note(thread, s, e, h))
  {
    if s.conn.Some? {
      var c := s.conn.value;
      match e
      case NotifyNext => OfferFits(thread, c, Pg(thread, s.notified + 1), h);
      case Publish(item) => OfferFits(thread, c, item, h);
      case Replay => ReplayFits(thread, c, h);
      case Take => TakeFits(thread, s.log, c, h);
      case KeepaliveTick => FrameSnoc(c.out, Keepalive);
      case _ =>
    }
  }

  lemma {:induction false} RunFits(thread: ThreadId, s: System, steps: seq<Step>, e: System, h: History)
    requires SystemFits(thread, s, h) && Runs(thread, s, steps, e)
    ensures SystemFits(thread, e, HistoryOf(thread, s, steps, h))
    decreases |steps|
  {
    if steps == [] {
    } else {
      StepFits(thread, s, steps[0], h);
      RunFits(thread, Apply(thread, s, steps[0]), steps[1..], e, Note(thread, s, steps[0], h));
    }
  }

  /** In every run, whether or not the queue has overflowed, the transient frames
      of the current connection are exactly the thread's own transient items it
      has taken from its queue, in order, each with its type and payload; it takes
      what it accepted, first in first out; and there is one keepalive for every
      timeout. */
  lemma TransientsAreOwn(thread: ThreadId, steps: seq<Step>, e: System)
    requires Runs(thread, StreamDelivery.START, steps, e) && e.conn.Some?
    ensures
      var c, h := e.conn.value, HistoryOf(thread, StreamDelivery.START, steps, NOTHING);
      && Transients(c.out) == Due(thread, h.taken)
      && Keepalives(c.out) == h.timeouts
      && h.taken + c.queue == h.accepted
  {
    RunFits(thread, StreamDelivery.START, steps, e, NOTHING);
  }

  /** An item of another thread, from either channel, never adds a frame. */
  lemma ForeignItemAddsNothing(thread: ThreadId, steps: seq<Step>, e: System)
    requires Runs(thread, StreamDelivery.START, steps, e) && Enabled(thread, e, Take)
    requires e.conn.value.queue[0].thread != thread
    ensures Apply(thread, e, Take).conn.value.out == e.conn.value.out
  {
  }
}
