/** The server side of the event stream for one thread (`api/sse.py`): LISTEN,
    then SELECT what was missed, then drain the notification queue.

    Commits, notifications and the steps of the stream interleave in any order.
    Row number n of the thread's log is the event with sequence number n. */
module EventStream {
  import opened SseWire
  import opened Wrappers

  type ThreadId = string

  /** A stored event; `thread` is the thread id found inside its payload. */
  datatype Row = Row(eventType: string, payload: string, thread: ThreadId)

  datatype Item =
    | Pg(thread: ThreadId, seqNo: nat)
    | Redis(eventType: string, thread: ThreadId, payload: string)

  datatype Phase = Listening | Replaying(missed: seq<(nat, Row)>) | Live

  const QUEUE_SIZE := 200

  /** One connection.  The last four fields are its history: how many of the
      thread's notifications were sent before it listened and how many it has
      taken, the last row its SELECT saw, and whether the queue dropped one. */
  datatype Connection = Connection(
    cursor: nat,
    phase: Phase,
    queue: seq<Item>,
    sent: set<(ThreadId, nat)>,
    out: seq<Frame>,
    mark: nat,
    popped: nat,
    high: nat,
    overflowed: bool)

  function Listen(cursor: nat, notified: nat): Connection {
    Connection(cursor, Listening, [], {}, [], notified, notified, cursor, false)
  }

  predicate Own(thread: ThreadId, item: Item) {
    item.Pg? && item.thread == thread
  }

  /** A full queue drops the item; the history notes when it was the thread's. */
  function Enqueue(thread: ThreadId, c: Connection, item: Item): Connection {
    if |c.queue| < QUEUE_SIZE then c.(queue := c.queue + [item])
    else if Own(thread, item) then c.(overflowed := true)
    else c
  }

  /** `WHERE seq > cursor ORDER BY seq` */
  function Missed(log: seq<Row>, cursor: nat): seq<(nat, Row)> {
    if cursor >= |log| then []
    else seq(|log| - cursor, i requires 0 <= i < |log| - cursor => (cursor + 1 + i, log[cursor + i]))
  }

  function Select(c: Connection, log: seq<Row>): Connection {
    c.(phase := Replaying(Missed(log, c.cursor)), high := if c.cursor < |log| then |log| else c.cursor)
  }

  function ReplayOne(c: Connection): Connection
    requires c.phase.Replaying?
  {
    if c.phase.missed == [] then c.(phase := Live)
    else
      var (n, row) := c.phase.missed[0];
      c.(phase := Replaying(c.phase.missed[1..]),
         sent := c.sent + {(row.thread, n)},
         out := c.out + [Persistent(n, row.eventType, row.payload)])
  }

  /** One item of the queue, for a stream filtered to `thread`. */
  function TakeOne(thread: ThreadId, log: seq<Row>, c: Connection): Connection
    requires c.queue != []
  {
    var rest := c.(queue := c.queue[1..]);
    match c.queue[0]
    case Pg(t, n) =>
      var taken := if t == thread then rest.(popped := rest.popped + 1) else rest;
      if (t, n) in c.sent || t != thread || n == 0 || n > |log| then taken
      else
        var row := log[n - 1];
        taken.(out := c.out + [Persistent(n, row.eventType, row.payload)], sent := c.sent + {(t, n)})
    case Redis(ty, t, p) =>
      if t != thread then rest else rest.(out := c.out + [Transient(ty, p)])
  }

  function Idle(c: Connection): Connection {
    c.(out := c.out + [Keepalive])
  }

  /** The database, the notification channel and one connection to it. */
  datatype System = System(log: seq<Row>, notified: nat, conn: Option<Connection>)

  datatype Step =
    | Commit(row: Row)
    | NotifyNext
    | Publish(item: Item)
    | Connect(cursor: nat)
    | SelectMissed
    | Replay
    | Take
    | KeepaliveTick
    | Drop

  predicate Enabled(thread: ThreadId, s: System, e: Step) {
    match e
    case Commit(row) => true
    case NotifyNext => s.notified < |s.log|
    case Publish(item) => !Own(thread, item)
    case Connect(_) => s.conn.None?
    case SelectMissed => s.conn.Some? && s.conn.value.phase.Listening?
    case Replay => s.conn.Some? && s.conn.value.phase.Replaying?
    case Take => s.conn.Some? && s.conn.value.phase.Live? && s.conn.value.queue != []
    case KeepaliveTick => s.conn.Some? && s.conn.value.phase.Live? && s.conn.value.queue == []
    case Drop => s.conn.Some?
  }

  /** The thread's own notifications come in seq order; anything may come from
      other threads and from the transient channel. */
  function Apply(thread: ThreadId, s: System, e: Step): System
    requires Enabled(thread, s, e)
  {
    match e
    case Commit(row) => s.(log := s.log + [row])
    case NotifyNext =>
      s.(notified := s.notified + 1,
         conn := if s.conn.None? then None else Some(Enqueue(thread, s.conn.value, Pg(thread, s.notified + 1))))
    case Publish(item) => s.(conn := if s.conn.None? then None else Some(Enqueue(thread, s.conn.value, item)))
    case Connect(cursor) => s.(conn := Some(Listen(cursor, s.notified)))
    case SelectMissed => s.(conn := Some(Select(s.conn.value, s.log)))
    case Replay => s.(conn := Some(ReplayOne(s.conn.value)))
    case Take => s.(conn := Some(TakeOne(thread, s.log, s.conn.value)))
    case KeepaliveTick => s.(conn := Some(Idle(s.conn.value)))
    case Drop => s.(conn := None)
  }

  predicate Runs(thread: ThreadId, s: System, steps: seq<Step>, e: System)
    decreases |steps|
  {
    if steps == [] then s == e
    else Enabled(thread, s, steps[0]) && Runs(thread, Apply(thread, s, steps[0]), steps[1..], e)
  }

  // ---------------------------------------------------- the generator object

  /** The local state of `event_generator` while it serves one connection. */
  class EventGenerator {
    const thread: ThreadId
    const effectiveLastSeq: nat
    var queue: seq<Item>
    var sentEvents: set<(ThreadId, nat)>
    var yielded: seq<Frame>

    constructor (thread: ThreadId, effectiveLastSeq: nat)
      ensures this.thread == thread && this.effectiveLastSeq == effectiveLastSeq
      ensures queue == [] && sentEvents == {} && yielded == []
    {
      this.thread, this.effectiveLastSeq := thread, effectiveLastSeq;
      queue, sentEvents, yielded := [], {}, [];
    }

    /** These fields are those of `c`. */
    ghost predicate Shows(c: Connection)
      reads this
    {
      queue == c.queue && sentEvents == c.sent && yielded == c.out && effectiveLastSeq == c.cursor
    }

    method OnNotify(item: Item, ghost c: Connection)
      requires Shows(c)
      modifies this`queue
      ensures Shows(Enqueue(thread, c, item))
    {
      if |queue| < QUEUE_SIZE {
        queue := queue + [item];
      }
    }

    /** The loop over the missed rows, all at once. */
    method ReplayAll(missed: seq<(nat, Row)>, ghost c: Connection)
      requires Shows(c) && c.phase == Replaying(missed)
      modifies this`sentEvents, this`yielded
      ensures Shows(ReplayedAll(c)) && ReplayedAll(c).phase == Live
    {
      ghost var d := c;
      for k := 0 to |missed|
        invariant Shows(d) && d.phase == Replaying(missed[k..])
        invariant ReplayedAll(d) == ReplayedAll(c)
      {
        var (n, row) := missed[k];
        sentEvents := sentEvents + {(row.thread, n)};
        yielded := yielded + [Persistent(n, row.eventType, row.payload)];
        d := ReplayOne(d);
        assert missed[k..][1..] == missed[k + 1..];
      }
      assert ReplayedAll(d) == ReplayOne(d);
    }

    /** One turn of the live loop with something in the queue. */
    method TakeItem(log: seq<Row>, ghost c: Connection)
      requires Shows(c) && queue != []
      modifies this
      ensures Shows(TakeOne(thread, log, c))
    {
      var item := queue[0];
      queue := queue[1..];
      match item
      case Pg(t, n) =>
        if (t, n) in sentEvents {
          return;
        }
        if t != thread {
          return;
        }
        if 0 < n <= |log| {
          var row := log[n - 1];
          yielded := yielded + [Persistent(n, row.eventType, row.payload)];
          sentEvents := sentEvents + {(t, n)};
        }
      case Redis(ty, t, p) =>
        if t == thread {
          yielded := yielded + [Transient(ty, p)];
        }
    }
  }

  function ReplayedAll(c: Connection): Connection
    requires c.phase.Replaying?
    decreases |c.phase.missed|
  {
    if c.phase.missed == [] then ReplayOne(c) else ReplayedAll(ReplayOne(c))
  }

  // ------------------------------------------------------------ no gap, no repeat

  /** The numbers a+1, ..., b. */
  function Range(a: nat, b: nat): seq<nat> {
    if b <= a then [] else seq(b - a, i => a + 1 + i)
  }

  function Min(a: nat, b: nat): nat {
    if a < b then a else b
  }

  function Max(a: nat, b: nat): nat {
    if a < b then b else a
  }

  /** The sequence numbers of the persistent frames of a stream. */
  function Persisted(out: seq<Frame>): seq<nat> {
    if out == [] then []
    else
      var f := out[|out| - 1];
      Persisted(out[..|out| - 1]) + if f.Persistent? then [f.seqNo] else []
  }

  /** The thread's own notifications waiting in a queue. */
  function OwnSeqs(thread: ThreadId, queue: seq<Item>): seq<nat> {
    if queue == [] then []
    else (if Own(thread, queue[0]) then [queue[0].seqNo] else []) + OwnSeqs(thread, queue[1..])
  }

  lemma PersistedSnoc(out: seq<Frame>, f: Frame)
    ensures Persisted(out + [f]) == Persisted(out) + if f.Persistent? then [f.seqNo] else []
  {
  }

  lemma {:induction false} OwnSeqsSnoc(thread: ThreadId, queue: seq<Item>, item: Item)
    ensures
      OwnSeqs(thread, queue + [item]) ==
      OwnSeqs(thread, queue) + if Own(thread, item) then [item.seqNo] else []
  {
    var last := if Own(thread, item) then [item.seqNo] else [];
    if queue == [] {
      assert queue + [item] == [item] && [item][1..] == [];
      assert OwnSeqs(thread, [item]) == last + [];
    } else {
      var first := if Own(thread, queue[0]) then [queue[0].seqNo] else [];
      assert (queue + [item])[1..] == queue[1..] + [item];
      OwnSeqsSnoc(thread, queue[1..], item);
      assert first + (OwnSeqs(thread, queue[1..]) + last) == first + OwnSeqs(thread, queue[1..]) + last;
    }
  }

  lemma RangeSnoc(a: nat, b: nat)
    requires a <= b
    ensures Range(a, b + 1) == Range(a, b) + [b + 1]
  {
  }

  predicate FrameFits(f: Frame, log: seq<Row>) {
    f.Persistent? ==>
      && 1 <= f.seqNo <= |log|
      && f == Persistent(f.seqNo, log[f.seqNo - 1].eventType, log[f.seqNo - 1].payload)
  }

  /** Every persistent frame carries the row of its number. */
  predicate FramesAreRows(out: seq<Frame>, log: seq<Row>) {
    forall i :: 0 <= i < |out| ==> FrameFits(out[i], log)
  }

  /** The last number sent, were the client's cursor honest. */
  function Reached(c: Connection): nat {
    match c.phase
    case Listening => c.cursor
    case Replaying(missed) => c.high - Min(c.high, |missed|)
    case Live => Max(c.high, c.popped)
  }

  /** How far the rows SELECT found have been replayed. */
  function Replayed(c: Connection): nat {
    if c.phase.Live? then c.high else Reached(c)
  }

  /** Row n lies between the two numbers, and its payload names the thread. */
  predicate Found(thread: ThreadId, log: seq<Row>, low: nat, high: nat, n: nat) {
    low < n <= high && n <= |log| && log[n - 1].thread == thread
  }

  /** The numbers of the notifications mark+1, ..., popped that are not
      recognised as sent: those that SELECT did not find under this thread. */
  function Taken(thread: ThreadId, log: seq<Row>, low: nat, high: nat, mark: nat, popped: nat): seq<nat>
    decreases popped
  {
    if popped <= mark then []
    else Taken(thread, log, low, high, mark, popped - 1) + if Found(thread, log, low, high, popped) then [] else [popped]
  }

  /** What the persistent frames of a connection are, exactly: what SELECT
      found, then what was taken from the queue and not recognised. */
  function Expected(thread: ThreadId, log: seq<Row>, c: Connection): seq<nat> {
    match c.phase
    case Listening => []
    case Replaying(_) => Range(c.cursor, Reached(c))
    case Live => Range(c.cursor, c.high) + Taken(thread, log, c.cursor, c.high, c.mark, c.popped)
  }

  /** Which of the thread's numbers count as sent. */
  predicate CountsAsSent(thread: ThreadId, log: seq<Row>, c: Connection, n: nat) {
    Found(thread, log, c.cursor, Replayed(c), n) || c.mark < n <= c.popped
  }

  ghost predicate SentFits(thread: ThreadId, log: seq<Row>, c: Connection) {
    forall n: nat :: (thread, n) in c.sent <==> CountsAsSent(thread, log, c, n)
  }

  ghost predicate PhaseFits(c: Connection, log: seq<Row>) {
    match c.phase
    case Listening => c.popped == c.mark && c.high == c.cursor
    case Replaying(missed) =>
      && c.popped == c.mark && c.mark <= c.high
      && |missed| <= c.high - c.cursor
      && (forall i :: 0 <= i < |missed| ==>
        missed[i].0 == Reached(c) + 1 + i && missed[i].0 <= |log| && missed[i].1 == log[missed[i].0 - 1])
    case Live => c.mark <= c.high
  }

  ghost predicate Inv(thread: ThreadId, log: seq<Row>, notified: nat, c: Connection) {
    && c.mark <= c.popped <= notified <= |log|
    && c.cursor <= c.high && (c.cursor < c.high ==> c.high <= |log|)
    && OwnSeqs(thread, c.queue) == Range(c.popped, notified)
    && PhaseFits(c, log)
    && SentFits(thread, log, c)
    && Persisted(c.out) == Expected(thread, log, c)
    && FramesAreRows(c.out, log)
  }

  /** Holds as long as the queue has not overflowed. */
  ghost predicate SystemInv(thread: ThreadId, s: System) {
    && s.notified <= |s.log|
    && (s.conn.Some? && !s.conn.value.overflowed ==> Inv(thread, s.log, s.notified, s.conn.value))
  }
}
