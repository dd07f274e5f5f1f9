/** The client's connection (`frontend/src/lib/sse.ts`) and thread store against
    the server's stream, over any number of disconnects, for one thread.

    `read` decodes a message: none when its type has no listener or its payload
    is not JSON.  Nothing is assumed about which rows can be read. */
module EndToEnd {
  import opened EventStream
  import opened SseWire
  import opened ThreadStore
  import opened Wrappers
  import StreamDelivery

  type Reader = (string, string) -> Option<ThreadStore.Body>

  /** An event the store took in, and whether it came from a row of the log. */
  datatype Accepted = Accepted(event: SseEvent, fromRow: bool)

  /** `lastSeq` survives disconnects; `lastEventId` and the number of received
      frames belong to the current EventSource.  `taken` is history. */
  datatype Client = Client(
    lastSeq: nat,
    lastEventId: Option<nat>,
    received: nat,
    thread: Thread,
    taken: seq<Accepted>)

  function NewClient(intent: string): Client {
    Client(0, None, 0, EmptyThread(intent), [])
  }

  /** The listener of `connect`, then `appendEvent`. */
  function Handle(c: Client, body: Option<ThreadStore.Body>, fromRow: bool): Client {
    if body.None? then c
    else
      var e := SseEvent(if c.lastEventId.Some? then Some(c.lastEventId.value) else None, body.value);
      c.(lastSeq := if c.lastEventId.Some? then Max(c.lastSeq, c.lastEventId.value) else c.lastSeq,
         thread := Receive(c.thread, e),
         taken := if IsDuplicate(c.thread, e) then c.taken else c.taken + [Accepted(e, fromRow)])
  }

  /** By the standard the last event ID stays set until the next id. */
  function Deliver(read: Reader, c: Client, f: Frame): Client {
    var d := c.(received := c.received + 1);
    match f
    case Persistent(n, t, p) => Handle(d.(lastEventId := Some(n)), read(t, p), true)
    case Transient(t, p) => Handle(d, read(t, p), false)
    case Keepalive => d
  }

  /** `lost` is history: some connection's queue has overflowed. */
  datatype World = World(server: System, client: Client, lost: bool)

  datatype Move =
    | Server(step: Step)
    | Reconnect
    | Receipt
    | Disconnect

  /** As every writer's event does; an event without it would go to another
      thread of the client's store. */
  predicate NamesThread(thread: ThreadId, e: Step) {
    e.Commit? ==> e.row.thread == thread
  }

  predicate CanMove(thread: ThreadId, w: World, m: Move) {
    match m
    case Server(e) => !e.Connect? && !e.Drop? && Enabled(thread, w.server, e) && NamesThread(thread, e)
    case Reconnect => w.server.conn.None?
    case Receipt => w.server.conn.Some? && w.client.received < |w.server.conn.value.out|
    case Disconnect => w.server.conn.Some?
  }

  /** Frames not yet received are lost with the connection. */
  function Moved(read: Reader, thread: ThreadId, w: World, m: Move): World
    requires CanMove(thread, w, m)
  {
    match m
    case Server(e) =>
      var s := Apply(thread, w.server, e);
      w.(server := s, lost := w.lost || (s.conn.Some? && s.conn.value.overflowed))
    case Reconnect =>
      w.(server := Apply(thread, w.server, Connect(w.client.lastSeq)),
         client := w.client.(lastEventId := None, received := 0))
    case Receipt =>
      w.(client := Deliver(read, w.client, w.server.conn.value.out[w.client.received]))
    case Disconnect => w.(server := Apply(thread, w.server, Drop))
  }

  predicate Runs(read: Reader, thread: ThreadId, w: World, moves: seq<Move>, e: World)
    decreases |moves|
  {
    if moves == [] then w == e
    else CanMove(thread, w, moves[0]) && Runs(read, thread, Moved(read, thread, w, moves[0]), moves[1..], e)
  }

  // ----------------------------------------------------- what the client holds

  predicate Readable(read: Reader, log: seq<Row>, n: nat) {
    1 <= n <= |log| && read(log[n - 1].eventType, log[n - 1].payload).Some?
  }

  /** The events of the rows 1..k that can be read. */
  function RowEvents(read: Reader, log: seq<Row>, k: nat): seq<SseEvent>
    requires k <= |log|
  {
    if k == 0 then []
    else
      var body := read(log[k - 1].eventType, log[k - 1].payload);
      RowEvents(read, log, k - 1) + if body.Some? then [SseEvent(Some(k), body.value)] else []
  }

  function FromRows(taken: seq<Accepted>): seq<SseEvent> {
    if taken == [] then []
    else
      var last := taken[|taken| - 1];
      FromRows(taken[..|taken| - 1]) + if last.fromRow then [last.event] else []
  }

  function AllEvents(taken: seq<Accepted>): seq<SseEvent> {
    seq(|taken|, i requires 0 <= i < |taken| => taken[i].event)
  }

  /** None of the events was a duplicate when it came. */
  predicate NoneDropped(start: Thread, taken: seq<Accepted>) {
    taken == [] ||
      (var before := taken[..|taken| - 1];
       NoneDropped(start, before) && !IsDuplicate(ReceiveAll(start, AllEvents(before)), taken[|taken| - 1].event))
  }

  lemma FromRowsSnoc(taken: seq<Accepted>, a: Accepted)
    ensures FromRows(taken + [a]) == FromRows(taken) + if a.fromRow then [a.event] else []
  {
  }

  lemma {:induction false} RowEventsGrow(read: Reader, log: seq<Row>, row: Row, k: nat)
    requires k <= |log|
    ensures RowEvents(read, log + [row], k) == RowEvents(read, log, k)
  {
    if k == 0 {
    } else {
      RowEventsGrow(read, log, row, k - 1);
    }
  }

  /** Rows that cannot be read add nothing. */
  lemma {:induction false} SkipUnreadable(read: Reader, log: seq<Row>, k: nat, n: nat)
    requires k <= n <= |log|
    requires forall i :: k < i <= n ==> !Readable(read, log, i)
    ensures RowEvents(read, log, n) == RowEvents(read, log, k)
  {
    if k < n {
      assert !Readable(read, log, n);
      SkipUnreadable(read, log, k, n - 1);
    }
  }

  // --------------------------------------------------------- the high-water mark

  /** The largest of `h` and the numbers sent. */
  function High(h: nat, seqs: seq<nat>): nat {
    if seqs == [] then h else Max(High(h, seqs[..|seqs| - 1]), seqs[|seqs| - 1])
  }

  lemma HighSnoc(h: nat, seqs: seq<nat>, n: nat)
    ensures High(h, seqs + [n]) == Max(High(h, seqs), n)
  {
  }

  /** Sent past the mark it stands at, a number is the next one. */
  predicate NeverSkips(h: nat, seqs: seq<nat>) {
    seqs == [] ||
      (var before := seqs[..|seqs| - 1];
       NeverSkips(h, before) && seqs[|seqs| - 1] <= High(h, before) + 1)
  }

  lemma AppendNext(h: nat, seqs: seq<nat>, n: nat)
    requires NeverSkips(h, seqs) && n <= High(h, seqs) + 1
    ensures NeverSkips(h, seqs + [n]) && High(h, seqs + [n]) == Max(High(h, seqs), n)
  {
    assert (seqs + [n])[..|seqs|] == seqs;
  }

  lemma {:induction false} NeverSkipsAt(h: nat, seqs: seq<nat>, i: nat)
    requires NeverSkips(h, seqs) && i < |seqs|
    ensures seqs[i] <= High(h, seqs[..i]) + 1
    decreases |seqs|
  {
    var k := |seqs| - 1;
    if i == k {
    } else {
      NeverSkipsAt(h, seqs[..k], i);
      assert seqs[..k][..i] == seqs[..i];
    }
  }

  lemma {:induction false} RangeNeverSkips(h: nat, b: nat)
    ensures NeverSkips(h, Range(h, b)) && High(h, Range(h, b)) == Max(h, b)
    decreases b
  {
    if b <= h {
    } else {
      RangeNeverSkips(h, b - 1);
      RangeSnoc(h, b - 1);
      AppendNext(h, Range(h, b - 1), b);
    }
  }

  lemma OneMoreTaken(thread: ThreadId, log: seq<Row>, low: nat, high: nat, mark: nat, popped: nat, seqs: seq<nat>)
    requires mark < popped && seqs == Range(low, high) + Taken(thread, log, low, high, mark, popped - 1)
    ensures
      Range(low, high) + Taken(thread, log, low, high, mark, popped) ==
      if Found(thread, log, low, high, popped) then seqs else seqs + [popped]
  {
    var before := Taken(thread, log, low, high, mark, popped - 1);
    assert before + [] == before;
    assert Range(low, high) + (before + [popped]) == seqs + [popped];
  }

  /** Taking notifications off the queue, recognised or not, never skips. */
  lemma {:induction false} TakenNeverSkips(
    thread: ThreadId, log: seq<Row>, low: nat, high: nat, mark: nat, popped: nat, seqs: seq<nat>)
    requires low <= high && mark <= high && mark <= popped
    requires seqs == Range(low, high) + Taken(thread, log, low, high, mark, popped)
    ensures NeverSkips(low, seqs) && High(low, seqs) == Max(high, popped)
    decreases popped
  {
    if popped == mark {
      RangeNeverSkips(low, high);
      assert seqs == Range(low, high);
    } else {
      var before := Range(low, high) + Taken(thread, log, low, high, mark, popped - 1);
      TakenNeverSkips(thread, log, low, high, mark, popped - 1, before);
      OneMoreTaken(thread, log, low, high, mark, popped, before);
      if !Found(thread, log, low, high, popped) {
        AppendNext(low, before, popped);
      }
    }
  }

  /** No connection ever skips a number, whatever was repeated before. */
  lemma StreamNeverSkips(thread: ThreadId, log: seq<Row>, notified: nat, c: Connection)
    requires Inv(thread, log, notified, c)
    ensures NeverSkips(c.cursor, Persisted(c.out))
    ensures c.phase.Live? ==> High(c.cursor, Persisted(c.out)) == Max(c.high, c.popped)
  {
    match c.phase
    case Listening =>
    case Replaying(_) => RangeNeverSkips(c.cursor, Reached(c));
    case Live => TakenNeverSkips(thread, log, c.cursor, c.high, c.mark, c.popped, Persisted(c.out));
  }

  lemma {:induction false} PersistedPrefix(out: seq<Frame>, i: nat)
    requires i <= |out|
    ensures Persisted(out[..i]) <= Persisted(out)
    decreases |out| - i
  {
    if i < |out| {
      PersistedPrefix(out, i + 1);
      assert out[..i + 1] == out[..i] + [out[i]];
      PersistedSnoc(out[..i], out[i]);
    } else {
      assert out[..i] == out;
    }
  }

  /** The frame at position i never skips. */
  lemma FrameNeverSkips(h: nat, out: seq<Frame>, i: nat)
    requires NeverSkips(h, Persisted(out)) && i < |out| && out[i].Persistent?
    ensures out[i].seqNo <= High(h, Persisted(out[..i])) + 1
    ensures High(h, Persisted(out[..i + 1])) == Max(High(h, Persisted(out[..i])), out[i].seqNo)
  {
    var before := Persisted(out[..i]);
    assert out[..i + 1] == out[..i] + [out[i]];
    PersistedSnoc(out[..i], out[i]);
    HighSnoc(h, before, out[i].seqNo);
    PersistedPrefix(out, i + 1);
    var all := Persisted(out);
    assert all[|before|] == out[i].seqNo && all[..|before|] == before;
    NeverSkipsAt(h, all, |before|);
  }

  // ------------------------------------------------------------- the invariant

  /** What the client has, from its history alone. */
  ghost predicate Holds(read: Reader, log: seq<Row>, c: Client, start: Thread) {
    && c.lastSeq <= |log|
    && c.thread.lastSeq == c.lastSeq
    && c.thread == ReceiveAll(start, AllEvents(c.taken))
    && NoneDropped(start, c.taken)
    && FromRows(c.taken) == RowEvents(read, log, c.lastSeq)
  }

  /** The client is up to date with what it received: no row that it could read
      lies between its cursor and the high-water mark. */
  ghost predicate UpToDate(read: Reader, log: seq<Row>, c: Client, high: nat) {
    && c.lastSeq <= high <= |log|
    && (forall i :: c.lastSeq < i <= high ==> !Readable(read, log, i))
    && (c.lastEventId.Some? ==> 1 <= c.lastEventId.value <= high)
  }

  function Mark(conn: Connection, c: Client): nat
    requires c.received <= |conn.out|
  {
    High(conn.cursor, Persisted(conn.out[..c.received]))
  }

  ghost predicate WorldInv(read: Reader, thread: ThreadId, w: World, start: Thread) {
    && SystemInv(thread, w.server)
    && Holds(read, w.server.log, w.client, start)
    && (w.server.conn.Some? ==>
      && !w.server.conn.value.overflowed
      && w.client.received <= |w.server.conn.value.out|
      && UpToDate(read, w.server.log, w.client, Mark(w.server.conn.value, w.client)))
  }

  lemma AllEventsSnoc(taken: seq<Accepted>, a: Accepted)
    ensures AllEvents(taken + [a]) == AllEvents(taken) + [a.event]
  {
  }

  /** The store takes an event in: the fold goes on. */
  lemma TakeIn(c: Client, e: SseEvent, fromRow: bool, start: Thread)
    requires c.thread == ReceiveAll(start, AllEvents(c.taken)) && NoneDropped(start, c.taken)
    ensures
      var taken := c.taken + [Accepted(e, fromRow)];
      && Receive(c.thread, e) == ReceiveAll(start, AllEvents(taken))
      && (!IsDuplicate(c.thread, e) ==> NoneDropped(start, taken))
      && FromRows(taken) == FromRows(c.taken) + if fromRow then [e] else []
  {
    var taken := c.taken + [Accepted(e, fromRow)];
    assert taken[..|c.taken|] == c.taken;
    AllEventsSnoc(c.taken, Accepted(e, fromRow));
    ReceiveAllSnoc(start, AllEvents(c.taken), e);
    FromRowsSnoc(c.taken, Accepted(e, fromRow));
  }

  lemma RowAdvances(read: Reader, log: seq<Row>, c: Client, high: nat, n: nat)
    requires UpToDate(read, log, c, high) && Readable(read, log, n) && c.lastSeq < n <= high + 1
    ensures n == high + 1
    ensures
      var body := read(log[n - 1].eventType, log[n - 1].payload).value;
      RowEvents(read, log, n) == RowEvents(read, log, c.lastSeq) + [SseEvent(Some(n), body)]
  {
    SkipUnreadable(read, log, c.lastSeq, high);
  }

  lemma RowTakenIn(read: Reader, log: seq<Row>, c: Client, high: nat, f: Frame, start: Thread)
    requires Holds(read, log, c, start) && UpToDate(read, log, c, high)
    requires f.Persistent? && FrameFits(f, log) && c.lastSeq < f.seqNo <= high + 1
    requires read(f.eventType, f.payload).Some?
    ensures Holds(read, log, Deliver(read, c, f), start)
    ensures UpToDate(read, log, Deliver(read, c, f), Max(high, f.seqNo))
  {
    RowAdvances(read, log, c, high, f.seqNo);
    TakeIn(c, SseEvent(Some(f.seqNo), read(f.eventType, f.payload).value), true, start);
  }

  lemma RowDelivered(read: Reader, log: seq<Row>, c: Client, high: nat, f: Frame, start: Thread)
    requires Holds(read, log, c, start) && UpToDate(read, log, c, high)
    requires f.Persistent? && FrameFits(f, log) && f.seqNo <= high + 1
    ensures Holds(read, log, Deliver(read, c, f), start)
    ensures UpToDate(read, log, Deliver(read, c, f), Max(high, f.seqNo))
  {
    if read(f.eventType, f.payload).Some? && f.seqNo > c.lastSeq {
      RowTakenIn(read, log, c, high, f, start);
    } else {
      assert f.seqNo <= high || !Readable(read, log, f.seqNo);
    }
  }

  lemma TransientDelivered(read: Reader, log: seq<Row>, c: Client, high: nat, f: Frame, start: Thread)
    requires Holds(read, log, c, start) && UpToDate(read, log, c, high) && !f.Persistent?
    ensures Holds(read, log, Deliver(read, c, f), start)
    ensures UpToDate(read, log, Deliver(read, c, f), high)
  {
    if f.Transient? && read(f.eventType, f.payload).Some? {
      var id := c.lastEventId;
      var e := SseEvent(if id.Some? then Some(id.value) else None, read(f.eventType, f.payload).value);
      TakeIn(c, e, false, start);
      if id.Some? && id.value > c.lastSeq {
        SkipUnreadable(read, log, c.lastSeq, id.value);
      }
    }
  }

  lemma MarkStep(conn: Connection, c: Client, d: Client)
    requires c.received < |conn.out| && d.received == c.received + 1
    requires NeverSkips(conn.cursor, Persisted(conn.out))
    ensures
      var f := conn.out[c.received];
      && Mark(conn, d) == (if f.Persistent? then Max(Mark(conn, c), f.seqNo) else Mark(conn, c))
      && (f.Persistent? ==> f.seqNo <= Mark(conn, c) + 1)
  {
    var i := c.received;
    if conn.out[i].Persistent? {
      FrameNeverSkips(conn.cursor, conn.out, i);
    } else {
      assert conn.out[..i + 1] == conn.out[..i] + [conn.out[i]];
      PersistedSnoc(conn.out[..i], conn.out[i]);
      assert Persisted(conn.out[..i]) + [] == Persisted(conn.out[..i]);
    }
  }

  /** The next frame of a connection reaches the client. */
  lemma FrameReceived(read: Reader, log: seq<Row>, conn: Connection, c: Client, d: Client, start: Thread)
    requires NeverSkips(conn.cursor, Persisted(conn.out)) && FramesAreRows(conn.out, log)
    requires c.received < |conn.out| && Holds(read, log, c, start) && UpToDate(read, log, c, Mark(conn, c))
    requires d == Deliver(read, c, conn.out[c.received])
    ensures d.received == c.received + 1 && Holds(read, log, d, start) && UpToDate(read, log, d, Mark(conn, d))
  {
    var f, high := conn.out[c.received], Mark(conn, c);
    MarkStep(conn, c, d);
    if f.Persistent? {
      RowDelivered(read, log, c, high, f, start);
    } else {
      TransientDelivered(read, log, c, high, f, start);
    }
  }

  lemma ReceiptKeeps(read: Reader, thread: ThreadId, w: World, start: Thread)
    requires WorldInv(read, thread, w, start) && CanMove(thread, w, Receipt)
    ensures WorldInv(read, thread, Moved(read, thread, w, Receipt), start)
  {
    var conn := w.server.conn.value;
    StreamNeverSkips(thread, w.server.log, w.server.notified, conn);
    FrameReceived(read, w.server.log, conn, w.client, Moved(read, thread, w, Receipt).client, start);
  }

  /** A step of the server only adds frames to the connection. */
  lemma OutGrows(thread: ThreadId, s: System, e: Step)
    requires Enabled(thread, s, e) && !e.Connect? && !e.Drop? && s.conn.Some?
    ensures
      var t := Apply(thread, s, e);
      t.conn.Some? && t.conn.value.cursor == s.conn.value.cursor && s.conn.value.out <= t.conn.value.out
  {
  }

  lemma LogGrows(thread: ThreadId, s: System, e: Step)
    requires Enabled(thread, s, e)
    ensures Apply(thread, s, e).log == if e.Commit? then s.log + [e.row] else s.log
    ensures s.conn.None? && !e.Connect? ==> Apply(thread, s, e).conn.None?
  {
  }

  lemma HoldsAfterCommit(read: Reader, log: seq<Row>, row: Row, c: Client, start: Thread)
    requires Holds(read, log, c, start)
    ensures Holds(read, log + [row], c, start)
    ensures forall high :: UpToDate(read, log, c, high) ==> UpToDate(read, log + [row], c, high)
  {
    RowEventsGrow(read, log, row, c.lastSeq);
    forall i | 1 <= i <= |log|
      ensures Readable(read, log + [row], i) == Readable(read, log, i)
    {
    }
  }

  lemma ServerKeeps(read: Reader, thread: ThreadId, w: World, e: Step, start: Thread)
    requires WorldInv(read, thread, w, start) && CanMove(thread, w, Server(e))
    requires !Moved(read, thread, w, Server(e)).lost
    ensures WorldInv(read, thread, Moved(read, thread, w, Server(e)), start)
  {
    StreamDelivery.StepKeeps(thread, w.server, e);
    LogGrows(thread, w.server, e);
    if e.Commit? {
      HoldsAfterCommit(read, w.server.log, e.row, w.client, start);
    }
    if w.server.conn.Some? {
      OutGrows(thread, w.server, e);
      var k := w.client.received;
      var t := Apply(thread, w.server, e);
      assert t.conn.value.out[..k] == w.server.conn.value.out[..k];
    }
  }

  lemma ReconnectKeeps(read: Reader, thread: ThreadId, w: World, start: Thread)
    requires WorldInv(read, thread, w, start) && CanMove(thread, w, Reconnect)
    ensures WorldInv(read, thread, Moved(read, thread, w, Reconnect), start)
  {
    StreamDelivery.StepKeeps(thread, w.server, Connect(w.client.lastSeq));
    var next := Moved(read, thread, w, Reconnect);
    assert Mark(next.server.conn.value, next.client) == w.client.lastSeq;
  }

  lemma DisconnectKeeps(read: Reader, thread: ThreadId, w: World, start: Thread)
    requires WorldInv(read, thread, w, start) && CanMove(thread, w, Disconnect)
    ensures WorldInv(read, thread, Moved(read, thread, w, Disconnect), start)
  {
  }

  lemma MoveKeeps(read: Reader, thread: ThreadId, w: World, m: Move, start: Thread)
    requires WorldInv(read, thread, w, start) && CanMove(thread, w, m)
    requires !Moved(read, thread, w, m).lost
    ensures WorldInv(read, thread, Moved(read, thread, w, m), start)
  {
    match m
    case Server(e) => ServerKeeps(read, thread, w, e, start);
    case Receipt => ReceiptKeeps(read, thread, w, start);
    case Reconnect => ReconnectKeeps(read, thread, w, start);
    case Disconnect => DisconnectKeeps(read, thread, w, start);
  }

  lemma LostStays(read: Reader, thread: ThreadId, w: World, moves: seq<Move>, e: World)
    requires Runs(read, thread, w, moves, e) && w.lost
    ensures e.lost
    decreases |moves|
  {
    if moves != [] {
      LostStays(read, thread, Moved(read, thread, w, moves[0]), moves[1..], e);
    }
  }

  lemma {:induction false} RunKeeps(read: Reader, thread: ThreadId, w: World, moves: seq<Move>, e: World, start: Thread)
    requires WorldInv(read, thread, w, start) && Runs(read, thread, w, moves, e) && !e.lost
    ensures WorldInv(read, thread, e, start)
    decreases |moves|
  {
    if moves == [] {
    } else {
      var next := Moved(read, thread, w, moves[0]);
      if next.lost {
        LostStays(read, thread, next, moves[1..], e);
      } else {
        MoveKeeps(read, thread, w, moves[0], start);
        RunKeeps(read, thread, next, moves[1..], e, start);
      }
    }
  }

  function Start(intent: string): World {
    World(System([], 0, None), NewClient(intent), false)
  }

  /** Whatever is committed, delivered and cut off, as long as no queue has
      overflowed: the row events the store has taken in are exactly those of the
      rows 1..lastSeq, in order, once each, and the thread is the fold of
      everything taken in.  Outstanding notifications for old rows may repeat
      frames; the store's high-water mark drops the repeats. */
  lemma ClientHoldsPrefix(read: Reader, thread: ThreadId, intent: string, moves: seq<Move>, e: World)
    requires Runs(read, thread, Start(intent), moves, e) && !e.lost
    ensures
      var c, log := e.client, e.server.log;
      && c.lastSeq == c.thread.lastSeq <= |log|
      && FromRows(c.taken) == RowEvents(read, log, c.lastSeq)
      && c.thread == ReceiveAll(EmptyThread(intent), AllEvents(c.taken))
  {
    RunKeeps(read, thread, Start(intent), moves, e, EmptyThread(intent));
  }

  lemma {:induction false} OnlyRows(taken: seq<Accepted>)
    requires forall i :: 0 <= i < |taken| ==> taken[i].fromRow
    ensures FromRows(taken) == AllEvents(taken)
  {
    if taken == [] {
    } else {
      var n := |taken| - 1;
      OnlyRows(taken[..n]);
      assert taken == taken[..n] + [taken[n]];
      AllEventsSnoc(taken[..n], taken[n]);
    }
  }

  /** When no transient event got through, the thread is the fold of the prefix. */
  lemma ThreadIsFoldOfPrefix(read: Reader, thread: ThreadId, intent: string, moves: seq<Move>, e: World)
    requires Runs(read, thread, Start(intent), moves, e) && !e.lost
    requires forall i :: 0 <= i < |e.client.taken| ==> e.client.taken[i].fromRow
    ensures e.client.lastSeq <= |e.server.log|
    ensures e.client.thread == ReceiveAll(EmptyThread(intent), RowEvents(read, e.server.log, e.client.lastSeq))
  {
    ClientHoldsPrefix(read, thread, intent, moves, e);
    OnlyRows(e.client.taken);
  }

  /** Dropping the transient events from what was taken in leaves the record. */
  lemma {:induction false} RecordFromRows(start: Thread, taken: seq<Accepted>)
    requires NoneDropped(start, taken)
    requires forall i :: 0 <= i < |taken| && !taken[i].fromRow ==> IsTransient(taken[i].event.body)
    ensures
      var all, rows := ReceiveAll(start, AllEvents(taken)), ReceiveAll(start, FromRows(taken));
      SummaryOf(all) == SummaryOf(rows) && rows.lastSeq <= all.lastSeq
  {
    if taken == [] {
    } else {
      var before, last := taken[..|taken| - 1], taken[|taken| - 1];
      RecordFromRows(start, before);
      assert taken == before + [last];
      AllEventsSnoc(before, last);
      ReceiveAllSnoc(start, AllEvents(before), last.event);
      var all, rows := ReceiveAll(start, AllEvents(before)), ReceiveAll(start, FromRows(before));
      if last.fromRow {
        ReceiveAllSnoc(start, FromRows(before), last.event);
        SameRecordStep(all, rows, last.event);
      } else {
        assert FromRows(before) + [] == FromRows(before);
        TransientKeepsRecord(all, last.event);
      }
    }
  }

  /** Tokens and heartbeats may get through or not: the record the user sees
      (events, phase, result, error, interrupt, HiTL requests) is that of the
      fold of rows 1..lastSeq. */
  lemma RecordIsFoldOfPrefix(read: Reader, thread: ThreadId, intent: string, moves: seq<Move>, e: World)
    requires Runs(read, thread, Start(intent), moves, e) && !e.lost
    requires forall i :: 0 <= i < |e.client.taken| && !e.client.taken[i].fromRow ==>
      IsTransient(e.client.taken[i].event.body)
    ensures e.client.lastSeq <= |e.server.log|
    ensures
      SummaryOf(e.client.thread) ==
      SummaryOf(ReceiveAll(EmptyThread(intent), RowEvents(read, e.server.log, e.client.lastSeq)))
  {
    RunKeeps(read, thread, Start(intent), moves, e, EmptyThread(intent));
    RecordFromRows(EmptyThread(intent), e.client.taken);
  }

  /** A readable transient event gets through exactly when no row was received
      before it on the same connection, or when the last one could not be read
      and lies past everything taken in; otherwise it inherits an old sequence
      number and is dropped as a duplicate. */
  lemma TransientGetsThroughIff(read: Reader, thread: ThreadId, intent: string, moves: seq<Move>, e: World, f: Frame)
    requires Runs(read, thread, Start(intent), moves, e) && !e.lost && e.server.conn.Some?
    requires f.Transient? && read(f.eventType, f.payload).Some?
    ensures
      var c := e.client;
      && (|Deliver(read, c, f).taken| > |c.taken| <==>
          c.lastEventId == None || c.lastEventId.value > c.lastSeq)
      && (c.lastEventId.Some? && c.lastEventId.value > c.lastSeq ==>
          forall n :: c.lastSeq < n <= c.lastEventId.value ==> !Readable(read, e.server.log, n))
  {
    RunKeeps(read, thread, Start(intent), moves, e, EmptyThread(intent));
  }

  /** So after a row that can be read no transient event gets through on the same
      connection. */
  lemma TransientDroppedAfterRow(read: Reader, thread: ThreadId, intent: string, moves: seq<Move>, e: World, f: Frame)
    requires Runs(read, thread, Start(intent), moves, e) && !e.lost && e.server.conn.Some? && f.Transient?
    requires e.client.lastEventId.Some? && Readable(read, e.server.log, e.client.lastEventId.value)
    ensures Deliver(read, e.client, f).taken == e.client.taken && Deliver(read, e.client, f).thread == e.client.thread
  {
    RunKeeps(read, thread, Start(intent), moves, e, EmptyThread(intent));
  }

  /** Everything a drained live connection has sent reaches every notified row. */
  lemma DrainedMark(thread: ThreadId, log: seq<Row>, notified: nat, conn: Connection)
    requires Inv(thread, log, notified, conn) && conn.phase.Live? && OwnSeqs(thread, conn.queue) == []
    ensures High(conn.cursor, Persisted(conn.out)) >= notified
  {
    StreamNeverSkips(thread, log, notified, conn);
    assert |Range(conn.popped, notified)| == 0;
  }

  /** Nothing is missed for good: a client that has received everything on a
      drained live connection holds every readable row notified so far. */
  lemma CaughtUp(read: Reader, thread: ThreadId, intent: string, moves: seq<Move>, e: World, n: nat)
    requires Runs(read, thread, Start(intent), moves, e) && !e.lost
    requires e.server.conn.Some? && e.server.conn.value.phase.Live?
    requires OwnSeqs(thread, e.server.conn.value.queue) == []
    requires e.client.received == |e.server.conn.value.out|
    requires n <= e.server.notified && Readable(read, e.server.log, n)
    ensures n <= e.client.lastSeq
  {
    RunKeeps(read, thread, Start(intent), moves, e, EmptyThread(intent));
    var conn := e.server.conn.value;
    assert conn.out[..|conn.out|] == conn.out;
    DrainedMark(thread, e.server.log, e.server.notified, conn);
  }

  // ------------------------------------------------------- after a reconnect

  /** The connection goes on: no disconnect and no new one. */
  predicate Connected(moves: seq<Move>) {
    forall i :: 0 <= i < |moves| ==> moves[i].Server? || moves[i].Receipt?
  }

  lemma ConnectionKeeps(thread: ThreadId, s: System, e: Step)
    requires Enabled(thread, s, e) && !e.Connect? && !e.Drop? && s.conn.Some?
    ensures
      var conn := Apply(thread, s, e).conn;
      conn.Some? && conn.value.cursor == s.conn.value.cursor && conn.value.mark == s.conn.value.mark
  {
  }

  lemma {:induction false} ConnectionStays(read: Reader, thread: ThreadId, w: World, moves: seq<Move>, e: World)
    requires w.server.conn.Some? && Connected(moves) && Runs(read, thread, w, moves, e)
    ensures e.server.conn.Some?
    ensures e.server.conn.value.cursor == w.server.conn.value.cursor
    ensures e.server.conn.value.mark == w.server.conn.value.mark
    decreases |moves|
  {
    if moves == [] {
    } else {
      if moves[0].Server? {
        ConnectionKeeps(thread, w.server, moves[0].step);
      }
      assert moves[0].Server? || moves[0].Receipt?;
      ConnectionStays(read, thread, Moved(read, thread, w, moves[0]), moves[1..], e);
    }
  }

  lemma SentOutsideSelect(thread: ThreadId, log: seq<Row>, notified: nat, c: Connection, n: nat)
    requires Inv(thread, log, notified, c) && n <= c.cursor
    ensures StreamDelivery.Count(Persisted(c.out), n) == if c.mark < n <= c.popped then 1 else 0
  {
    StreamDelivery.CountRange(c.cursor, Reached(c), n);
    if c.phase.Live? {
      StreamDelivery.CountJoin(Range(c.cursor, c.high), Taken(thread, log, c.cursor, c.high, c.mark, c.popped), n);
      StreamDelivery.CountRange(c.cursor, c.high, n);
      StreamDelivery.CountTaken(thread, log, c.cursor, c.high, c.mark, c.popped, n);
    }
  }

  /** What a reconnect costs: a row the client had counted as received is sent once
      more if its notification had not been sent when the client came back and is
      taken from the queue since, and otherwise never. */
  lemma SentAgainIff(
    read: Reader, thread: ThreadId, intent: string, before: seq<Move>, w: World, moves: seq<Move>, e: World, n: nat)
    requires Runs(read, thread, Start(intent), before, w) && w.server.conn.None?
    requires Runs(read, thread, Moved(read, thread, w, Reconnect), moves, e) && Connected(moves) && !e.lost
    requires n <= w.client.lastSeq
    ensures e.server.conn.Some?
    ensures
      StreamDelivery.Count(Persisted(e.server.conn.value.out), n) ==
      if w.server.notified < n <= e.server.conn.value.popped then 1 else 0
  {
    var back := Moved(read, thread, w, Reconnect);
    if back.lost {
      LostStays(read, thread, back, moves, e);
    }
    RunKeeps(read, thread, Start(intent), before, w, EmptyThread(intent));
    ReconnectKeeps(read, thread, w, EmptyThread(intent));
    RunKeeps(read, thread, back, moves, e, EmptyThread(intent));
    ConnectionStays(read, thread, back, moves, e);
    SentOutsideSelect(thread, e.server.log, e.server.notified, e.server.conn.value, n);
  }

  // ------------------------------------------------------------ over the wire

  /** What the listeners keep between messages. */
  datatype View = View(lastSeq: nat, thread: Thread)

  function ViewOf(c: Client): View {
    View(c.lastSeq, c.thread)
  }

  /** The listener on a message as the browser hands it over: the id is a text. */
  function OnMessage(read: Reader, v: View, m: Message): View {
    var body := read(m.eventType, m.data);
    var id := if m.lastEventId == "" then None else ParseInt(m.lastEventId);
    if body.None? then v
    else
      View(if id.Some? then Max(v.lastSeq, id.value) else v.lastSeq,
           Receive(v.thread, SseEvent(if id.Some? then Some(id.value) else None, body.value)))
  }

  function OnMessages(read: Reader, v: View, messages: seq<Message>): View
    decreases |messages|
  {
    if messages == [] then v else OnMessages(read, OnMessage(read, v, messages[0]), messages[1..])
  }

  function DeliverAll(read: Reader, c: Client, frames: seq<Frame>): Client
    decreases |frames|
  {
    if frames == [] then c else DeliverAll(read, Deliver(read, c, frames[0]), frames[1..])
  }

  function IdText(id: Option<nat>): string {
    if id.None? then "" else Decimal(id.value)
  }

  lemma OneMessage(read: Reader, c: Client, t: string, p: string, fromRow: bool)
    ensures OnMessage(read, ViewOf(c), Message(t, p, IdText(c.lastEventId))) == ViewOf(Handle(c, read(t, p), fromRow))
    ensures Handle(c, read(t, p), fromRow).lastEventId == c.lastEventId
  {
    if c.lastEventId.Some? {
      IdRoundTrip(c.lastEventId.value);
    }
  }

  lemma FirstMessage(read: Reader, v: View, m: Message, rest: seq<Message>)
    ensures OnMessages(read, v, [m] + rest) == OnMessages(read, OnMessage(read, v, m), rest)
  {
  }

  lemma {:induction false} MessagesAreFrames(read: Reader, c: Client, frames: seq<Frame>)
    ensures OnMessages(read, ViewOf(c), Messages(frames, IdText(c.lastEventId))) == ViewOf(DeliverAll(read, c, frames))
    decreases |frames|
  {
    if frames == [] {
    } else {
      var rest, next := frames[1..], c.(received := c.received + 1);
      MessagesAreFrames(read, Deliver(read, c, frames[0]), rest);
      match frames[0]
      case Persistent(n, t, p) =>
        OneMessage(read, next.(lastEventId := Some(n)), t, p, true);
        FirstMessage(read, ViewOf(c), Message(t, p, Decimal(n)), Messages(rest, Decimal(n)));
      case Transient(t, p) =>
        var id := IdText(c.lastEventId);
        OneMessage(read, next, t, p, false);
        FirstMessage(read, ViewOf(c), Message(t, p, id), Messages(rest, id));
      case Keepalive =>
    }
  }

  /** Printing the frames of a fresh connection, parsing the text by the standard
      and running the listeners has the effect of delivering the frames. */
  lemma OverTheWire(read: Reader, c: Client, frames: seq<Frame>)
    requires forall i :: 0 <= i < |frames| ==> Clean(frames[i])
    requires c.lastEventId == None
    ensures OnMessages(read, ViewOf(c), Parse(FormatAll(frames))) == ViewOf(DeliverAll(read, c, frames))
  {
    RoundTrip(frames);
    MessagesAreFrames(read, c, frames);
  }

  // -------------------------------------------------------- the client object

  const FIRST_DELAY := 1000
  const MAX_DELAY := 30000

  /** The delay before the attempt after n failures in a row. */
  function Backoff(n: nat): nat {
    if n == 0 then FIRST_DELAY else Min(Backoff(n - 1) * 2, MAX_DELAY)
  }

  function Pow2(n: nat): nat {
    if n == 0 then 1 else 2 * Pow2(n - 1)
  }

  lemma {:induction false} BackoffIsCapped(n: nat)
    ensures Backoff(n) == Min(FIRST_DELAY * Pow2(n), MAX_DELAY)
  {
    if n == 0 {
    } else {
      BackoffIsCapped(n - 1);
    }
  }

  /** `UsamiSSE`, with the thread its only handler feeds. */
  class UsamiSse {
    const read: Reader
    var lastSeq: nat
    var thread: Thread
    var reconnectDelay: nat
    var shouldReconnect: bool
    var open: bool
    /** Attempts that failed since a connection last opened. */
    ghost var failures: nat

    ghost predicate Valid()
      reads this
    {
      reconnectDelay == Backoff(failures)
    }

    constructor (read: Reader, intent: string)
      ensures Valid() && this.read == read && failures == 0 && !open
      ensures View(lastSeq, thread) == ViewOf(NewClient(intent))
    {
      this.read := read;
      lastSeq, thread := 0, EmptyThread(intent);
      reconnectDelay, shouldReconnect, open, failures := FIRST_DELAY, true, false, 0;
    }

    /** The cursor put into the URL; the server takes a missing one for 0. */
    method Connect() returns (cursor: nat)
      requires Valid()
      modifies this`shouldReconnect, this`open
      ensures Valid() && shouldReconnect && open && cursor == lastSeq
    {
      shouldReconnect, open := true, true;
      cursor := if lastSeq > 0 then lastSeq else 0;
    }

    method OnOpen()
      modifies this`reconnectDelay, this`failures
      ensures Valid() && failures == 0
    {
      reconnectDelay, failures := FIRST_DELAY, 0;
    }

    /** Closes the source; the next attempt, if any, is scheduled after `wait`. */
    method OnError() returns (wait: Option<nat>)
      requires Valid()
      modifies this`open, this`reconnectDelay, this`failures
      ensures Valid() && !open
      ensures failures == if shouldReconnect then old(failures) + 1 else old(failures)
      ensures wait == if shouldReconnect then Some(Backoff(old(failures))) else None
    {
      open, wait := false, None;
      if shouldReconnect {
        wait := Some(reconnectDelay);
        reconnectDelay := if reconnectDelay * 2 < MAX_DELAY then reconnectDelay * 2 else MAX_DELAY;
        failures := failures + 1;
      }
    }

    method Disconnect()
      modifies this`shouldReconnect, this`open
      ensures !shouldReconnect && !open
    {
      shouldReconnect, open := false, false;
    }

    method OnMessageEvent(m: Message)
      modifies this`lastSeq, this`thread
      ensures View(lastSeq, thread) == OnMessage(read, View(old(lastSeq), old(thread)), m)
    {
      var body := read(m.eventType, m.data);
      if body.None? {
        return;
      }
      var id: Option<int> := None;
      if m.lastEventId != "" {
        var seqNo := ParseInt(m.lastEventId);
        if seqNo.Some? {
          id := Some(seqNo.value);
          if seqNo.value > lastSeq {
            lastSeq := seqNo.value;
          }
        }
      }
      thread := Receive(thread, SseEvent(id, body.value));
    }

    /** Everything one connection sends. */
    method OnStream(messages: seq<Message>)
      modifies this`lastSeq, this`thread
      ensures View(lastSeq, thread) == OnMessages(read, View(old(lastSeq), old(thread)), messages)
    {
      ghost var before := View(lastSeq, thread);
      for k := 0 to |messages|
        invariant OnMessages(read, View(lastSeq, thread), messages[k..]) == OnMessages(read, before, messages)
      {
        OnMessageEvent(messages[k]);
        assert messages[k..][1..] == messages[k + 1..];
      }
    }
  }
}
