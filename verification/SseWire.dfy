/** The event-stream wire format: the server's printers (`api/sse.py`) against
    the parser of the WHATWG HTML Standard, sections 9.2.5 (parsing) and 9.2.6
    (interpreting an event stream). */
module SseWire {
  import opened Wrappers

  datatype Frame =
    | Persistent(seqNo: nat, eventType: string, payload: string)
    | Transient(eventType: string, payload: string)
    | Keepalive

  // ---------------------------------------------------------------- printing

  function Decimal(n: nat): (s: string)
    ensures s != ""
    ensures forall j :: 0 <= j < |s| ==> '0' <= s[j] <= '9'
  {
    var digit := ['0' + (n % 10) as char];
    if n < 10 then digit else Decimal(n / 10) + digit
  }

  function FieldText(field: string, value: string): string {
    field + ": " + value + "\n"
  }

  function Body(eventType: string, payload: string): string {
    FieldText("event", eventType) + (FieldText("data", payload) + "\n")
  }

  function Format(f: Frame): string {
    match f
    case Persistent(n, t, p) => FieldText("id", Decimal(n)) + Body(t, p)
    case Transient(t, p) => Body(t, p)
    case Keepalive => ": keepalive\n\n"
  }

  function FormatAll(frames: seq<Frame>): string {
    if frames == [] then "" else Format(frames[0]) + FormatAll(frames[1..])
  }

  // ------------------------------------------------ parsing (section 9.2.5)

  predicate IsBreak(c: char) {
    c == '\r' || c == '\n'
  }

  ghost predicate NoBreak(s: string) {
    forall j :: 0 <= j < |s| ==> !IsBreak(s[j])
  }

  function FirstBreak(s: string): (k: nat)
    ensures k <= |s| && (k < |s| ==> IsBreak(s[k]))
    ensures forall j :: 0 <= j < k ==> !IsBreak(s[j])
  {
    if s == "" || IsBreak(s[0]) then 0 else 1 + FirstBreak(s[1..])
  }

  /** Lines end at CR LF, LF or CR; an unfinished line at the end is dropped. */
  function Lines(s: string): seq<string>
    decreases |s|
  {
    var k := FirstBreak(s);
    if k == |s| then []
    else
      var skip := if s[k] == '\r' && k + 1 < |s| && s[k + 1] == '\n' then 2 else 1;
      [s[..k]] + Lines(s[k + skip..])
  }

  function WithoutByteOrderMark(s: string): string {
    if s != "" && s[0] == '\U{FEFF}' then s[1..] else s
  }

  // ------------------------------------------- interpreting (section 9.2.6)

  /** The data, event type and last event ID buffers. */
  datatype Buffers = Buffers(data: string, eventType: string, lastId: string)

  datatype Message = Message(eventType: string, data: string, lastEventId: string)

  function ColonAt(line: string): (k: nat)
    ensures k <= |line| && (k < |line| ==> line[k] == ':')
    ensures forall j :: 0 <= j < k ==> line[j] != ':'
  {
    if line == "" || line[0] == ':' then 0 else 1 + ColonAt(line[1..])
  }

  function FieldValue(line: string): (string, string) {
    var k := ColonAt(line);
    if k == |line| then (line, "")
    else
      var v := line[k + 1..];
      (line[..k], if v != "" && v[0] == ' ' then v[1..] else v)
  }

  /** A "retry" field only sets the reconnection time, which is not modelled. */
  function ProcessField(b: Buffers, field: string, value: string): Buffers {
    if field == "event" then b.(eventType := value)
    else if field == "data" then b.(data := b.data + value + "\n")
    else if field == "id" && '\0' !in value then b.(lastId := value)
    else b
  }

  function ProcessLine(b: Buffers, line: string): Buffers
    requires line != ""
  {
    if line[0] == ':' then b
    else
      var (field, value) := FieldValue(line);
      ProcessField(b, field, value)
  }

  /** What an empty line dispatches: nothing when there was no data. */
  function Dispatch(b: Buffers): seq<Message> {
    if b.data == "" then []
    else
      var data := if b.data[|b.data| - 1] == '\n' then b.data[..|b.data| - 1] else b.data;
      [Message(if b.eventType == "" then "message" else b.eventType, data, b.lastId)]
  }

  function Interpret(b: Buffers, lines: seq<string>): seq<Message>
    decreases |lines|
  {
    if lines == [] then []
    else if lines[0] == "" then Dispatch(b) + Interpret(Buffers("", "", b.lastId), lines[1..])
    else Interpret(ProcessLine(b, lines[0]), lines[1..])
  }

  function Parse(stream: string): seq<Message> {
    Interpret(Buffers("", "", ""), Lines(WithoutByteOrderMark(stream)))
  }

  // ------------------------------------------------------------- round trip

  /** Fields without line breaks, and an event type that is not empty. */
  ghost predicate Clean(f: Frame) {
    !f.Keepalive? ==> f.eventType != "" && NoBreak(f.eventType) && NoBreak(f.payload)
  }

  /** The messages the client is meant to see. */
  function Messages(frames: seq<Frame>, lastId: string): seq<Message> {
    if frames == [] then []
    else
      match frames[0]
      case Persistent(n, t, p) => [Message(t, p, Decimal(n))] + Messages(frames[1..], Decimal(n))
      case Transient(t, p) => [Message(t, p, lastId)] + Messages(frames[1..], lastId)
      case Keepalive => Messages(frames[1..], lastId)
  }

  lemma FirstLine(line: string, rest: string)
    requires NoBreak(line)
    ensures Lines(line + "\n" + rest) == [line] + Lines(rest)
  {
    var s := line + "\n" + rest;
    var k := |line|;
    assert s[k] == '\n';
    assert forall j :: 0 <= j < k ==> s[j] == line[j];
    assert FirstBreak(s) == k;
    assert s[..k] == line && s[k + 1..] == rest;
  }

  /** A field line of the printers, read back. */
  lemma FieldLine(field: string, value: string)
    requires forall j :: 0 <= j < |field| ==> field[j] != ':'
    ensures FieldValue(field + ": " + value) == (field, value)
  {
    var line := field + ": " + value;
    var k := |field|;
    assert line[k] == ':';
    assert forall j :: 0 <= j < k ==> line[j] == field[j];
    assert ColonAt(line) == k;
    assert line[..k] == field && line[k + 1..] == " " + value;
  }

  lemma NoBreakAppend(a: string, b: string)
    requires NoBreak(a) && NoBreak(b)
    ensures NoBreak(a + b)
  {
  }

  lemma ReadField(field: string, value: string, rest: string, b: Buffers)
    requires field != "" && NoBreak(field) && NoBreak(value)
    requires forall j :: 0 <= j < |field| ==> field[j] != ':'
    ensures
      Interpret(b, Lines(FieldText(field, value) + rest)) ==
      Interpret(ProcessField(b, field, value), Lines(rest))
  {
    var line := field + ": " + value;
    NoBreakAppend(field + ": ", value);
    assert FieldText(field, value) == line + "\n";
    FirstLine(line, rest);
    FieldLine(field, value);
    assert line[0] == field[0];
  }

  lemma BlankLine(rest: string, b: Buffers)
    ensures Interpret(b, Lines("\n" + rest)) == Dispatch(b) + Interpret(Buffers("", "", b.lastId), Lines(rest))
  {
  }

  lemma DispatchFull(t: string, p: string, lastId: string)
    requires t != ""
    ensures Dispatch(Buffers(p + "\n", t, lastId)) == [Message(t, p, lastId)]
  {
  }

  lemma ReadEvent(t: string, rest: string, lastId: string)
    requires NoBreak(t)
    ensures
      Interpret(Buffers("", "", lastId), Lines(FieldText("event", t) + rest)) ==
      Interpret(Buffers("", t, lastId), Lines(rest))
  {
    ReadField("event", t, rest, Buffers("", "", lastId));
  }

  lemma ReadData(t: string, p: string, rest: string, lastId: string)
    requires NoBreak(p)
    ensures
      Interpret(Buffers("", t, lastId), Lines(FieldText("data", p) + rest)) ==
      Interpret(Buffers(p + "\n", t, lastId), Lines(rest))
  {
    ReadField("data", p, rest, Buffers("", t, lastId));
    assert "" + p + "\n" == p + "\n";
  }

  lemma ReadBody(t: string, p: string, rest: string, lastId: string)
    requires t != "" && NoBreak(t) && NoBreak(p)
    ensures
      Interpret(Buffers("", "", lastId), Lines(Body(t, p) + rest)) ==
      [Message(t, p, lastId)] + Interpret(Buffers("", "", lastId), Lines(rest))
  {
    var afterEvent := FieldText("data", p) + ("\n" + rest);
    assert Body(t, p) + rest == FieldText("event", t) + afterEvent;
    ReadEvent(t, afterEvent, lastId);
    ReadData(t, p, "\n" + rest, lastId);
    BlankLine(rest, Buffers(p + "\n", t, lastId));
    DispatchFull(t, p, lastId);
  }

  lemma DecimalIsClean(n: nat)
    ensures NoBreak(Decimal(n)) && '\0' !in Decimal(n)
  {
  }

  lemma ReadId(n: nat, rest: string, lastId: string)
    ensures
      Interpret(Buffers("", "", lastId), Lines(FieldText("id", Decimal(n)) + rest)) ==
      Interpret(Buffers("", "", Decimal(n)), Lines(rest))
  {
    var b := Buffers("", "", lastId);
    DecimalIsClean(n);
    ReadField("id", Decimal(n), rest, b);
    assert ProcessField(b, "id", Decimal(n)) == Buffers("", "", Decimal(n));
  }

  lemma ReadPersistent(n: nat, t: string, p: string, rest: string, lastId: string)
    requires t != "" && NoBreak(t) && NoBreak(p)
    ensures
      Interpret(Buffers("", "", lastId), Lines(Format(Persistent(n, t, p)) + rest)) ==
      [Message(t, p, Decimal(n))] + Interpret(Buffers("", "", Decimal(n)), Lines(rest))
  {
    var body := Body(t, p) + rest;
    assert Format(Persistent(n, t, p)) + rest == FieldText("id", Decimal(n)) + body;
    ReadId(n, body, lastId);
    ReadBody(t, p, rest, Decimal(n));
  }

  lemma ReadKeepalive(rest: string, lastId: string)
    ensures
      Interpret(Buffers("", "", lastId), Lines(Format(Keepalive) + rest)) ==
      Interpret(Buffers("", "", lastId), Lines(rest))
  {
    var b, comment := Buffers("", "", lastId), ": keepalive";
    assert Format(Keepalive) + rest == comment + "\n" + ("\n" + rest);
    FirstLine(comment, "\n" + rest);
    assert ProcessLine(b, comment) == b;
    BlankLine(rest, b);
  }

  lemma {:induction false} ReadFrames(frames: seq<Frame>, lastId: string)
    requires forall i :: 0 <= i < |frames| ==> Clean(frames[i])
    ensures Interpret(Buffers("", "", lastId), Lines(FormatAll(frames))) == Messages(frames, lastId)
    decreases |frames|
  {
    if frames == [] {
      assert FirstBreak("") == 0;
    } else {
      var rest := FormatAll(frames[1..]);
      assert Clean(frames[0]);
      match frames[0]
      case Persistent(n, t, p) =>
        ReadPersistent(n, t, p, rest, lastId);
        ReadFrames(frames[1..], Decimal(n));
      case Transient(t, p) =>
        ReadBody(t, p, rest, lastId);
        ReadFrames(frames[1..], lastId);
      case Keepalive =>
        ReadKeepalive(rest, lastId);
        ReadFrames(frames[1..], lastId);
    }
  }

  /** Parsing any concatenation of clean frames gives back exactly the events in
      order: keepalives vanish, and a transient frame carries the id last sent. */
  lemma RoundTrip(frames: seq<Frame>)
    requires forall i :: 0 <= i < |frames| ==> Clean(frames[i])
    ensures Parse(FormatAll(frames)) == Messages(frames, "")
  {
    var s := FormatAll(frames);
    if frames != [] {
      assert s[0] == Format(frames[0])[0];
    }
    assert WithoutByteOrderMark(s) == s;
    ReadFrames(frames, "");
  }

  /** `parseInt(s, 10)` on a text of digits; none without a leading digit. */
  function ParseInt(s: string): Option<nat> {
    var k := DigitPrefix(s);
    if k == 0 then None else Some(DecimalValue(s[..k]))
  }

  function DigitPrefix(s: string): (k: nat)
    ensures k <= |s| && forall j :: 0 <= j < k ==> '0' <= s[j] <= '9'
    ensures k < |s| ==> !('0' <= s[k] <= '9')
  {
    if s == "" || !('0' <= s[0] <= '9') then 0 else 1 + DigitPrefix(s[1..])
  }

  function DecimalValue(s: string): nat
    requires forall j :: 0 <= j < |s| ==> '0' <= s[j] <= '9'
  {
    if s == "" then 0
    else
      var n := |s| - 1;
      10 * DecimalValue(s[..n]) + (s[n] as int - '0' as int)
  }

  lemma {:induction false} DecimalRoundTrip(n: nat)
    ensures DecimalValue(Decimal(n)) == n
  {
    var s := Decimal(n);
    if n < 10 {
      assert s[..0] == "";
    } else {
      DecimalRoundTrip(n / 10);
      assert s[..|s| - 1] == Decimal(n / 10);
    }
  }

  /** An id comes back as the number it was printed from. */
  lemma IdRoundTrip(n: nat)
    ensures ParseInt(Decimal(n)) == Some(n)
  {
    var s := Decimal(n);
    assert DigitPrefix(s) == |s|;
    assert s[..|s|] == s;
    DecimalRoundTrip(n);
  }

  // ------------------------------------- the exact condition for one frame

  function TotalLength(lines: seq<string>): nat {
    if lines == [] then 0 else |lines[0]| + TotalLength(lines[1..])
  }

  /** The characters of a text that are no line breaks. */
  function Solid(s: string): nat {
    if s == "" then 0 else (if IsBreak(s[0]) then 0 else 1) + Solid(s[1..])
  }

  lemma {:induction false} SolidSplit(s: string, k: nat)
    requires k <= |s|
    ensures Solid(s) == Solid(s[..k]) + Solid(s[k..])
    ensures Solid(s[..k]) <= k && (NoBreak(s[..k]) ==> Solid(s[..k]) == k)
    decreases k
  {
    if k == 0 {
    } else {
      assert s[..k][1..] == s[1..][..k - 1] && s[k..] == s[1..][k - 1..];
      SolidSplit(s[1..], k - 1);
    }
  }

  lemma {:induction false} LinesHaveNoBreak(s: string)
    ensures forall i :: 0 <= i < |Lines(s)| ==> NoBreak(Lines(s)[i])
    decreases |s|
  {
    var k := FirstBreak(s);
    if k < |s| {
      var skip := if s[k] == '\r' && k + 1 < |s| && s[k + 1] == '\n' then 2 else 1;
      LinesHaveNoBreak(s[k + skip..]);
    }
  }

  lemma SolidAfterLine(s: string, k: nat, skip: nat)
    requires k + skip <= |s| && NoBreak(s[..k])
    ensures k + Solid(s[k + skip..]) <= Solid(s)
  {
    SolidSplit(s, k);
    SolidSplit(s[k..], skip);
    assert s[k..][skip..] == s[k + skip..];
  }

  lemma {:induction false} LinesAreSolid(s: string)
    ensures TotalLength(Lines(s)) <= Solid(s)
    decreases |s|
  {
    var k := FirstBreak(s);
    if k < |s| {
      var skip := if s[k] == '\r' && k + 1 < |s| && s[k + 1] == '\n' then 2 else 1;
      LinesAreSolid(s[k + skip..]);
      SolidAfterLine(s, k, skip);
    }
  }

  lemma TailIsSolid(tail: string)
    ensures TotalLength(Lines(tail + "\n\n")) <= |tail|
  {
    var rest := tail + "\n\n";
    LinesAreSolid(rest);
    SolidSplit(rest, |tail|);
    assert rest[..|tail|] == tail && rest[|tail|..] == "\n\n";
    assert "\n\n"[1..] == "\n" && "\n"[1..] == "";
  }

  /** Data that is empty or ends with a line feed, and no carriage return. */
  ghost predicate Buffered(data: string) {
    && (data == "" || data[|data| - 1] == '\n')
    && forall j :: 0 <= j < |data| ==> data[j] != '\r'
  }

  ghost predicate WellBuffered(b: Buffers) {
    Buffered(b.data) && NoBreak(b.eventType)
  }

  lemma LineKeepsBuffers(b: Buffers, line: string)
    requires line != "" && NoBreak(line) && WellBuffered(b)
    ensures WellBuffered(ProcessLine(b, line))
    ensures |ProcessLine(b, line).data| <= |b.data| + |line|
  {
    var (field, value) := FieldValue(line);
    assert NoBreak(value);
    assert field == "data" ==> |value| + 1 <= |line|;
  }

  /** Whatever the lines, a message has a proper type, no carriage return, and
      less data than there was text. */
  lemma {:induction false} MessageBounds(b: Buffers, lines: seq<string>, m: Message)
    requires WellBuffered(b) && forall i :: 0 <= i < |lines| ==> NoBreak(lines[i])
    requires m in Interpret(b, lines)
    ensures m.eventType != "" && NoBreak(m.eventType)
    ensures forall j :: 0 <= j < |m.data| ==> m.data[j] != '\r'
    ensures |m.data| + 1 <= |b.data| + TotalLength(lines)
    decreases |lines|
  {
    if lines[0] == "" {
      if m !in Dispatch(b) {
        MessageBounds(Buffers("", "", b.lastId), lines[1..], m);
      }
    } else {
      LineKeepsBuffers(b, lines[0]);
      MessageBounds(ProcessLine(b, lines[0]), lines[1..], m);
    }
  }

  lemma ParsedTypesAreProper(stream: string, m: Message)
    requires m in Parse(stream)
    ensures m.eventType != "" && NoBreak(m.eventType)
    ensures forall j :: 0 <= j < |m.data| ==> m.data[j] != '\r'
  {
    var s := WithoutByteOrderMark(stream);
    LinesHaveNoBreak(s);
    MessageBounds(Buffers("", "", ""), Lines(s), m);
  }

  lemma BrokenBody(t: string, head: string, tail: string)
    ensures Body(t, head + "\n" + tail) == FieldText("event", t) + (FieldText("data", head) + (tail + "\n\n"))
  {
  }

  /** A payload with a line feed comes back shorter, if at all. */
  lemma BrokenPayloadShrinks(t: string, head: string, tail: string, lastId: string, m: Message)
    requires t != "" && NoBreak(t) && NoBreak(head)
    requires m in Interpret(Buffers("", "", lastId), Lines(Body(t, head + "\n" + tail)))
    ensures |m.data| <= |head| + |tail|
  {
    var rest := tail + "\n\n";
    BrokenBody(t, head, tail);
    ReadEvent(t, FieldText("data", head) + rest, lastId);
    ReadData(t, head, rest, lastId);
    HeadAndTailBound(t, head, tail, lastId, m);
  }

  lemma HeadAndTailBound(t: string, head: string, tail: string, lastId: string, m: Message)
    requires NoBreak(t) && NoBreak(head)
    requires m in Interpret(Buffers(head + "\n", t, lastId), Lines(tail + "\n\n"))
    ensures |m.data| <= |head| + |tail|
  {
    var b := Buffers(head + "\n", t, lastId);
    var lines := Lines(tail + "\n\n");
    LinesHaveNoBreak(tail + "\n\n");
    TailIsSolid(tail);
    HeadIsBuffered(head);
    MessageBounds(b, lines, m);
  }

  lemma HeadIsBuffered(head: string)
    requires NoBreak(head)
    ensures Buffered(head + "\n")
  {
  }

  lemma NoMark(f: Frame)
    ensures WithoutByteOrderMark(Format(f)) == Format(f)
  {
  }

  lemma BrokenFrameShrinks(f: Frame, head: string, tail: string, m: Message)
    requires !f.Keepalive? && f.eventType != "" && NoBreak(f.eventType)
    requires f.payload == head + "\n" + tail && NoBreak(head)
    requires m in Parse(Format(f))
    ensures |m.data| <= |head| + |tail|
  {
    NoMark(f);
    match f
    case Persistent(n, t, p) =>
      ReadId(n, Body(t, p), "");
      BrokenPayloadShrinks(t, head, tail, Decimal(n), m);
    case Transient(t, p) => BrokenPayloadShrinks(t, head, tail, "", m);
  }

  lemma SurvivalNeedsCleanPayload(f: Frame)
    requires !f.Keepalive? && f.eventType != "" && NoBreak(f.eventType)
    requires Parse(Format(f)) == Messages([f], "") && forall j :: 0 <= j < |f.payload| ==> f.payload[j] != '\r'
    ensures NoBreak(f.payload)
  {
    var p := f.payload;
    var k := FirstBreak(p);
    if k < |p| {
      var m := Messages([f], "")[0];
      assert m in Parse(Format(f)) && m.data == p;
      var head, tail := SplitAtLineFeed(p, k);
      BrokenFrameShrinks(f, head, tail, m);
    }
  }

  lemma SplitAtLineFeed(p: string, k: nat) returns (head: string, tail: string)
    requires k < |p| && p[k] == '\n' && forall j :: 0 <= j < k ==> !IsBreak(p[j])
    ensures p == head + "\n" + tail && NoBreak(head) && |head| + |tail| < |p|
  {
    head, tail := p[..k], p[k + 1..];
  }

  /** Sent alone, an event reaches the client unchanged exactly when it is clean. */
  lemma SurvivesIffClean(f: Frame)
    requires !f.Keepalive?
    ensures Parse(Format(f)) == Messages([f], "") <==> Clean(f)
  {
    assert FormatAll([f]) == Format(f) + "" == Format(f);
    if Clean(f) {
      RoundTrip([f]);
    } else if Parse(Format(f)) == Messages([f], "") {
      ParsedTypesAreProper(Format(f), Messages([f], "")[0]);
      SurvivalNeedsCleanPayload(f);
    }
  }
}
