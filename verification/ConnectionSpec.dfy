/**
 One TCP connection as a value, and what each of its operations makes of it.
 System calls are scripts: each read or write consumes the next result, and an
 exhausted script blocks.
 */
module ConnectionSpec {
  import opened Bytes
  import opened Options
  import opened TinyPB
  import opened Framing
  import opened TinyPBStream
  import opened TcpBuffers

  datatype TcpState = NotConnected | Connected | HalfClosing | Closed
  datatype Kind = ByServer | ByClient
  /** Identity of a stored std::function. */
  type Callback = nat

  datatype Pending = Pending(message: Message, done: Callback)

  /** A callback run with a message. */
  datatype Call = Call(done: Callback, message: Message)

  datatype Conn = Conn(
    kind: Kind, state: TcpState, fd: int, inData: bytes, out: bytes,
    writeDones: seq<Pending>, readDones: map<bytes, Callback>, disconnect: Option<Callback>, wantsWrite: bool)
  {
    predicate Live() {
      state == Connected && fd >= 0
    }
  }

  // ---------- closing ----------

  /** `clear`: everything pending is dropped and the disconnect callback is handed out once. */
  function Cleared(c: Conn): (r: Conn)
    ensures !r.Live() && r.fd < 0
  {
    if c.state == Closed && c.fd < 0 then c
    else c.(fd := -1, state := Closed, writeDones := [], readDones := map[], disconnect := None, wantsWrite := false)
  }

  /** What `clear` leaves: closed for good, nothing queued, registered or asked for; a second one finds nothing to do. */
  lemma ClearLeaves(c: Conn)
    ensures var r := Cleared(c);
      && (c.fd >= 0 || c.state != Closed ==>
            r.fd == -1 && r.state == Closed && r.writeDones == [] && r.readDones == map[] && r.disconnect == None && !r.wantsWrite)
      && r.inData == c.inData && r.out == c.out && r.kind == c.kind && Cleared(r) == r && ClearRuns(r) == None
      && (c.fd >= 0 ==> ClearRuns(c) == c.disconnect)
  {
  }

  /** The disconnect callback `clear` runs. */
  function ClearRuns(c: Conn): Option<Callback> {
    if c.state == Closed && c.fd < 0 then None else c.disconnect
  }

  /** `TcpClient::disconnect`: clear without telling anyone. */
  function Disconnected(c: Conn): Conn {
    Cleared(c.(disconnect := None))
  }

  // ---------- writing ----------

  /** What one write may return: some bytes (0 included), EAGAIN, EINTR or another error. */
  datatype WriteResult = Wrote(count: nat) | WouldBlock | Interrupted | Failure

  datatype WriteEnd = Drained | Stalled | Failed

  datatype Written = Written(accepted: bytes, rest: bytes, end: WriteEnd)

  /** Whether a loop over system calls goes on after one of them. */
  datatype Verdict = GoOn | Stop | Give

  datatype WriteStep = WriteStep(count: nat, verdict: Verdict)

  /** One write of `length` bytes: how many were accepted, and whether to try again, wait or give up. */
  function WriteOnce(length: nat, result: WriteResult): (s: WriteStep)
    ensures s.count <= length && (s.verdict != GoOn ==> s.count == 0)
  {
    match result
    case Wrote(n) => if Min(n, length) == 0 then WriteStep(0, Stop) else WriteStep(Min(n, length), GoOn)
    case WouldBlock => WriteStep(0, Stop)
    case Interrupted => WriteStep(0, GoOn)
    case Failure => WriteStep(0, Give)
  }

  function Accept(b: bytes, w: Written): Written {
    Written(b + w.accepted, w.rest, w.end)
  }

  /** `w` is what became of `out` behind the first `count` bytes, which were accepted. */
  function Resume(out: bytes, count: nat, w: Written): (r: Written)
    requires count <= |out| && w.accepted + w.rest == out[count..]
    ensures r == Accept(out[..count], w) && r.accepted + r.rest == out
  {
    assert out[..count] + out[count..] == out;
    Accept(out[..count], w)
  }

  /** The write loop over the bytes waiting to be sent. */
  function WriteLoop(out: bytes, script: seq<WriteResult>): (w: Written)
    ensures w.accepted + w.rest == out
    ensures w.end == Drained <==> w.rest == []
    decreases |script|
  {
    if out == [] then Written([], [], Drained)
    else if script == [] then Written([], out, Stalled)
    else
      var s := WriteOnce(|out|, script[0]);
      match s.verdict
      case GoOn => Resume(out, s.count, WriteLoop(out[s.count..], script[1..]))
      case Stop => Written([], out, Stalled)
      case Give => Written([], out, Failed)
  }

  function Messages(ps: seq<Pending>): (ms: seq<Message>)
    ensures |ms| == |ps| && forall i :: 0 <= i < |ps| ==> ms[i] == ps[i].message
  {
    seq(|ps|, i requires 0 <= i < |ps| => ps[i].message)
  }

  function AfterEncoding(ps: seq<Pending>): (r: seq<Pending>)
    ensures |r| == |ps|
  {
    seq(|ps|, i requires 0 <= i < |ps| => ps[i].(message := PostEncode(ps[i].message)))
  }

  function CallsOf(ps: seq<Pending>): (r: seq<Call>)
    ensures |r| == |ps|
  {
    seq(|ps|, i requires 0 <= i < |ps| => Call(ps[i].done, ps[i].message))
  }

  /** A client with nothing left in its out buffer encodes its whole queue. */
  predicate EncodesQueue(c: Conn) {
    c.Live() && c.kind == ByClient && c.out == []
  }

  function Loaded(c: Conn): Conn {
    if EncodesQueue(c) then c.(out := EncodeAll(Messages(c.writeDones)), writeDones := AfterEncoding(c.writeDones)) else c
  }

  datatype WriteEffect = WriteEffect(conn: Conn, accepted: bytes, ran: seq<Call>, disconnected: Option<Callback>)

  /** `onWrite`. */
  function OnWrite(c: Conn, script: seq<WriteResult>): WriteEffect {
    if !c.Live() then WriteEffect(c, [], [], None)
    else
      var c1 := Loaded(c);
      AfterWriteLoop(c1, WriteLoop(c1.out, script))
  }

  function AfterWriteLoop(c: Conn, w: Written): WriteEffect {
    var c1 := c.(out := w.rest);
    match w.end
    case Stalled => WriteEffect(c1, w.accepted, [], None)
    case Failed => WriteEffect(Cleared(c1), w.accepted, [], ClearRuns(c1))
    case Drained =>
      if c.kind == ByClient then WriteEffect(c1.(writeDones := [], wantsWrite := false), w.accepted, CallsOf(c.writeDones), None)
      else WriteEffect(c1.(wantsWrite := false), w.accepted, [], None)
  }

  /** `reply`: encode into the out buffer and ask for write events. */
  function Replied(c: Conn, ms: seq<Message>): Conn {
    c.(out := c.out + EncodeAll(ms), wantsWrite := c.wantsWrite || (c.state != Closed && c.fd >= 0))
  }

  /** `pushSendMessage`. */
  function Pushed(c: Conn, p: Pending): Conn {
    c.(writeDones := c.writeDones + [p])
  }

  // ---------- reading ----------

  /** What one read may return: some bytes, EAGAIN, EINTR, end of file or another error. */
  datatype ReadResult = Got(count: nat) | NoData | ReadInterrupted | EndOfFile | ReadFailure

  datatype ReadEnd = ReadEnd(taken: nat, closed: bool)

  function MoreTaken(n: nat, r: ReadEnd): ReadEnd {
    ReadEnd(n + r.taken, r.closed)
  }

  datatype ReadStep = ReadStep(count: nat, shape: BufferShape, verdict: Verdict)

  /**
   One read into a buffer of shape `b` with `available` bytes in flight: a full
   buffer is doubled first, a read that fills the buffer is to be repeated, a
   shorter one ends the loop.
   */
  function ReadOnce(b: BufferShape, available: nat, result: ReadResult): (s: ReadStep)
    ensures s.count <= available && (s.verdict == Give ==> s.count == 0)
  {
    ReadInto(Doubled(b), available, result)
  }

  /** The read itself; without any room it does not happen. */
  function ReadInto(b: BufferShape, available: nat, result: ReadResult): (s: ReadStep)
    ensures s.count <= available && (s.verdict == Give ==> s.count == 0)
  {
    if b.Writable() == 0 then ReadStep(0, b, Give)
    else
      match result
      case Got(n) =>
        var k := Min(n, Min(b.Writable(), available));
        ReadStep(k, Produced(b, k), if k == b.Writable() then GoOn else Stop)
      case NoData => ReadStep(0, b, Stop)
      case ReadInterrupted => ReadStep(0, b, GoOn)
      case EndOfFile => ReadStep(0, b, Give)
      case ReadFailure => ReadStep(0, b, Give)
  }

  /** A loop of reads, each done as `once` says. */
  function ReadLoopOf(
    once: (BufferShape, nat, ReadResult) -> ReadStep, b: BufferShape, available: nat, script: seq<ReadResult>): (r: ReadEnd)
    ensures r.taken <= available
    decreases |script|
  {
    var s := once(b, available, if script == [] then NoData else script[0]);
    if s.count > available then ReadEnd(0, true)
    else if s.verdict == GoOn && script != [] then
      MoreTaken(s.count, ReadLoopOf(once, s.shape, available - s.count, script[1..]))
    else ReadEnd(s.count, s.verdict == Give)
  }

  /** The read loop. */
  function ReadLoop(b: BufferShape, available: nat, script: seq<ReadResult>): (r: ReadEnd)
    ensures r.taken <= available
  {
    ReadLoopOf(ReadOnce, b, available, script)
  }

  datatype ReadEffect = ReadEffect(conn: Conn, delivered: seq<Message>, ran: seq<Call>, disconnected: Option<Callback>)

  /** `onRead`, once the loop has taken `data` and seen the connection close or not. */
  function OnRead(c: Conn, data: bytes, closed: bool, closes: Callback -> bool): ReadEffect {
    if !c.Live() then ReadEffect(c, [], [], None)
    else
      var c1 := c.(inData := c.inData + data);
      if closed then ReadEffect(Cleared(c1), [], [], ClearRuns(c1))
      else Execute(c1, closes)
  }

  /** `excute`: decode what is there; a client runs the read callbacks. */
  function Execute(c: Conn, closes: Callback -> bool): ReadEffect {
    var d := Decode(c.inData);
    var c1 := c.(inData := d.rest);
    if c.kind == ByServer then ReadEffect(c1, d.messages, [], None)
    else
      var r := RunReads(c1, d.messages, closes);
      ReadEffect(r.conn, d.messages, r.ran, None)
  }

  datatype Reads = Reads(conn: Conn, ran: seq<Call>)

  /** Run the callback registered for each message, forgetting it first; `closes` callbacks disconnect. */
  function RunReads(c: Conn, ms: seq<Message>, closes: Callback -> bool): Reads
    decreases |ms|
  {
    if ms == [] then Reads(c, [])
    else if ms[0].msgId !in c.readDones then RunReads(c, ms[1..], closes)
    else
      var done := c.readDones[ms[0].msgId];
      var r := RunReads(AfterDone(c, ms[0].msgId, closes(done)), ms[1..], closes);
      Reads(r.conn, [Call(done, ms[0])] + r.ran)
  }

  function AfterDone(c: Conn, id: bytes, disconnects: bool): Conn {
    var c1 := c.(readDones := c.readDones - {id});
    if disconnects then Disconnected(c1) else c1
  }

  /** `pushReadMessage`: std::map::insert keeps an entry that is already there. */
  function ReadPushed(c: Conn, id: bytes, done: Callback): Conn {
    if id in c.readDones then c else c.(readDones := c.readDones[id := done])
  }
}
