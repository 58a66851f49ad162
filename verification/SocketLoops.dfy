/**
 What a socket can make of the two loops, said of its answers alone: how far a
 write loop gets and when it closes the connection, when a read loop goes on, stops
 or closes, and that bytes to be sent are always waited for.
 */
module SocketLoops {
  import opened Bytes
  import opened Options
  import opened TinyPB
  import opened TinyPBStream
  import opened TcpBuffers
  import opened ConnectionSpec

  // ---------- writing ----------

  /** How many of the first answers let the loop go on: some bytes taken, or interrupted. */
  function GoingOn(script: seq<WriteResult>): (n: nat)
    ensures n <= |script|
  {
    if script != [] && (script[0].Interrupted? || (script[0].Wrote? && script[0].count > 0)) then 1 + GoingOn(script[1..]) else 0
  }

  /** The bytes the socket is willing to take in these answers. */
  function Room(script: seq<WriteResult>): nat {
    if script == [] then 0 else (if script[0].Wrote? then script[0].count else 0) + Room(script[1..])
  }

  /** The answers so far are not enough for `length` bytes, and the next one is a fatal error. */
  predicate Fatal(script: seq<WriteResult>, length: nat) {
    var n := GoingOn(script);
    Room(script[..n]) < length && n < |script| && script[n] == Failure
  }

  /** An answer that lets the loop go on takes its bytes off the front; any other ends it, fatally or not. */
  lemma WriteLoopTurn(out: bytes, script: seq<WriteResult>)
    requires out != [] && script != []
    ensures var w := WriteLoop(out, script);
      if GoingOn(script) == 0 then w == Written([], out, if script[0] == Failure then Failed else Stalled)
      else
        var k := if script[0].Wrote? then Min(script[0].count, |out|) else 0;
        w == Accept(out[..k], WriteLoop(out[k..], script[1..]))
  {
  }

  /**
   The loop sends what the socket takes up to the first answer that ends it, and
   fails exactly if that is fatal and bytes are left.
   */
  lemma {:induction false} WriteLoopByAnswers(out: bytes, script: seq<WriteResult>)
    ensures var w, room := WriteLoop(out, script), Room(script[..GoingOn(script)]);
      && w.accepted == out[..Min(room, |out|)]
      && (w.end == Drained <==> room >= |out|)
      && (w.end == Failed <==> Fatal(script, |out|))
    decreases |script|
  {
    if out != [] && script != [] {
      WriteLoopTurn(out, script);
      if GoingOn(script) > 0 {
        var k := if script[0].Wrote? then Min(script[0].count, |out|) else 0;
        WriteLoopByAnswers(out[k..], script[1..]);
        OneMoreAnswer(script);
        AnswersOfRest(out, script, k);
      }
    } else if out == [] {
      assert WriteLoop(out, script) == Written([], [], Drained);
    }
  }

  lemma AnswersOfRest(out: bytes, script: seq<WriteResult>, k: nat)
    requires out != [] && GoingOn(script) > 0 && k == if script[0].Wrote? then Min(script[0].count, |out|) else 0
    ensures var room, more := Room(script[..GoingOn(script)]), Room(script[1..][..GoingOn(script[1..])]);
      && out[..k] + out[k..][..Min(more, |out| - k)] == out[..Min(room, |out|)]
      && (more >= |out| - k <==> room >= |out|)
      && (Fatal(script[1..], |out| - k) <==> Fatal(script, |out|))
  {
    OneMoreAnswer(script);
    SliceTogether(out, k, Min(Room(script[1..][..GoingOn(script[1..])]), |out| - k));
  }

  lemma OneMoreAnswer(script: seq<WriteResult>)
    requires GoingOn(script) > 0
    ensures var n := GoingOn(script);
      n == 1 + GoingOn(script[1..])
      && Room(script[..n]) == (if script[0].Wrote? then script[0].count else 0) + Room(script[1..][..n - 1])
  {
    var n := GoingOn(script);
    assert script[..n][1..] == script[1..][..n - 1];
  }

  lemma SliceTogether(s: bytes, a: nat, b: nat)
    requires a + b <= |s|
    ensures s[..a] + s[a..][..b] == s[..a + b]
  {
  }

  /** The bytes a live connection has to send in its next `onWrite`. */
  function ToSend(c: Conn): nat {
    if c.kind == ByClient && c.out == [] then |EncodeAll(Messages(c.writeDones))| else |c.out|
  }

  /**
   `onWrite` closes a live connection if and only if the socket answers with a fatal
   error while bytes are left; then the disconnect callback runs. Otherwise, a full
   socket included, it stays open with the bytes not taken and its callback in place.
   */
  lemma OnWriteCloses(c: Conn, script: seq<WriteResult>)
    requires c.Live()
    ensures var o, room := OnWrite(c, script), Room(script[..GoingOn(script)]);
      && (o.conn.fd < 0 <==> Fatal(script, ToSend(c)))
      && (o.conn.fd < 0 ==> o.disconnected == c.disconnect)
      && (o.conn.fd >= 0 ==> o.conn.Live() && o.disconnected == None && o.conn.disconnect == c.disconnect)
      && |o.accepted| == Min(room, ToSend(c)) && |o.conn.out| == ToSend(c) - |o.accepted|
  {
    WriteLoopByAnswers(Loaded(c).out, script);
  }

  lemma {:induction false} FatalNeedsFailure(script: seq<WriteResult>, length: nat)
    ensures Fatal(script, length) ==> Failure in script
  {
  }

  /** So EAGAIN, EINTR and short writes never close a connection. */
  lemma WithoutFailureStaysOpen(c: Conn, script: seq<WriteResult>)
    requires c.Live() && Failure !in script
    ensures var o := OnWrite(c, script); o.conn.Live() && o.disconnected == None
  {
    OnWriteCloses(c, script);
    FatalNeedsFailure(script, ToSend(c));
  }

  // ---------- waiting to write ----------

  /** An open connection is not Closed, and asks for write events while it holds bytes to send. */
  predicate Waits(c: Conn) {
    c.fd >= 0 ==> c.state != Closed && (c.out != [] ==> c.wantsWrite)
  }

  /** `reply` asks for write events, and a write keeps asking until the out buffer is empty. */
  lemma ReplyWaits(c: Conn, ms: seq<Message>)
    requires Waits(c)
    ensures Waits(Replied(c, ms)) && (c.fd >= 0 ==> Replied(c, ms).wantsWrite)
  {
  }

  lemma WriteWaits(c: Conn, script: seq<WriteResult>)
    requires Waits(c) && (EncodesQueue(c) && c.writeDones != [] ==> c.wantsWrite)
    ensures var o := OnWrite(c, script);
      && Waits(o.conn)
      && (c.Live() && o.conn.fd >= 0 ==> if o.conn.out == [] then !o.conn.wantsWrite else o.conn.wantsWrite)
  {
    if c.Live() {
      WriteLoopByAnswers(Loaded(c).out, script);
      NothingToEncode(c);
    }
  }

  lemma NothingToEncode(c: Conn)
    ensures c.writeDones == [] ==> EncodeAll(Messages(c.writeDones)) == []
  {
  }

  // ---------- reading ----------

  /** The room the next read of a buffer has: a full one is doubled first. */
  function RoomToRead(b: BufferShape): int {
    if b.write == b.capacity then 2 * b.capacity - (b.write - b.read) else b.capacity - b.write
  }

  /** What one read does, said of the answer: how many bytes, whether the loop goes on, and the buffer it leaves. */
  lemma ReadOnceByAnswer(b: BufferShape, available: nat, result: ReadResult)
    ensures var s, room := ReadOnce(b, available, result), RoomToRead(b);
      && GrownBy(b, s.shape, s.count)
      && (room == 0 || result.EndOfFile? || result.ReadFailure? ==> s.count == 0 && s.verdict == Give)
      && (room > 0 && result.NoData? ==> s.count == 0 && s.verdict == Stop)
      && (room > 0 && result.ReadInterrupted? ==> s.count == 0 && s.verdict == GoOn)
      && (room > 0 && result.Got? ==> s.count == Min(result.count, Min(room, available))
                                      && s.verdict == if s.count < room then Stop else GoOn)
  {
    var c := Doubled(b);
    assert c.Readable() == b.Readable() && c.Writable() == RoomToRead(b);
    ReadIntoByAnswer(c, available, result);
  }

  lemma ReadIntoByAnswer(b: BufferShape, available: nat, result: ReadResult)
    ensures var s, room := ReadInto(b, available, result), b.Writable();
      && s.shape.Readable() == b.Readable() + s.count
      && (room == 0 || result.EndOfFile? || result.ReadFailure? ==> s.count == 0 && s.verdict == Give)
      && (room > 0 && result.NoData? ==> s.count == 0 && s.verdict == Stop)
      && (room > 0 && result.ReadInterrupted? ==> s.count == 0 && s.verdict == GoOn)
      && (room > 0 && result.Got? ==> s.count == Min(result.count, Min(room, available))
                                      && s.verdict == if s.count < room then Stop else GoOn)
  {
  }

  /** `r` is what the loop makes of the remaining answers, `n` bytes further on. */
  ghost predicate GoesOn(b: BufferShape, available: nat, n: nat, rest: seq<ReadResult>, r: ReadEnd) {
    n <= available && exists c: BufferShape :: GrownBy(b, c, n) && r == MoreTaken(n, ReadLoop(c, available - n, rest))
  }

  /**
   One turn of the read loop: end of file, a fatal error or a buffer without any room
   close; EAGAIN or fewer bytes than there was room for end it; EINTR or a filled
   buffer make it go on, with the bytes read behind those that were there.
   */
  lemma ReadLoopTurns(b: BufferShape, available: nat, script: seq<ReadResult>)
    requires script != [] && RoomToRead(b) > 0
    ensures var r := ReadLoop(b, available, script);
      match script[0]
      case EndOfFile => r == ReadEnd(0, true)
      case ReadFailure => r == ReadEnd(0, true)
      case NoData => r == ReadEnd(0, false)
      case ReadInterrupted => GoesOn(b, available, 0, script[1..], r)
      case Got(n) =>
        var k := Min(n, Min(RoomToRead(b), available));
        if k < RoomToRead(b) then r == ReadEnd(k, false) else GoesOn(b, available, k, script[1..], r)
  {
    var s := ReadOnce(b, available, script[0]);
    ReadOnceByAnswer(b, available, script[0]);
    assert ReadLoop(b, available, script) == ReadLoopOf(ReadOnce, b, available, script);
    if s.verdict == GoOn {
      assert ReadLoop(b, available, script) == MoreTaken(s.count, ReadLoop(s.shape, available - s.count, script[1..]));
      assert GoesOn(b, available, s.count, script[1..], ReadLoop(b, available, script));
    }
  }

  /** With no answer left, or no room at all, the loop ends. */
  lemma ReadLoopEnds(b: BufferShape, available: nat, script: seq<ReadResult>)
    requires script == [] || RoomToRead(b) == 0
    ensures ReadLoop(b, available, script) == ReadEnd(0, RoomToRead(b) == 0)
  {
    ReadOnceByAnswer(b, available, if script == [] then NoData else script[0]);
  }

  /** `c` holds `n` bytes more than `b`. */
  predicate GrownBy(b: BufferShape, c: BufferShape, n: nat) {
    c.Readable() == b.Readable() + n
  }

  /** A read loop reports a close only on end of file, a fatal error, or a buffer of capacity zero. */
  lemma {:induction false} CloseNeedsACause(b: BufferShape, available: nat, script: seq<ReadResult>)
    requires EndOfFile !in script && ReadFailure !in script && b.capacity > 0
    ensures !ReadLoop(b, available, script).closed
    decreases |script|
  {
    var s := ReadOnce(b, available, if script == [] then NoData else script[0]);
    if script != [] && s.verdict == GoOn {
      CloseNeedsACause(s.shape, available - s.count, script[1..]);
    }
  }

  /** And the first of these it comes to is enough, behind any interruptions. */
  lemma {:induction false} CloseIsReported(
    b: BufferShape, available: nat, before: seq<ReadResult>, end: ReadResult, after: seq<ReadResult>)
    requires forall i :: 0 <= i < |before| ==> before[i] == ReadInterrupted
    requires end == EndOfFile || end == ReadFailure
    ensures ReadLoop(b, available, before + [end] + after) == ReadEnd(0, true)
    decreases |before|
  {
    var script := before + [end] + after;
    if before != [] {
      var s := ReadOnce(b, available, script[0]);
      assert script[0] == before[0];
      if s.verdict == GoOn {
        assert script[1..] == before[1..] + [end] + after;
        CloseIsReported(s.shape, available, before[1..], end, after);
      }
    }
  }
}
