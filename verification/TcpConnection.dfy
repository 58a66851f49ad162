/** The connection object: its buffers, its callbacks, and the loops that move bytes between them and the socket. */
module TcpConnections {
  import opened Bytes
  import opened Options
  import opened TinyPB
  import opened Framing
  import opened TinyPBStream
  import opened TcpBuffers
  import opened ConnectionSpec
  import TinyPBEncoder
  import TinyPBDecoder

  /** One write of everything readable. */
  method WriteOne(buffer: TcpBuffer, result: WriteResult) returns (sent: bytes, verdict: Verdict)
    requires buffer.Valid()
    modifies buffer
    ensures buffer.Valid() && (buffer.data == old(buffer.data) || fresh(buffer.data))
    ensures WriteStep(|sent|, verdict) == WriteOnce(|old(buffer.Contents())|, result)
    ensures sent == old(buffer.Contents())[..|sent|] && buffer.Contents() == old(buffer.Contents())[|sent|..]
  {
    sent := [];
    ghost var out := buffer.Contents();
    assert out[..0] == [] && out[0..] == out;
    match result
    case Wrote(n) =>
      var rt := Min(n, buffer.ReadAble());
      if rt > 0 {
        sent := buffer.data[buffer.readIndex..buffer.readIndex + rt];
        assert sent == out[..rt];
        buffer.MoveReadIndex(rt);
        verdict := GoOn;
      } else {
        verdict := Stop;
      }
    case WouldBlock => verdict := Stop;
    case Interrupted => verdict := GoOn;
    case Failure => verdict := Give;
  }

  /** The write loop: go on after a short write or EINTR, stop at EAGAIN, at an error, or when all is sent. */
  method WriteAll(buffer: TcpBuffer, script: seq<WriteResult>) returns (accepted: bytes, end: WriteEnd)
    requires buffer.Valid()
    modifies buffer
    ensures buffer.Valid() && (buffer.data == old(buffer.data) || fresh(buffer.data))
    ensures Written(accepted, buffer.Contents(), end) == WriteLoop(old(buffer.Contents()), script)
  {
    var todo := script;
    accepted := [];
    ghost var whole := WriteLoop(buffer.Contents(), script);
    while buffer.ReadAble() > 0
      invariant buffer.Valid() && (buffer.data == old(buffer.data) || fresh(buffer.data))
      invariant whole == Accept(accepted, WriteLoop(buffer.Contents(), todo))
      decreases |todo|
    {
      ghost var out := buffer.Contents();
      if todo == [] {
        return accepted, Stalled;
      }
      var sent, verdict := WriteOne(buffer, todo[0]);
      if verdict != GoOn {
        return accepted, if verdict == Stop then Stalled else Failed;
      }
      assert WriteLoop(out, todo) == Accept(sent, WriteLoop(buffer.Contents(), todo[1..]));
      AcceptTwice(accepted, sent, WriteLoop(buffer.Contents(), todo[1..]));
      accepted, todo := accepted + sent, todo[1..];
    }
    end := Drained;
  }

  /** One read into the free space of the buffer. */
  method ReadOne(buffer: TcpBuffer, net: bytes, result: ReadResult) returns (count: nat, verdict: Verdict)
    requires buffer.Valid()
    modifies buffer, buffer.data
    ensures buffer.Valid() && (buffer.data == old(buffer.data) || fresh(buffer.data))
    ensures ReadStep(count, buffer.ShapeOf(), verdict) == ReadOnce(old(buffer.ShapeOf()), |net|, result)
    ensures buffer.Contents() == old(buffer.Contents()) + net[..count]
  {
    GrowIfFull(buffer);
    count, verdict := ReadInBuffer(buffer, net, result);
  }

  /** The read itself, unless the buffer is full. */
  method ReadInBuffer(buffer: TcpBuffer, net: bytes, result: ReadResult) returns (count: nat, verdict: Verdict)
    requires buffer.Valid()
    modifies buffer, buffer.data
    ensures buffer.Valid() && (buffer.data == old(buffer.data) || fresh(buffer.data))
    ensures ReadStep(count, buffer.ShapeOf(), verdict) == ReadInto(old(buffer.ShapeOf()), |net|, result)
    ensures buffer.Contents() == old(buffer.Contents()) + net[..count]
  {
    ghost var before := buffer.Contents();
    count := 0;
    assert before + net[..0] == before;
    if buffer.WriteAble() == 0 {
      return 0, Give;
    }
    match result
    case Got(n) =>
      count, verdict := ReadSome(buffer, net, n);
    case NoData => verdict := Stop;
    case ReadInterrupted => verdict := GoOn;
    case EndOfFile => verdict := Give;
    case ReadFailure => verdict := Give;
  }

  /** A read of up to `n` bytes, as many as fit. */
  method ReadSome(buffer: TcpBuffer, net: bytes, n: nat) returns (count: nat, verdict: Verdict)
    requires buffer.Valid()
    modifies buffer, buffer.data
    ensures buffer.Valid() && (buffer.data == old(buffer.data) || fresh(buffer.data))
    ensures var room := old(buffer.WriteAble()); count == Min(n, Min(room, |net|)) && verdict == if count == room then GoOn else Stop
    ensures buffer.ShapeOf() == Produced(old(buffer.ShapeOf()), count)
    ensures buffer.Contents() == old(buffer.Contents()) + net[..count]
  {
    var room := buffer.WriteAble();
    count := Min(n, Min(room, |net|));
    Receive(buffer, net[..count]);
    verdict := if count == room then GoOn else Stop;
  }

  ghost predicate IsReadOnce(once: (BufferShape, nat, ReadResult) -> ReadStep) {
    forall b, n, r {:trigger ReadOnce(b, n, r)} :: once(b, n, r) == ReadOnce(b, n, r)
  }

  /** One turn of the read loop, in terms of `once`; is there `more` to do, or has the peer `closed`? */
  method ReadTurn(
    buffer: TcpBuffer, net: bytes, script: seq<ReadResult>, ghost once: (BufferShape, nat, ReadResult) -> ReadStep)
    returns (count: nat, more: bool, closed: bool)
    requires buffer.Valid() && IsReadOnce(once)
    modifies buffer, buffer.data
    ensures buffer.Valid() && (buffer.data == old(buffer.data) || fresh(buffer.data))
    ensures count <= |net| && (more ==> script != [])
    ensures ReadLoopOf(once, old(buffer.ShapeOf()), |net|, script)
         == if more then MoreTaken(count, ReadLoopOf(once, buffer.ShapeOf(), |net| - count, script[1..])) else ReadEnd(count, closed)
    ensures buffer.Contents() == old(buffer.Contents()) + net[..count]
  {
    var verdict;
    count, verdict := ReadOne(buffer, net, if script == [] then NoData else script[0]);
    more, closed := verdict == GoOn && script != [], verdict == Give;
  }

  /** The read loop: go on after EINTR or a read that filled the buffer. `once` is ReadOnce. */
  method ReadAll(buffer: TcpBuffer, net: bytes, script: seq<ReadResult>,
                 ghost once: (BufferShape, nat, ReadResult) -> ReadStep)
    returns (closed: bool)
    requires buffer.Valid()
    requires IsReadOnce(once)
    modifies buffer, buffer.data
    ensures buffer.Valid() && (buffer.data == old(buffer.data) || fresh(buffer.data))
    ensures var end := ReadLoopOf(once, old(buffer.ShapeOf()), |net|, script);
      closed == end.closed && buffer.Contents() == old(buffer.Contents()) + net[..end.taken]
  {
    ghost var whole := ReadLoopOf(once, buffer.ShapeOf(), |net|, script);
    ghost var got, before, array0 := net[..0], buffer.Contents(), buffer.data;
    var todo, left := script, net;
    NothingTaken(before, net);
    while true
      invariant buffer.Valid() && (buffer.data == array0 || fresh(buffer.data))
      invariant got + left == net && buffer.Contents() == before + got
      invariant whole == MoreTaken(|got|, ReadLoopOf(once, buffer.ShapeOf(), |left|, todo))
      decreases |todo|
    {
      var count, more, end := ReadTurn(buffer, left, todo, once);
      Shift(before, got, left, count);
      got, left := got + left[..count], left[count..];
      if !more {
        TakenSoFar(got, left);
        return end;
      }
      todo := todo[1..];
    }
  }

  lemma NothingTaken(before: bytes, net: bytes)
    ensures net[..0] + net == net && before + net[..0] == before
  {
  }

  /** `count` more bytes move from what is left to what was taken. */
  lemma Shift(before: bytes, got: bytes, left: bytes, count: nat)
    requires count <= |left|
    ensures before + got + left[..count] == before + (got + left[..count])
    ensures got + left[..count] + left[count..] == got + left
  {
  }

  lemma TakenSoFar(got: bytes, left: bytes)
    ensures (got + left)[..|got|] == got
  {
  }

  /** A full buffer is doubled before a read. */
  method GrowIfFull(buffer: TcpBuffer)
    requires buffer.Valid()
    modifies buffer
    ensures buffer.Valid() && (buffer.data == old(buffer.data) || fresh(buffer.data))
    ensures buffer.ShapeOf() == Doubled(old(buffer.ShapeOf()))
    ensures buffer.Contents() == old(buffer.Contents())
  {
    if buffer.WriteAble() == 0 {
      buffer.ResizeBuffer(2 * buffer.data.Length);
    }
  }

  /** The kernel puts `data` behind the write index, and the index moves on. */
  method Receive(buffer: TcpBuffer, data: bytes)
    requires buffer.Valid() && |data| <= buffer.WriteAble()
    modifies buffer, buffer.data
    ensures buffer.Valid() && (buffer.data == old(buffer.data) || fresh(buffer.data))
    ensures buffer.Contents() == old(buffer.Contents()) + data
    ensures buffer.ShapeOf() == Produced(old(buffer.ShapeOf()), |data|)
  {
    Fill(buffer.data, buffer.writeIndex, data);
    assert buffer.data[buffer.writeIndex..buffer.writeIndex + |data|] == data;
    assert buffer.Contents() == old(buffer.Contents());
    buffer.MoveWriteIndex(|data|);
  }

  class TcpConnection {
    const kind: Kind
    const inBuffer: TcpBuffer
    const outBuffer: TcpBuffer
    var state: TcpState
    var fd: int
    var writeDones: seq<Pending>
    var readDones: map<bytes, Callback>
    var disconnectCallback: Option<Callback>
    var wantsWrite: bool

    ghost predicate Valid()
      reads this, inBuffer, outBuffer
    {
      inBuffer != outBuffer && inBuffer.data != outBuffer.data && inBuffer.Valid() && outBuffer.Valid()
    }

    /** Everything the connection consists of. */
    ghost function Repr(): set<object>
      reads this, inBuffer, outBuffer
    {
      {this, inBuffer, outBuffer, inBuffer.data, outBuffer.data}
    }

    ghost function View(): Conn
      requires Valid()
      reads this, inBuffer, outBuffer, inBuffer.data, outBuffer.data
    {
      Conn(kind, state, fd, inBuffer.Contents(), outBuffer.Contents(), writeDones, readDones, disconnectCallback, wantsWrite)
    }

    constructor (fd: int, bufferSize: nat, kind: Kind)
      ensures Valid() && fresh(Repr())
      ensures View() == Conn(kind, NotConnected, fd, [], [], [], map[], None, false)
      ensures inBuffer.ShapeOf() == Shape(bufferSize, 0, 0)
    {
      this.kind, this.fd, state := kind, fd, NotConnected;
      inBuffer := new TcpBuffer(bufferSize);
      outBuffer := new TcpBuffer(bufferSize);
      writeDones, readDones, disconnectCallback, wantsWrite := [], map[], None, false;
    }

    /** Whatever state is asked for, the connection becomes Connected. */
    method SetState(wanted: TcpState)
      requires Valid()
      modifies this
      ensures Valid() && View() == old(View()).(state := Connected)
    {
      state := Connected;
    }

    /** Close once; returns the disconnect callback that is run. */
    method Clear() returns (ran: Option<Callback>)
      requires Valid()
      modifies this
      ensures Valid() && View() == Cleared(old(View())) && ran == ClearRuns(old(View()))
    {
      if state == Closed && fd < 0 {
        return None;
      }
      fd, state, wantsWrite := -1, Closed, false;
      readDones, writeDones := map[], [];
      ran := disconnectCallback;
      disconnectCallback := None;
    }

    method PushSendMessage(message: Message, done: Callback)
      requires Valid()
      modifies this
      ensures Valid() && View() == Pushed(old(View()), Pending(message, done))
    {
      writeDones := writeDones + [Pending(message, done)];
    }

    method PushReadMessage(id: bytes, done: Callback)
      requires Valid()
      modifies this
      ensures Valid() && View() == ReadPushed(old(View()), id, done)
    {
      if id !in readDones {
        readDones := readDones[id := done];
      }
    }

    method RemoveReadMessage(id: bytes)
      requires Valid()
      modifies this
      ensures Valid() && View() == old(View()).(readDones := old(readDones) - {id})
    {
      readDones := readDones - {id};
    }

    method SetDisconnectCallback(done: Option<Callback>)
      requires Valid()
      modifies this
      ensures Valid() && View() == old(View()).(disconnect := done)
    {
      disconnectCallback := done;
    }

    /** Queue replies in the out buffer. */
    method Reply(messages: seq<Message>)
      requires Valid()
      modifies this, outBuffer, outBuffer.data
      ensures Valid() && View() == Replied(old(View()), messages)
    {
      var _ := TinyPBEncoder.EncodeBuffer(messages, outBuffer);
      ListenWrite();
    }

    method ListenWrite()
      requires Valid()
      modifies this`wantsWrite
      ensures Valid()
      ensures View() == old(View()).(wantsWrite := old(wantsWrite) || (state != Closed && fd >= 0))
    {
      if state == Closed || fd < 0 {
        return;
      }
      wantsWrite := true;
    }

    /** Send what is in the out buffer, as far as the socket takes it. */
    method OnWrite(script: seq<WriteResult>) returns (accepted: bytes, ran: seq<Call>, disconnected: Option<Callback>)
      requires Valid()
      modifies this, outBuffer, outBuffer.data
      ensures Valid() && fresh(Repr() - old(Repr()))
      ensures WriteEffect(View(), accepted, ran, disconnected) == ConnectionSpec.OnWrite(old(View()), script)
    {
      accepted, ran, disconnected := [], [], None;
      if state != Connected || fd < 0 {
        return;
      }
      EncodeQueue();
      var end: WriteEnd;
      accepted, end := WriteAll(outBuffer, script);
      if end == Failed {
        disconnected := Clear();
      } else if end == Drained {
        wantsWrite := false;
        if kind == ByClient {
          ran := CallsOf(writeDones);
          writeDones := [];
        }
      }
    }

    /** A client whose out buffer is empty encodes its queue. */
    method EncodeQueue()
      requires Valid() && View().Live()
      modifies this, outBuffer, outBuffer.data
      ensures Valid() && fresh(Repr() - old(Repr()))
      ensures View() == Loaded(old(View()))
    {
      if kind == ByClient && outBuffer.ReadAble() == 0 {
        var messages := Messages(writeDones);
        var encoded := TinyPBEncoder.EncodeBuffer(messages, outBuffer);
        assert [] + EncodeAll(messages) == EncodeAll(messages);
        PostedOneByOne(messages);
        var queue := writeDones;
        writeDones := seq(|queue|, i requires 0 <= i < |queue| => Pending(encoded[i], queue[i].done));
        assert writeDones == AfterEncoding(queue);
      }
    }

    /** Read what the socket has, then decode, unless the peer closed. */
    method OnRead(net: bytes, script: seq<ReadResult>, closes: Callback -> bool)
      returns (delivered: seq<Message>, ran: seq<Call>, disconnected: Option<Callback>)
      requires Valid()
      modifies Repr()
      ensures Valid() && fresh(Repr() - old(Repr()))
      ensures var end := ReadLoop(old(inBuffer.ShapeOf()), |net|, script);
        ReadEffect(View(), delivered, ran, disconnected)
        == ConnectionSpec.OnRead(old(View()), net[..end.taken], end.closed, closes)
    {
      delivered, ran, disconnected := [], [], None;
      if state != Connected || fd < 0 {
        return;
      }
      var closed := ReadAll(inBuffer, net, script, ReadOnce);
      if closed {
        disconnected := Clear();
        return;
      }
      delivered, ran := Excute(closes);
    }

    /** Decode the in buffer; a client runs the callback registered for each message. */
    method Excute(closes: Callback -> bool) returns (delivered: seq<Message>, ran: seq<Call>)
      requires Valid()
      modifies this, inBuffer
      ensures Valid() && fresh(Repr() - old(Repr()))
      ensures ReadEffect(View(), delivered, ran, None) == Execute(old(View()), closes)
    {
      ran := [];
      delivered := TinyPBDecoder.DecodeBuffer(inBuffer);
      if kind == ByClient {
        ran := RunCallbacks(delivered, closes);
      }
    }

    method RunCallbacks(messages: seq<Message>, closes: Callback -> bool) returns (ran: seq<Call>)
      requires Valid()
      modifies this
      ensures Valid() && Repr() == old(Repr())
      ensures Reads(View(), ran) == RunReads(old(View()), messages, closes)
    {
      ran := [];
      ghost var whole := RunReads(View(), messages, closes);
      for i := 0 to |messages|
        invariant Valid() && Repr() == old(Repr())
        invariant var r := RunReads(View(), messages[i..], closes); whole == Reads(r.conn, ran + r.ran)
      {
        var m := messages[i];
        assert messages[i..][0] == m && messages[i..][1..] == messages[i + 1..];
        var run := RunCallback(m, closes);
        ran := ran + run;
      }
    }

    /** Run the callback registered for the id of `m`, if there is one, forgetting it first. */
    method RunCallback(m: Message, closes: Callback -> bool) returns (ran: seq<Call>)
      requires Valid()
      modifies this
      ensures Valid() && Repr() == old(Repr())
      ensures if m.msgId !in old(readDones) then View() == old(View()) && ran == []
        else
          var done := old(readDones)[m.msgId];
          View() == AfterDone(old(View()), m.msgId, closes(done)) && ran == [Call(done, m)]
    {
      if m.msgId !in readDones {
        return [];
      }
      var done := readDones[m.msgId];
      readDones := readDones - {m.msgId};
      ran := [Call(done, m)];
      if closes(done) {
        disconnectCallback := None;
        var _ := Clear();
      }
    }
  }

  lemma AcceptTwice(a: bytes, b: bytes, w: Written)
    ensures Accept(a, Accept(b, w)) == Accept(a + b, w)
  {
    assert a + (b + w.accepted) == a + b + w.accepted;
  }

  lemma {:induction false} PostedOneByOne(ms: seq<Message>)
    ensures var p := FlatMap(TinyPBEncoder.Posted, ms);
      |p| == |ms| && forall i :: 0 <= i < |ms| ==> p[i] == PostEncode(ms[i])
  {
    if ms != [] {
      PostedOneByOne(ms[1..]);
    }
  }
}
