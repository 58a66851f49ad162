/**
 A client and a server on one connection, both directions at once. Requests go
 up, replies come down; a reply copies the id and the method name of a request the
 server has decoded. Every response the client decodes answers a request it sent.
 */
module Duplex {
  import opened Bytes
  import opened TinyPB
  import opened TinyPBStream
  import opened Framing
  import opened ConnectionSpec
  import opened EndToEnd

  /**
   The two ends; the bytes in flight and read, the messages encoded and decoded,
   in each direction.
   */
  datatype Pair = Pair(
    client: Conn, server: Conn,
    upWire: bytes, upRead: bytes, requests: seq<Message>, received: seq<Message>,
    downWire: bytes, downRead: bytes, replies: seq<Message>, responses: seq<Message>)

  /** The pair seen as a sender and a receiver, in either direction. */
  function Up(d: Pair): Link {
    Link(d.client, d.server, d.upWire, d.upRead, d.requests, d.received)
  }

  function Down(d: Pair): Link {
    Link(d.server, d.client, d.downWire, d.downRead, d.replies, d.responses)
  }

  function WithUp(d: Pair, l: Link): Pair {
    d.(client := l.sender, server := l.receiver, upWire := l.wire, upRead := l.received, requests := l.asked,
       received := l.delivered)
  }

  function WithDown(d: Pair, l: Link): Pair {
    d.(server := l.sender, client := l.receiver, downWire := l.wire, downRead := l.received, replies := l.asked,
       responses := l.delivered)
  }

  datatype Move =
    | ClientPushes(pending: Pending)
    | ClientWrites(script: seq<WriteResult>)
    | ServerReads(taken: nat, closed: bool)
    | ServerReplies(index: nat, errCode: int32, errInfo: bytes, body: bytes)   // to any request decoded so far, at any time
    | ServerWrites(script: seq<WriteResult>)
    | ClientReads(taken: nat, closed: bool)
    | ClientCloses
    | ServerCloses

  /** The response record the dispatcher fills in. */
  function ResponseTo(request: Message, errCode: int32, errInfo: bytes, body: bytes): Message {
    Message(0, 0, request.msgId, 0, request.methodName, errCode, 0, errInfo, body, 0, false)
  }

  function Play(d: Pair, e: Move, closes: Callback -> bool): Pair {
    match e
    case ClientPushes(p) => WithUp(d, Step(Up(d), Push(p), closes))
    case ClientWrites(script) => WithUp(d, Step(Up(d), SenderWrites(script), closes))
    case ServerReads(taken, closed) => WithUp(d, Step(Up(d), ReceiverReads(taken, closed), closes))
    case ServerReplies(i, code, info, body) =>
      if i < |d.received| then WithDown(d, Step(Down(d), Reply([ResponseTo(d.received[i], code, info, body)]), closes)) else d
    case ServerWrites(script) => WithDown(d, Step(Down(d), SenderWrites(script), closes))
    case ClientReads(taken, closed) => WithDown(d, Step(Down(d), ReceiverReads(taken, closed), closes))
    case ClientCloses => WithUp(d, Step(Up(d), SenderClears, closes))
    case ServerCloses => WithUp(d, Step(Up(d), ReceiverClears, closes))
  }

  function PlayAll(d: Pair, moves: seq<Move>, closes: Callback -> bool): Pair
    decreases |moves|
  {
    if moves == [] then d else PlayAll(Play(d, moves[0], closes), moves[1..], closes)
  }

  /** Same id and same method. */
  predicate SameCall(a: Message, b: Message) {
    a.msgId == b.msgId && a.methodName == b.methodName
  }

  predicate Answers(m: Message, requests: seq<Message>) {
    exists j :: 0 <= j < |requests| && SameCall(m, requests[j])
  }

  predicate AllAnswer(ms: seq<Message>, requests: seq<Message>) {
    forall k :: 0 <= k < |ms| ==> Answers(ms[k], requests)
  }

  predicate Streams(d: Pair) {
    StreamOk(Up(d)) && DeliveryOk(Up(d)) && StreamOk(Down(d)) && DeliveryOk(Down(d))
  }

  predicate Ok(d: Pair) {
    d.server.kind == ByServer && Streams(d) && AllAnswer(d.replies, d.received)
  }

  // ---------- one direction leaves the other alone ----------

  /** Writing touches neither the bytes to be decoded nor a closed descriptor. */
  lemma WritingLeavesInput(c: Conn, script: seq<WriteResult>)
    ensures var r := OnWrite(c, script).conn; r.inData == c.inData && r.kind == c.kind && (r.fd >= 0 ==> c.fd >= 0)
  {
  }

  /** Reading touches neither the bytes to be sent nor a closed descriptor. */
  lemma ReadingLeavesOutput(c: Conn, data: bytes, closed: bool, closes: Callback -> bool)
    ensures var r := OnRead(c, data, closed, closes).conn; r.out == c.out && r.kind == c.kind && (r.fd >= 0 ==> c.fd >= 0)
  {
    if c.Live() && !closed {
      var d := Decode(c.inData + data);
      RunReadsKeepsData(c.(inData := d.rest), d.messages, closes);
      RunReadsKeepsKind(c.(inData := d.rest), d.messages, closes);
    }
  }

  lemma {:induction false} RunReadsKeepsKind(c: Conn, ms: seq<Message>, closes: Callback -> bool)
    ensures RunReads(c, ms, closes).conn.kind == c.kind
    decreases |ms|
  {
    if ms != [] {
      if ms[0].msgId in c.readDones {
        RunReadsKeepsKind(AfterDone(c, ms[0].msgId, closes(c.readDones[ms[0].msgId])), ms[1..], closes);
      } else {
        RunReadsKeepsKind(c, ms[1..], closes);
      }
    }
  }

  /** A receiver whose input is untouched keeps its direction in order, as does a sender whose output is. */
  lemma OtherDirection(l: Link, sender: Conn, receiver: Conn)
    requires StreamOk(l) && DeliveryOk(l)
    requires sender.out == l.sender.out && (sender.fd >= 0 ==> l.sender.fd >= 0)
    requires receiver.inData == l.receiver.inData && (receiver.fd >= 0 ==> l.receiver.fd >= 0)
    ensures var r := l.(sender := sender, receiver := receiver); StreamOk(r) && DeliveryOk(r)
  {
  }

  /** What a step of one direction does to its two ends. */
  lemma StepOnEnds(l: Link, e: Event, closes: Callback -> bool)
    requires e.Push? || e.SenderWrites? || e.ReceiverReads? || e.SenderClears? || e.ReceiverClears?
    ensures var r := Step(l, e, closes);
      && r.sender.inData == l.sender.inData && (r.sender.fd >= 0 ==> l.sender.fd >= 0)
      && r.receiver.out == l.receiver.out && (r.receiver.fd >= 0 ==> l.receiver.fd >= 0)
      && r.sender.kind == l.sender.kind && r.receiver.kind == l.receiver.kind
      && l.delivered <= r.delivered
  {
    match e
    case SenderWrites(script) => WritingLeavesInput(l.sender, script);
    case ReceiverReads(taken, closed) =>
      if taken <= |l.wire| { ReadingLeavesOutput(l.receiver, l.wire[..taken], closed, closes); }
    case _ =>
  }

  lemma UpKeepsStreams(d: Pair, e: Event, closes: Callback -> bool)
    requires Streams(d) && (e.Push? || e.SenderWrites? || e.ReceiverReads? || e.SenderClears? || e.ReceiverClears?)
    ensures Streams(WithUp(d, Step(Up(d), e, closes)))
  {
    var l := Step(Up(d), e, closes);
    StepKeepsStream(Up(d), e, closes);
    StepKeepsDelivery(Up(d), e, closes);
    StepOnEnds(Up(d), e, closes);
    OtherDirection(Down(d), l.receiver, l.sender);
  }

  lemma DownKeepsStreams(d: Pair, e: Event, closes: Callback -> bool)
    requires Streams(d) && (e.SenderWrites? || e.ReceiverReads?)
    ensures Streams(WithDown(d, Step(Down(d), e, closes)))
  {
    var l := Step(Down(d), e, closes);
    StepKeepsStream(Down(d), e, closes);
    StepKeepsDelivery(Down(d), e, closes);
    StepOnEnds(Down(d), e, closes);
    OtherDirection(Up(d), l.receiver, l.sender);
  }

  lemma ReplyKeepsStreams(d: Pair, m: Message, closes: Callback -> bool)
    requires Streams(d)
    ensures Streams(WithDown(d, Step(Down(d), Reply([m]), closes)))
  {
    var l := Step(Down(d), Reply([m]), closes);
    StepKeepsStream(Down(d), Reply([m]), closes);
    StepKeepsDelivery(Down(d), Reply([m]), closes);
    OtherDirection(Up(d), l.receiver, l.sender);
  }

  // ---------- replies answer requests ----------

  lemma AnswersGrow(ms: seq<Message>, requests: seq<Message>, more: seq<Message>)
    requires AllAnswer(ms, requests) && requests <= more
    ensures AllAnswer(ms, more)
  {
    forall k | 0 <= k < |ms| ensures Answers(ms[k], more) {
      var j :| 0 <= j < |requests| && SameCall(ms[k], requests[j]);
      assert requests[j] == more[j];
    }
  }

  /** Every move keeps both streams in order and the replies to requests that were decoded. */
  lemma PlayKeepsOk(d: Pair, e: Move, closes: Callback -> bool)
    requires Ok(d)
    ensures Ok(Play(d, e, closes))
  {
    match e
    case ServerReplies(i, code, info, body) => if i < |d.received| { ReplyMove(d, i, code, info, body, closes); }
    case ServerWrites(script) => DownMove(d, SenderWrites(script), closes);
    case ClientReads(taken, closed) => DownMove(d, ReceiverReads(taken, closed), closes);
    case _ => PlayingUpKeepsOk(d, e, closes);
  }

  lemma PlayingUpKeepsOk(d: Pair, e: Move, closes: Callback -> bool)
    requires Ok(d) && (e.ClientPushes? || e.ClientWrites? || e.ServerReads? || e.ClientCloses? || e.ServerCloses?)
    ensures Ok(Play(d, e, closes))
  {
    match e
    case ClientPushes(p) => UpMove(d, Push(p), closes);
    case ClientWrites(script) => UpMove(d, SenderWrites(script), closes);
    case ServerReads(taken, closed) => UpMove(d, ReceiverReads(taken, closed), closes);
    case ClientCloses => UpMove(d, SenderClears, closes);
    case ServerCloses => UpMove(d, ReceiverClears, closes);
  }

  lemma UpMove(d: Pair, e: Event, closes: Callback -> bool)
    requires Ok(d) && (e.Push? || e.SenderWrites? || e.ReceiverReads? || e.SenderClears? || e.ReceiverClears?)
    ensures Ok(WithUp(d, Step(Up(d), e, closes)))
  {
    UpKeepsStreams(d, e, closes);
    StepOnEnds(Up(d), e, closes);
    AnswersGrow(d.replies, d.received, Step(Up(d), e, closes).delivered);
  }

  /** A server has no queue of its own to encode. */
  lemma ServerEncodesOnlyReplies(l: Link, e: Event, closes: Callback -> bool)
    requires l.sender.kind == ByServer && (e.SenderWrites? || e.ReceiverReads?)
    ensures Step(l, e, closes).asked == l.asked
  {
  }

  lemma DownMove(d: Pair, e: Event, closes: Callback -> bool)
    requires Ok(d) && (e.SenderWrites? || e.ReceiverReads?)
    ensures Ok(WithDown(d, Step(Down(d), e, closes)))
  {
    DownKeepsStreams(d, e, closes);
    StepOnEnds(Down(d), e, closes);
    ServerEncodesOnlyReplies(Down(d), e, closes);
  }

  lemma ReplyMove(d: Pair, i: nat, code: int32, info: bytes, body: bytes, closes: Callback -> bool)
    requires Ok(d) && i < |d.received|
    ensures Ok(WithDown(d, Step(Down(d), Reply([ResponseTo(d.received[i], code, info, body)]), closes)))
  {
    var m := ResponseTo(d.received[i], code, info, body);
    ReplyKeepsStreams(d, m, closes);
    assert SameCall(m, d.received[i]);
  }

  lemma {:induction false} PlayAllKeepsOk(d: Pair, moves: seq<Move>, closes: Callback -> bool)
    requires Ok(d)
    ensures Ok(PlayAll(d, moves, closes))
    decreases |moves|
  {
    if moves != [] {
      PlayKeepsOk(d, moves[0], closes);
      PlayAllKeepsOk(Play(d, moves[0], closes), moves[1..], closes);
    }
  }

  /** What is sent carries the id and the method of what was asked, with the default id in place of an empty one. */
  lemma {:induction false} SentAnswers(replies: seq<Message>, requests: seq<Message>)
    requires AllAnswer(replies, requests)
    requires forall j :: 0 <= j < |requests| ==> requests[j].msgId != []
    ensures AllAnswer(Sent(replies), requests)
  {
    if replies != [] {
      var rest := replies[1..];
      forall k | 0 <= k < |rest| ensures Answers(rest[k], requests) {
        assert rest[k] == replies[k + 1];
      }
      SentAnswers(rest, requests);
      OneSentAnswers(replies[0], requests);
      var one := SentOne(replies[0]);
      assert Sent(replies) == one + Sent(rest);
    }
  }

  lemma OneSentAnswers(m: Message, requests: seq<Message>)
    requires Answers(m, requests)
    requires forall j :: 0 <= j < |requests| ==> requests[j].msgId != []
    ensures AllAnswer(SentOne(m), requests)
  {
    var j :| 0 <= j < |requests| && SameCall(m, requests[j]);
    assert forall k :: 0 <= k < |SentOne(m)| ==> SameCall(SentOne(m)[k], requests[j]);
  }

  /** No message that was sent has an empty id. */
  lemma {:induction false} SentHasIds(ms: seq<Message>)
    ensures forall j :: 0 <= j < |Sent(ms)| ==> Sent(ms)[j].msgId != []
  {
    if ms != [] {
      SentHasIds(ms[1..]);
      var one := SentOne(ms[0]);
      assert Sent(ms) == one + Sent(ms[1..]);
      assert forall k :: 0 <= k < |one| ==> one[k].msgId != [];
    }
  }

  /** What the invariant says of requests and replies: the server's replies, as sent, answer requests sent to it. */
  lemma RepliesAnswerRequests(d: Pair)
    requires Ok(d)
    ensures d.received <= Sent(d.requests) && d.responses <= Sent(d.replies) && d.downRead <= EncodeAll(d.replies)
    ensures AllAnswer(Sent(d.replies), Sent(d.requests))
  {
    DecodingPrefixes(d.upRead, d.requests);
    DecodingPrefixes(d.downRead, d.replies);
    AnswersGrow(d.replies, d.received, Sent(d.requests));
    SentHasIds(d.requests);
    SentAnswers(d.replies, Sent(d.requests));
  }

  /** Changes of the client's connection that touch neither its buffers nor open a closed descriptor. */
  lemma TouchingTheClient(d: Pair, c: Conn)
    requires Ok(d) && c.out == d.client.out && c.inData == d.client.inData && (c.fd >= 0 ==> d.client.fd >= 0)
    ensures Ok(d.(client := c))
  {
    OtherDirection(Up(d), c, d.server);
    OtherDirection(Down(d), d.server, c);
  }

  /**
   Request and response matching: in every run of both directions, each response
   the client decodes carries the id and the method name of a request it sent.
   */
  lemma ResponsesAnswerRequests(d: Pair, moves: seq<Move>, closes: Callback -> bool)
    requires d.server.kind == ByServer && EndToEnd.Fresh(Up(d)) && EndToEnd.Fresh(Down(d))
    ensures var r := PlayAll(d, moves, closes);
      && r.received <= Sent(r.requests)
      && r.responses <= Sent(r.replies)
      && AllAnswer(r.responses, Sent(r.requests))
  {
    FreshIsOk(Up(d));
    FreshIsOk(Down(d));
    PlayAllKeepsOk(d, moves, closes);
    var r := PlayAll(d, moves, closes);
    RepliesAnswerRequests(r);
    assert forall k :: 0 <= k < |r.responses| ==> r.responses[k] == Sent(r.replies)[k];
  }
}
