/**
 Two connections and the network between them. The sender's socket takes bytes
 in any portions, fails or blocks; the receiver reads them in any portions or
 sees the connection close. What is delivered is always a prefix of what was
 asked to be sent, and all of it once nothing is left on the way.
 */
module EndToEnd {
  import opened Bytes
  import opened TinyPB
  import opened Framing
  import opened TinyPBStream
  import opened ConnectionSpec
  import opened SenderStream
  import SocketLoops

  /**
   `wire` holds the bytes the sender's kernel accepted and the receiver has not
   read; `received` all bytes read so far; `asked` the messages handed to the
   encoder; `delivered` the messages the receiver decoded.
   */
  datatype Link = Link(
    sender: Conn, receiver: Conn, wire: bytes, received: bytes, asked: seq<Message>, delivered: seq<Message>)

  datatype Event =
    | Reply(messages: seq<Message>)
    | Push(pending: Pending)
    | SenderWrites(script: seq<WriteResult>)
    | ReceiverReads(taken: nat, closed: bool)
    | SenderClears
    | ReceiverClears
    | SenderSetsState
    | ReceiverSetsState
    | WireLoses(kept: nat)

  function Step(l: Link, e: Event, closes: Callback -> bool): Link {
    match e
    case Reply(ms) => l.(sender := Replied(l.sender, ms), asked := l.asked + ms)
    case Push(p) => l.(sender := Pushed(l.sender, p))
    case SenderWrites(script) =>
      var w := OnWrite(l.sender, script);
      l.(sender := w.conn, wire := l.wire + w.accepted, asked := AskedBy(l.sender, l.asked))
    case ReceiverReads(taken, closed) =>
      if taken > |l.wire| || !l.receiver.Live() then l
      else
        var r := OnRead(l.receiver, l.wire[..taken], closed, closes);
        l.(receiver := r.conn, wire := l.wire[taken..], received := l.received + l.wire[..taken],
           delivered := l.delivered + r.delivered)
    case SenderClears => l.(sender := Cleared(l.sender))
    case ReceiverClears => l.(receiver := Cleared(l.receiver))
    case SenderSetsState => l.(sender := l.sender.(state := Connected))
    case ReceiverSetsState => l.(receiver := l.receiver.(state := Connected))
    case WireLoses(kept) =>
      // A reset connection may lose what is in flight.
      if l.sender.fd < 0 && kept <= |l.wire| then l.(wire := l.wire[..kept]) else l
  }

  function Run(l: Link, events: seq<Event>, closes: Callback -> bool): Link
    decreases |events|
  {
    if events == [] then l else Run(Step(l, events[0], closes), events[1..], closes)
  }

  /** Nothing sent, buffered or read so far, whatever the state of the two ends. */
  predicate Fresh(l: Link) {
    && l.sender.out == [] && l.receiver.inData == [] && l.wire == [] && l.received == []
    && l.asked == [] && l.delivered == []
  }

  // ---------- the sending side ----------

  /** Bytes received and in flight are a prefix of the encodings; with the out buffer, all of them, while the sender is open. */
  predicate StreamOk(l: Link) {
    && l.received + l.wire <= EncodeAll(l.asked)
    && (l.sender.fd >= 0 ==> l.received + l.wire + l.sender.out == EncodeAll(l.asked))
  }

  lemma WritingKeepsStream(l: Link, script: seq<WriteResult>, closes: Callback -> bool)
    requires StreamOk(l)
    ensures StreamOk(Step(l, SenderWrites(script), closes))
  {
    WriteAccepts(l.sender, script);
    var w := OnWrite(l.sender, script);
    assert l.received + (l.wire + w.accepted) == l.received + l.wire + w.accepted;
    if l.sender.fd >= 0 {
      WriteKeepsStream(l.received + l.wire, l.sender, script, l.asked);
    }
  }

  lemma StepKeepsStream(l: Link, e: Event, closes: Callback -> bool)
    requires StreamOk(l)
    ensures StreamOk(Step(l, e, closes))
  {
    match e
    case Reply(ms) =>
      EncodeAllGrows(l.asked, ms);
      assert l.received + l.wire + (l.sender.out + EncodeAll(ms)) == l.received + l.wire + l.sender.out + EncodeAll(ms);
    case SenderWrites(script) =>
      WritingKeepsStream(l, script, closes);
    case ReceiverReads(taken, closed) =>
      if taken <= |l.wire| && l.receiver.Live() {
        assert l.received + l.wire[..taken] + l.wire[taken..] == l.received + l.wire;
      }
    case WireLoses(kept) =>
      if kept <= |l.wire| {
        assert l.received + l.wire[..kept] <= l.received + l.wire;
      }
    case _ =>
  }

  // ---------- the receiving side ----------

  /** What was delivered is what decoding a prefix of the received bytes gives; while the receiver is open, all of them. */
  predicate Decodes(c: Conn, received: bytes, delivered: seq<Message>) {
    && delivered <= Decode(received).messages
    && (c.fd >= 0 ==> Decode(received) == Decoded(delivered, c.inData))
  }

  predicate DeliveryOk(l: Link) {
    Decodes(l.receiver, l.received, l.delivered)
  }

  lemma {:induction false} RunReadsKeepsData(c: Conn, ms: seq<Message>, closes: Callback -> bool)
    ensures var r := RunReads(c, ms, closes).conn; r.inData == c.inData && r.out == c.out && (r.fd >= 0 ==> c.fd >= 0)
    decreases |ms|
  {
    if ms != [] {
      if ms[0].msgId in c.readDones {
        RunReadsKeepsData(AfterDone(c, ms[0].msgId, closes(c.readDones[ms[0].msgId])), ms[1..], closes);
      } else {
        RunReadsKeepsData(c, ms[1..], closes);
      }
    }
  }

  /** What one read delivers and leaves, whatever the callbacks do. */
  lemma ReadDelivers(c: Conn, data: bytes, closed: bool, closes: Callback -> bool)
    requires c.Live()
    ensures var r := OnRead(c, data, closed, closes);
      && (closed ==> r.delivered == [] && r.conn.fd < 0)
      && (!closed ==> Decode(c.inData + data) == Decoded(r.delivered, r.conn.inData))
  {
    var c1 := c.(inData := Decode(c.inData + data).rest);
    RunReadsKeepsData(c1, Decode(c.inData + data).messages, closes);
  }

  lemma ReadingKeepsDelivery(
    c: Conn, received: bytes, delivered: seq<Message>, data: bytes, closed: bool, closes: Callback -> bool)
    requires Decodes(c, received, delivered) && c.Live()
    ensures var r := OnRead(c, data, closed, closes); Decodes(r.conn, received + data, delivered + r.delivered)
  {
    ReadDelivers(c, data, closed, closes);
    DecodeOfAppended(received, data);
    if closed {
      assert delivered + [] == delivered;
      DecodedIsPrefix(received, data);
    }
  }

  lemma StepKeepsDelivery(l: Link, e: Event, closes: Callback -> bool)
    requires DeliveryOk(l)
    ensures DeliveryOk(Step(l, e, closes))
  {
    if e.ReceiverReads? && e.taken <= |l.wire| && l.receiver.Live() {
      ReadingKeepsDelivery(l.receiver, l.received, l.delivered, l.wire[..e.taken], e.closed, closes);
    }
  }

  // ---------- whole runs ----------

  lemma {:induction false} RunKeeps(l: Link, events: seq<Event>, closes: Callback -> bool)
    requires StreamOk(l) && DeliveryOk(l)
    ensures var r := Run(l, events, closes); StreamOk(r) && DeliveryOk(r)
    decreases |events|
  {
    if events != [] {
      StepKeepsStream(l, events[0], closes);
      StepKeepsDelivery(l, events[0], closes);
      RunKeeps(Step(l, events[0], closes), events[1..], closes);
    }
  }

  lemma FreshIsOk(l: Link)
    requires Fresh(l)
    ensures StreamOk(l) && DeliveryOk(l)
  {
    FixedPoints([]);
  }

  lemma DecodingPrefixes(s: bytes, ms: seq<Message>)
    requires s <= EncodeAll(ms)
    ensures Decode(s).messages <= Sent(ms)
  {
    var all := EncodeAll(ms);
    assert all == s + all[|s|..];
    DecodedIsPrefix(s, all[|s|..]);
    DecodeOfAll(ms);
  }

  lemma DecodeOfAll(ms: seq<Message>)
    ensures Decode(EncodeAll(ms)) == Decoded(Sent(ms), [])
  {
    DecodeOfEncodedThen(ms, []);
    FixedPoints([]);
    assert EncodeAll(ms) + [] == EncodeAll(ms) && Sent(ms) + [] == Sent(ms);
  }

  /** In every run, the messages delivered are a prefix of the messages asked to be sent, in order and unaltered. */
  lemma DeliveredIsPrefixOfSent(l: Link, events: seq<Event>, closes: Callback -> bool)
    requires Fresh(l)
    ensures var r := Run(l, events, closes); r.delivered <= Sent(r.asked)
  {
    FreshIsOk(l);
    RunKeeps(l, events, closes);
    var r := Run(l, events, closes);
    DecodingPrefixes(r.received, r.asked);
  }

  /** Once the out buffer is drained and everything was read without a close, every message has been delivered. */
  lemma EverythingArrives(l: Link, events: seq<Event>, closes: Callback -> bool)
    requires Fresh(l)
    ensures var r := Run(l, events, closes);
      r.sender.fd >= 0 && r.receiver.fd >= 0 && r.sender.out == [] && r.wire == [] ==>
        r.delivered == Sent(r.asked) && r.receiver.inData == []
  {
    FreshIsOk(l);
    RunKeeps(l, events, closes);
    var r := Run(l, events, closes);
    if r.sender.fd >= 0 && r.receiver.fd >= 0 && r.sender.out == [] && r.wire == [] {
      assert r.received + r.wire + r.sender.out == r.received;
      DecodeOfAll(r.asked);
    }
  }

  // ---------- a server waits for write events ----------

  lemma StepKeepsWaiting(l: Link, e: Event, closes: Callback -> bool)
    requires l.sender.kind == ByServer && SocketLoops.Waits(l.sender)
    ensures var r := Step(l, e, closes); r.sender.kind == ByServer && SocketLoops.Waits(r.sender)
  {
    match e
    case Reply(ms) => SocketLoops.ReplyWaits(l.sender, ms);
    case SenderWrites(script) => SocketLoops.WriteWaits(l.sender, script);
    case _ =>
  }

  /** In every run, an open server connection that holds bytes to send is asking for write events, so they do get sent. */
  lemma {:induction false} BytesWaitForWriteEvents(l: Link, events: seq<Event>, closes: Callback -> bool)
    requires l.sender.kind == ByServer && SocketLoops.Waits(l.sender)
    ensures SocketLoops.Waits(Run(l, events, closes).sender)
    decreases |events|
  {
    if events != [] {
      StepKeepsWaiting(l, events[0], closes);
      BytesWaitForWriteEvents(Step(l, events[0], closes), events[1..], closes);
    }
  }

  // ---------- the replies of a server ----------

  /** All messages handed to `reply`, in order. */
  function Replies(events: seq<Event>): seq<Message> {
    if events == [] then []
    else (if events[0].Reply? then events[0].messages else []) + Replies(events[1..])
  }

  lemma StepAsks(l: Link, e: Event, closes: Callback -> bool)
    requires l.sender.kind == ByServer
    ensures var r := Step(l, e, closes);
      r.sender.kind == ByServer && r.asked == l.asked + (if e.Reply? then e.messages else [])
  {
  }

  lemma {:induction false} ServerIsAskedForItsReplies(l: Link, events: seq<Event>, closes: Callback -> bool)
    requires l.sender.kind == ByServer
    ensures Run(l, events, closes).asked == l.asked + Replies(events)
    decreases |events|
  {
    if events == [] {
      assert l.asked + [] == l.asked;
    } else {
      var l1 := Step(l, events[0], closes);
      StepAsks(l, events[0], closes);
      ServerIsAskedForItsReplies(l1, events[1..], closes);
      var more := if events[0].Reply? then events[0].messages else [];
      assert l.asked + more + Replies(events[1..]) == l.asked + (more + Replies(events[1..]));
    }
  }

  /**
   End to end, for a server: whatever the sockets do, the client decodes an
   in-order prefix of the encodable replies, and all of them once the bytes are
   through.
   */
  lemma RepliesArriveInOrder(l: Link, events: seq<Event>, closes: Callback -> bool)
    requires Fresh(l) && l.sender.kind == ByServer
    ensures var r := Run(l, events, closes);
      && r.delivered <= Sent(Replies(events))
      && (r.sender.fd >= 0 && r.receiver.fd >= 0 && r.sender.out == [] && r.wire == [] ==>
          r.delivered == Sent(Replies(events)))
  {
    ServerIsAskedForItsReplies(l, events, closes);
    assert l.asked + Replies(events) == Replies(events);
    DeliveredIsPrefixOfSent(l, events, closes);
    EverythingArrives(l, events, closes);
  }
}
