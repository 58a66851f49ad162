/**
 Where the response of a call comes from. The body it is filled with is that of a
 message its connection decoded under the id of the request, and so of a reply the
 server made to a request with that id.
 */
module CallAnswers {
  import opened Bytes
  import opened Options
  import opened TinyPB
  import opened TinyPBStream
  import opened ConnectionSpec
  import EndToEnd
  import Duplex
  import SenderStream
  import MessageRecords
  import Completion
  import opened ChannelCalls

  /** The body of the answer under way, if any, and of the response are among `bodies`. */
  predicate AnswersFrom(c: Completion.Call, bodies: set<bytes>) {
    && (c.pc.Completing? && c.pc.reason.Answered? ==> c.pc.reason.answer.body in bodies)
    && (c.response.Some? ==> c.response.value in bodies)
  }

  /** Only an answer brings a body into the call. */
  lemma ProtocolKeepsAnswers(c: Completion.Call, e: Completion.Event, bodies: set<bytes>)
    requires AnswersFrom(c, bodies) && (e.Response? ==> e.answer.body in bodies)
    ensures AnswersFrom(Completion.Step(c, e), bodies)
  {
  }

  /** The bodies of the messages that carry the id. */
  function Bodies(ms: seq<Message>, id: bytes): set<bytes> {
    set m | m in ms && m.msgId == id :: m.pbData
  }

  predicate Known(w: World) {
    && AnswersFrom(w.call, Bodies(w.delivered, w.own.request.msgId))
    && EndToEnd.Decodes(w.conn, w.received, w.delivered)
  }

  lemma ReadKeepsKnown(w: World, data: bytes, closed: bool, parses: bool)
    requires Ok(w) && Known(w) && w.conn.Live()
    ensures Known(Reading(w, data, closed, parses))
  {
    var id := w.own.request.msgId;
    var o := OnRead(w.conn, data, closed, NOBODY);
    var bodies := Bodies(w.delivered + o.delivered, id);
    assert Bodies(w.delivered, id) <= bodies;
    EndToEnd.ReadingKeepsDelivery(w.conn, w.received, w.delivered, data, closed, NOBODY);
    ReadOnFlags(w.conn, data, closed, id, w.call.link.connecting);
    ProtocolKeepsAnswers(w.call, Completion.Lost, bodies);
    if o.ran != [] {
      ProtocolKeepsAnswers(w.call, Completion.Response(AnswerOf(o.ran[0].message, parses)), bodies);
    }
  }

  /** What has been read is as before, and a closed connection stays closed. */
  predicate InputKept(w: World, r: World) {
    && r.received == w.received && r.delivered == w.delivered && r.own == w.own
    && r.conn.inData == w.conn.inData && (r.conn.fd >= 0 ==> w.conn.fd >= 0)
  }

  lemma AdvanceKeepsInput(w: World, now: int)
    requires Ok(w)
    ensures InputKept(w, Advanced(w, now))
  {
    assert ConnAfter(w).inData == w.conn.inData && (ConnAfter(w).fd >= 0 ==> w.conn.fd >= 0);
  }

  lemma WritingKeepsInput(w: World, script: seq<WriteResult>)
    requires Ok(w)
    ensures InputKept(w, Writing(w, script))
  {
    Duplex.WritingLeavesInput(w.conn, script);
  }

  /** Nothing but a read touches what has been read. */
  lemma OtherStepOnConn(w: World, e: Event)
    requires Ok(w) && !e.Reads?
    ensures InputKept(w, Step(w, e))
  {
    match e
    case Advance(now) => AdvanceKeepsInput(w, now);
    case Writes(script) => WritingKeepsInput(w, script);
    case _ =>
  }

  /** And nothing else is an answer. */
  lemma OtherStepOnCall(w: World, e: Event, bodies: set<bytes>)
    requires Ok(w) && !e.Reads? && AnswersFrom(w.call, bodies)
    ensures AnswersFrom(Step(w, e).call, bodies)
  {
    match e
    case Advance(_) => ProtocolKeepsAnswers(w.call, Completion.Advance, bodies);
    case Aside(a) => if !a.Response? { ProtocolKeepsAnswers(w.call, a, bodies); }
    case ConnectStarts(outcome) => ProtocolKeepsAnswers(w.call, Completion.ConnectStarts(outcome), bodies);
    case ConnectEnds(result) => ProtocolKeepsAnswers(w.call, Completion.ConnectEnds(result), bodies);
    case Writes(_) =>
      ProtocolKeepsAnswers(w.call, Completion.Written, bodies);
      ProtocolKeepsAnswers(w.call, Completion.Lost, bodies);
    case Clears => ProtocolKeepsAnswers(w.call, Completion.Lost, bodies);
    case LoopTimer(_) =>
      ProtocolKeepsAnswers(w.call, Completion.TimerCollected, bodies);
      ProtocolKeepsAnswers(w.call, Completion.TimerRuns, bodies);
  }

  lemma StepKeepsKnown(w: World, e: Event)
    requires Ok(w) && Known(w)
    ensures Known(Step(w, e)) && Step(w, e).own == w.own
  {
    if e.Reads? {
      if Completion.LoopFree(w.call) && w.conn.Live() { ReadKeepsKnown(w, e.data, e.closed, e.parses); }
    } else {
      OtherStepOnConn(w, e);
      OtherStepOnCall(w, e, Bodies(w.delivered, w.own.request.msgId));
    }
  }

  lemma {:induction false} RunKeepsKnown(w: World, events: seq<Event>)
    requires Ok(w) && Known(w)
    ensures Known(Run(w, events)) && Run(w, events).own == w.own
    decreases |events|
  {
    if events != [] {
      StepKeepsOk(w, events[0]);
      StepKeepsKnown(w, events[0]);
      RunKeepsKnown(Step(w, events[0]), events[1..]);
    }
  }

  /**
   In every run of a call: if the bytes its connection read are a prefix of the
   encodings of `replies`, a response was filled from the body of one of the
   replies sent that carries the id of the request.
   */
  lemma ResponseIsAReply(w: World, events: seq<Event>, replies: seq<Message>)
    requires Start(w) && Run(w, events).received <= EncodeAll(replies)
    ensures var r := Run(w, events);
      && r.delivered <= Sent(replies)
      && (r.call.response.Some? ==>
            exists i :: 0 <= i < |Sent(replies)| && Sent(replies)[i].msgId == w.own.request.msgId
                        && Sent(replies)[i].pbData == r.call.response.value)
  {
    FixedPoints([]);
    RunKeepsKnown(w, events);
    var r := Run(w, events);
    EndToEnd.DecodingPrefixes(r.received, replies);
    if r.call.response.Some? {
      BodyAmong(r.delivered, Sent(replies), w.own.request.msgId, r.call.response.value);
    }
  }

  lemma BodyAmong(ms: seq<Message>, all: seq<Message>, id: bytes, body: bytes)
    requires ms <= all && body in Bodies(ms, id)
    ensures exists i :: 0 <= i < |all| && all[i].msgId == id && all[i].pbData == body
  {
    var m :| m in ms && m.msgId == id && m.pbData == body;
    var i :| 0 <= i < |ms| && ms[i] == m;
    assert all[i] == m;
  }

  // ---------- the call and the server ----------

  /** The call, and the pair of connections whose client end is its own. */
  datatype Joint = Joint(w: World, d: Duplex.Pair)

  datatype Act =
    | OfCall(event: Event)                                 // anything but a read
    | Takes(taken: nat, closed: bool, parses: bool)        // the call's connection reads from the wire
    | OfServer(move: Duplex.Move)

  predicate IsServerMove(m: Duplex.Move) {
    m.ServerReads? || m.ServerReplies? || m.ServerWrites? || m.ServerCloses?
  }

  /** The pair after an event of the call that is not a read: a write puts bytes on the wire. */
  function PairAfter(j: Joint, e: Event): Duplex.Pair {
    if e.Writes? && Completion.LoopFree(j.w.call) then Duplex.Play(j.d, Duplex.ClientWrites(e.script), NOBODY) else j.d
  }

  function Acted(j: Joint, a: Act): Joint
    requires Ok(j.w)
  {
    match a
    case OfCall(e) =>
      if e.Reads? then j
      else
        var w := Step(j.w, e);
        Joint(w, PairAfter(j, e).(client := w.conn))
    case Takes(taken, closed, parses) =>
      if taken > |j.d.downWire| || !Completion.LoopFree(j.w.call) then j
      else
        var w := Step(j.w, Event.Reads(j.d.downWire[..taken], closed, parses));
        Joint(w, Duplex.Play(j.d, Duplex.ClientReads(taken, closed), NOBODY).(client := w.conn))
    case OfServer(m) => if IsServerMove(m) then j.(d := Duplex.Play(j.d, m, NOBODY)) else j
  }

  /** All of them are the request of this call. */
  predicate AllOwn(ms: seq<Message>, request: Message) {
    forall k :: 0 <= k < |ms| ==> ms[k] == request
  }

  /** The call queues and encodes nothing but its request. */
  predicate OwnOnly(j: Joint) {
    && AllOwn(j.d.requests, j.w.own.request)
    && (j.w.conn.out == [] ==> AllOwn(Messages(j.w.conn.writeDones), j.w.own.request))
  }

  /** The two halves tell the same story. */
  predicate Joined(j: Joint) {
    j.d.client == j.w.conn && j.d.downRead == j.w.received && j.d.responses == j.w.delivered
  }

  predicate JointOk(j: Joint) {
    Ok(j.w) && Known(j.w) && Duplex.Ok(j.d) && Joined(j) && OwnOnly(j)
  }

  /** A call about to be set up, and a server, with nothing sent yet. */
  predicate JointStart(j: Joint) {
    && Start(j.w) && j.d.client == j.w.conn && j.d.server.kind == ByServer
    && EndToEnd.Fresh(Duplex.Up(j.d)) && EndToEnd.Fresh(Duplex.Down(j.d))
  }

  lemma StartIsJointOk(j: Joint)
    requires JointStart(j)
    ensures JointOk(j)
  {
    FixedPoints([]);
    EndToEnd.FreshIsOk(Duplex.Up(j.d));
    EndToEnd.FreshIsOk(Duplex.Down(j.d));
  }

  /** What an event that neither reads nor writes does to the queue and the buffers. */
  lemma QuietStep(w: World, e: Event)
    requires Ok(w) && !e.Reads? && !e.Writes?
    ensures Quiet(w, Step(w, e).conn)
  {
    match e
    case Advance(now) => QuietAdvance(w, now);
    case Clears => QuietClear(w);
    case _ =>
  }

  /** Out buffer untouched, and the queue untouched, dropped or longer by the request. */
  predicate Quiet(w: World, c: Conn) {
    && c.out == w.conn.out
    && (c.writeDones == w.conn.writeDones || c.writeDones == []
        || c.writeDones == w.conn.writeDones + [Pending(w.own.request, WRITTEN)])
  }

  lemma QuietAdvance(w: World, now: int)
    requires Ok(w)
    ensures Quiet(w, Advanced(w, now).conn)
  {
    assert Quiet(w, ConnAfter(w));
  }

  lemma QuietClear(w: World)
    requires Ok(w)
    ensures Quiet(w, Closing(w, Cleared(w.conn), ClearRuns(w.conn)).conn)
  {
  }

  lemma OwnAppended(ps: seq<Pending>, p: Pending, request: Message)
    requires AllOwn(Messages(ps), request) && p.message == request
    ensures AllOwn(Messages(ps + [p]), request)
  {
    forall k | 0 <= k < |ps + [p]| ensures Messages(ps + [p])[k] == request {
      if k < |ps| { assert Messages(ps)[k] == request; }
    }
  }

  lemma QuietActKeepsOk(j: Joint, e: Event)
    requires JointOk(j) && !e.Reads? && !e.Writes?
    ensures JointOk(Acted(j, OfCall(e)))
  {
    StepKeepsOk(j.w, e);
    StepKeepsKnown(j.w, e);
    OtherStepOnConn(j.w, e);
    QuietStep(j.w, e);
    Duplex.TouchingTheClient(j.d, Step(j.w, e).conn);
    if j.w.conn.out == [] {
      OwnAppended(j.w.conn.writeDones, Pending(j.w.own.request, WRITTEN), j.w.own.request);
    }
  }

  /** The connection after `onWrite` and the write callback differs from that after `onWrite` in the read callbacks alone. */
  lemma WritingOnConn(w: World, script: seq<WriteResult>)
    requires Ok(w)
    ensures var c := OnWrite(w.conn, script).conn;
      Writing(w, script).conn == c.(readDones := Writing(w, script).conn.readDones)
  {
  }

  /** Either nothing is left to encode afterwards, or the out buffer is not empty, or nothing happened. */
  lemma WritingOnQueue(c: Conn, script: seq<WriteResult>)
    requires c.kind == ByClient
    ensures var r := OnWrite(c, script).conn; r.writeDones == [] || r.out != [] || r == c
  {
  }

  /** The half of a write that is the pair's. */
  lemma WritingOnPair(d: Duplex.Pair, script: seq<WriteResult>)
    ensures var r := Duplex.Play(d, Duplex.ClientWrites(script), NOBODY);
      && r.client == OnWrite(d.client, script).conn && r.requests == SenderStream.AskedBy(d.client, d.requests)
      && r.downRead == d.downRead && r.responses == d.responses
  {
  }

  lemma AskedIsOwn(c: Conn, requests: seq<Message>, request: Message)
    requires AllOwn(requests, request) && (c.out == [] ==> AllOwn(Messages(c.writeDones), request))
    ensures AllOwn(SenderStream.AskedBy(c, requests), request)
  {
  }

  lemma WritingKeepsOwn(j: Joint, script: seq<WriteResult>)
    requires JointOk(j)
    ensures var c := OnWrite(j.w.conn, script).conn;
      && AllOwn(SenderStream.AskedBy(j.w.conn, j.d.requests), j.w.own.request)
      && (c.out == [] ==> AllOwn(Messages(c.writeDones), j.w.own.request))
  {
    WritingOnQueue(j.w.conn, script);
    AskedIsOwn(j.w.conn, j.d.requests, j.w.own.request);
  }

  lemma WriteActKeepsOk(j: Joint, script: seq<WriteResult>)
    requires JointOk(j)
    ensures JointOk(Acted(j, OfCall(Writes(script))))
  {
    if Completion.LoopFree(j.w.call) {
      StepKeepsOk(j.w, Writes(script));
      StepKeepsKnown(j.w, Writes(script));
      Duplex.PlayKeepsOk(j.d, Duplex.ClientWrites(script), NOBODY);
      WritingOnPair(j.d, script);
      WritingOnConn(j.w, script);
      WritingKeepsInput(j.w, script);
      WritingKeepsOwn(j, script);
      JoinedAgain(j.w.own, Step(j.w, Writes(script)), PairAfter(j, Writes(script)));
    }
  }

  /** A pair whose client is the call's connection but for its read callbacks. */
  lemma JoinedAgain(own: Own, w: World, d: Duplex.Pair)
    requires Ok(w) && Known(w) && Duplex.Ok(d) && w.own == own
    requires w.conn == d.client.(readDones := w.conn.readDones) && d.downRead == w.received && d.responses == w.delivered
    requires AllOwn(d.requests, own.request) && (d.client.out == [] ==> AllOwn(Messages(d.client.writeDones), own.request))
    ensures JointOk(Joint(w, d.(client := w.conn)))
  {
    Duplex.TouchingTheClient(d, w.conn);
  }

  /** A read leaves out buffer and queue alone, or closes. */
  lemma ReadingOnQueue(c: Conn, data: bytes, closed: bool, id: bytes)
    requires ConnOk(c, id)
    ensures var r := OnRead(c, data, closed, NOBODY).conn; r.out == c.out && (r.writeDones == c.writeDones || r.writeDones == [])
  {
    if c.Live() && !closed {
      var d := Decode(c.inData + data);
      RunsOnce(c.(inData := d.rest), d.messages, id, NOBODY);
    }
  }

  lemma TakeActKeepsOk(j: Joint, taken: nat, closed: bool, parses: bool)
    requires JointOk(j)
    ensures JointOk(Acted(j, Takes(taken, closed, parses)))
  {
    if taken <= |j.d.downWire| && Completion.LoopFree(j.w.call) {
      var data := j.d.downWire[..taken];
      StepKeepsOk(j.w, Event.Reads(data, closed, parses));
      StepKeepsKnown(j.w, Event.Reads(data, closed, parses));
      ReadingOnQueue(j.w.conn, data, closed, j.w.own.request.msgId);
      Duplex.PlayKeepsOk(j.d, Duplex.ClientReads(taken, closed), NOBODY);
      TakingOnBoth(j, taken, closed, parses);
    }
  }

  lemma TakingOnBoth(j: Joint, taken: nat, closed: bool, parses: bool)
    requires Ok(j.w) && Joined(j) && taken <= |j.d.downWire| && Completion.LoopFree(j.w.call)
    ensures var data := j.d.downWire[..taken];
      var w, d := Step(j.w, Event.Reads(data, closed, parses)), Duplex.Play(j.d, Duplex.ClientReads(taken, closed), NOBODY);
      && w.own == j.w.own && w.conn == OnRead(j.w.conn, data, closed, NOBODY).conn
      && d.client == w.conn && d.requests == j.d.requests && d.downRead == w.received && d.responses == w.delivered
  {
    TakingOnCall(j.w, j.d.downWire[..taken], closed, parses);
    TakingOnPair(j.d, taken, closed);
  }

  /** The bytes a read takes, none if the connection is not live. */
  function Taken(c: Conn, data: bytes): bytes {
    if c.Live() then data else []
  }

  lemma TakingOnCall(w: World, data: bytes, closed: bool, parses: bool)
    requires Ok(w) && Completion.LoopFree(w.call)
    ensures var r, o := Step(w, Event.Reads(data, closed, parses)), OnRead(w.conn, data, closed, NOBODY);
      && r.own == w.own && r.conn == o.conn
      && r.received == w.received + Taken(w.conn, data) && r.delivered == w.delivered + o.delivered
  {
    assert w.received + [] == w.received && w.delivered + [] == w.delivered;
  }

  lemma TakingOnPair(d: Duplex.Pair, taken: nat, closed: bool)
    requires taken <= |d.downWire|
    ensures var r, data := Duplex.Play(d, Duplex.ClientReads(taken, closed), NOBODY), d.downWire[..taken];
      var o := OnRead(d.client, data, closed, NOBODY);
      && r.client == o.conn && r.requests == d.requests
      && r.downRead == d.downRead + Taken(d.client, data) && r.responses == d.responses + o.delivered
  {
    assert d.downRead + [] == d.downRead && d.responses + [] == d.responses;
  }

  lemma ServerActKeepsOk(j: Joint, m: Duplex.Move)
    requires JointOk(j) && IsServerMove(m)
    ensures JointOk(Acted(j, OfServer(m)))
  {
    Duplex.PlayKeepsOk(j.d, m, NOBODY);
    ServerLeavesClient(j.d, m);
  }

  lemma ServerLeavesClient(d: Duplex.Pair, m: Duplex.Move)
    requires Duplex.Ok(d) && IsServerMove(m)
    ensures var r := Duplex.Play(d, m, NOBODY);
      r.client == d.client && r.downRead == d.downRead && r.responses == d.responses && r.requests == d.requests
  {
    match m
    case ServerReads(taken, closed) => ReceivingLeavesSender(Duplex.Up(d), EndToEnd.ReceiverReads(taken, closed));
    case ServerCloses => ReceivingLeavesSender(Duplex.Up(d), EndToEnd.ReceiverClears);
    case ServerWrites(script) => SendingLeavesReceiver(Duplex.Down(d), EndToEnd.SenderWrites(script));
    case ServerReplies(i, code, info, body) =>
      if i < |d.received| {
        SendingLeavesReceiver(Duplex.Down(d), EndToEnd.Reply([Duplex.ResponseTo(d.received[i], code, info, body)]));
      }
  }

  lemma ReceivingLeavesSender(l: EndToEnd.Link, e: EndToEnd.Event)
    requires e.ReceiverReads? || e.ReceiverClears?
    ensures var r := EndToEnd.Step(l, e, NOBODY); r.sender == l.sender && r.asked == l.asked
  {
  }

  lemma SendingLeavesReceiver(l: EndToEnd.Link, e: EndToEnd.Event)
    requires e.Reply? || e.SenderWrites?
    ensures var r := EndToEnd.Step(l, e, NOBODY);
      r.receiver == l.receiver && r.received == l.received && r.delivered == l.delivered
  {
  }

  lemma ActKeepsOk(j: Joint, a: Act)
    requires JointOk(j)
    ensures JointOk(Acted(j, a)) && Acted(j, a).w.own == j.w.own
  {
    ActKeepsOwn(j, a);
    match a
    case OfCall(e) => if e.Writes? { WriteActKeepsOk(j, e.script); } else if !e.Reads? { QuietActKeepsOk(j, e); }
    case Takes(taken, closed, parses) => TakeActKeepsOk(j, taken, closed, parses);
    case OfServer(m) => if IsServerMove(m) { ServerActKeepsOk(j, m); }
  }

  lemma ActKeepsOwn(j: Joint, a: Act)
    requires JointOk(j)
    ensures Acted(j, a).w.own == j.w.own
  {
    match a
    case OfCall(e) => OwnStays(j.w, e);
    case Takes(taken, closed, parses) =>
      if taken <= |j.d.downWire| { OwnStays(j.w, Event.Reads(j.d.downWire[..taken], closed, parses)); }
    case OfServer(_) =>
  }

  function ActedAll(j: Joint, acts: seq<Act>): (r: Joint)
    requires JointOk(j)
    ensures JointOk(r) && r.w.own == j.w.own
    decreases |acts|
  {
    if acts == [] then j
    else
      ActKeepsOk(j, acts[0]);
      ActedAll(Acted(j, acts[0]), acts[1..])
  }

  /** Everything call and server do from the set-up on. */
  function FromStart(j: Joint, acts: seq<Act>): (r: Joint)
    requires JointStart(j)
    ensures JointOk(r) && r.w.own == j.w.own
  {
    StartIsJointOk(j);
    ActedAll(j, acts)
  }

  /** A reply with the id and the method of `request`, carrying `body`. */
  predicate IsReplyTo(m: Message, request: Message, body: bytes) {
    Duplex.SameCall(m, request) && m.pbData == body
  }

  /** As sent, the request is always the same message. */
  lemma {:induction false} SentOwn(ms: seq<Message>, request: Message)
    requires AllOwn(ms, request)
    ensures AllOwn(Sent(ms), PostEncode(request))
  {
    if ms != [] {
      SentOwn(ms[1..], request);
      assert ms[0] == request;
      assert Sent(ms) == SentOne(ms[0]) + Sent(ms[1..]);
    }
  }

  /**
   End to end: whatever the call, its sockets, its timer, the other threads and the
   server do on the one connection between them, the server decodes nothing but the
   call's own request, and the response is the body of a reply the server sent to
   it, under the id and the method of the request.
   */
  lemma ResponseAnswersTheRequest(j: Joint, acts: seq<Act>)
    requires JointStart(j)
    ensures var r := FromStart(j, acts);
      && AllOwn(r.d.received, PostEncode(j.w.own.request))
      && (r.w.call.response.Some? ==>
            exists i :: 0 <= i < |Sent(r.d.replies)| && IsReplyTo(Sent(r.d.replies)[i], j.w.own.request, r.w.call.response.value))
  {
    var r := FromStart(j, acts);
    var request, replies := j.w.own.request, Sent(r.d.replies);
    Duplex.RepliesAnswerRequests(r.d);
    SentOwn(r.d.requests, request);
    assert forall k :: 0 <= k < |r.d.received| ==> r.d.received[k] == Sent(r.d.requests)[k];
    if r.w.call.response.Some? {
      BodyAmong(r.w.delivered, replies, request.msgId, r.w.call.response.value);
      var i :| 0 <= i < |replies| && replies[i].msgId == request.msgId && replies[i].pbData == r.w.call.response.value;
      AnswersOwn(replies[i], Sent(r.d.requests), request);
      assert IsReplyTo(replies[i], request, r.w.call.response.value);
    }
  }

  lemma AnswersOwn(m: Message, sent: seq<Message>, request: Message)
    requires Duplex.Answers(m, sent) && AllOwn(sent, PostEncode(request)) && m.msgId == request.msgId
    ensures Duplex.SameCall(m, request)
  {
  }

  // ---------- the body the server answered with ----------

  /** The bodies the server's code answered with. */
  function Answered(acts: seq<Act>): set<bytes> {
    if acts == [] then {}
    else (if acts[0].OfServer? && acts[0].move.ServerReplies? then {acts[0].move.body} else {}) + Answered(acts[1..])
  }

  predicate BodiesIn(ms: seq<Message>, bodies: set<bytes>) {
    forall k :: 0 <= k < |ms| ==> ms[k].pbData in bodies
  }

  lemma ServerMoveReplies(d: Duplex.Pair, m: Duplex.Move)
    requires Duplex.Ok(d)
    ensures var r := Duplex.Play(d, m, NOBODY);
      r.replies == d.replies || (m.ServerReplies? && |r.replies| == |d.replies| + 1 && r.replies[..|d.replies|] == d.replies
                                 && r.replies[|d.replies|].pbData == m.body)
  {
    match m
    case ServerWrites(script) => Duplex.ServerEncodesOnlyReplies(Duplex.Down(d), EndToEnd.SenderWrites(script), NOBODY);
    case ClientReads(taken, closed) =>
      Duplex.ServerEncodesOnlyReplies(Duplex.Down(d), EndToEnd.ReceiverReads(taken, closed), NOBODY);
    case _ =>
  }

  /** An event of the call leaves the replies alone. */
  lemma CallLeavesReplies(j: Joint, e: Event)
    requires JointOk(j)
    ensures PairAfter(j, e).replies == j.d.replies
  {
    if e.Writes? { ServerMoveReplies(j.d, Duplex.ClientWrites(e.script)); }
  }

  /** What one act adds to the replies is what the server's code answered with. */
  lemma ActReplies(j: Joint, a: Act)
    requires JointOk(j)
    ensures var r, replies := Acted(j, a).d.replies, j.d.replies;
      r == replies || (a.OfServer? && a.move.ServerReplies? && |r| == |replies| + 1 && r[..|replies|] == replies
                       && r[|replies|].pbData == a.move.body)
  {
    match a
    case OfCall(e) => CallLeavesReplies(j, e);
    case Takes(taken, closed, _) => ServerMoveReplies(j.d, Duplex.ClientReads(taken, closed));
    case OfServer(m) => ServerMoveReplies(j.d, m);
  }

  lemma OneMoreBody(before: seq<Message>, after: seq<Message>, body: bytes, bodies: set<bytes>)
    requires BodiesIn(before, bodies) && body in bodies
    requires |after| == |before| + 1 && after[..|before|] == before && after[|before|].pbData == body
    ensures BodiesIn(after, bodies)
  {
    assert forall k :: 0 <= k < |before| ==> after[k] == before[k];
  }

  lemma {:induction false} RepliesAreAnswered(j: Joint, acts: seq<Act>, bodies: set<bytes>)
    requires JointOk(j) && BodiesIn(j.d.replies, bodies) && Answered(acts) <= bodies
    ensures BodiesIn(ActedAll(j, acts).d.replies, bodies)
    decreases |acts|
  {
    if acts != [] {
      var a, next := acts[0], Acted(j, acts[0]);
      ActKeepsOk(j, a);
      ActReplies(j, a);
      if next.d.replies != j.d.replies {
        assert a.move.body in Answered(acts);
        OneMoreBody(j.d.replies, next.d.replies, a.move.body, bodies);
      }
      RepliesAreAnswered(next, acts[1..], bodies);
    }
  }

  lemma {:induction false} SentBodies(ms: seq<Message>, bodies: set<bytes>)
    requires BodiesIn(ms, bodies)
    ensures BodiesIn(Sent(ms), bodies)
  {
    if ms != [] {
      SentBodies(ms[1..], bodies);
      MessageRecords.RecordIsKept(ms[0]);
      assert ms[0].pbData in bodies;
      assert Sent(ms) == SentOne(ms[0]) + Sent(ms[1..]);
    }
  }

  /** And that body is one the server's code answered with. */
  lemma ResponseWasAnswered(j: Joint, acts: seq<Act>)
    requires JointStart(j)
    ensures var r := FromStart(j, acts); r.w.call.response.Some? ==> r.w.call.response.value in Answered(acts)
  {
    StartIsJointOk(j);
    var r := FromStart(j, acts);
    if r.w.call.response.Some? {
      ResponseAnswersTheRequest(j, acts);
      RepliesAreAnswered(j, acts, Answered(acts));
      SentBodies(r.d.replies, Answered(acts));
    }
  }
}
