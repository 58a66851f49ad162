/**
 The call on the connection of its client and the timer queue of its loop. The
 steps of the completion protocol are carried out on them, and reads, writes,
 closes and expiries of theirs are what the protocol reacts to. The flags the
 protocol speaks of are proved to be the true state of the two.
 */
module ChannelCalls {
  import opened Bytes
  import opened Options
  import opened TinyPB
  import opened TinyPBStream
  import opened ConnectionSpec
  import opened TimerSpec
  import TimerRuns
  import TimerCancellation
  import TimerArming
  import SocketLoops
  import RpcControllers
  import Completion
  import CallResults

  /** The three callbacks the call gives its connection. */
  const WRITTEN: Callback := 1
  const ANSWERED: Callback := 2
  const LOST: Callback := 3

  /** While a read runs its callbacks none disconnects: completion does so later, in a small step of its own. */
  const NOBODY: Callback -> bool := _ => false

  /** What the completion protocol sees of a connection. */
  function LinkOf(c: Conn, id: bytes, connecting: bool): Completion.Link {
    Completion.Link(c.fd < 0, connecting, c.writeDones != [], id in c.readDones, c.disconnect != None)
  }

  /** What it sees of the timer queue; `collected` says whether the event is among the tasks about to run. */
  function EventFlags(t: Timers, event: EventId, collected: bool): Completion.Timer {
    Completion.Timer(IsPending(t, event), event in t.events && t.events[event].cancelled, collected)
  }

  function TimerOf(s: TimerRuns.Sys, event: EventId): Completion.Timer {
    EventFlags(s.timers, event, TimerRuns.Fires(s.tasks, event))
  }

  /** The request, the timer event and its interval, fixed when the call is set up. */
  datatype Own = Own(request: Message, event: EventId, timeout: int)

  /** `received` are the bytes the connection has read, `delivered` the messages it decoded. */
  datatype World = World(
    own: Own, call: Completion.Call, conn: Conn, loop: TimerRuns.Sys, received: bytes, delivered: seq<Message>)

  datatype Event =
    | Advance(now: int)                                    // the next small step of CallMethod or of completion
    | Aside(event: Completion.Event)                       // controller, cancel task, owner
    | ConnectStarts(outcome: Completion.Connecting)
    | ConnectEnds(result: Completion.Connection)
    | Writes(script: seq<WriteResult>)                     // onWrite
    | Reads(data: bytes, closed: bool, parses: bool)       // onRead; does the body of an answer parse?
    | Clears                                               // an error event of the descriptor
    | LoopTimer(op: TimerRuns.Op)                          // the timer queue; additions and deletions are those of others

  /** The protocol is told of `e`. */
  function Told(w: World, e: Completion.Event): World {
    w.(call := Completion.Step(w.call, e))
  }

  predicate Wanted(c: Completion.Call) {
    c.alive && !c.completed
  }

  // ---------- what the small steps do to connection and queue ----------

  function ConnAfter(w: World): Conn {
    match w.call.pc
    case Setup(k) => if k == 2 then w.conn.(disconnect := Some(LOST)) else w.conn
    case Completing(k, _) =>
      if k == 1 then w.conn.(disconnect := None)
      else if k == 2 then w.conn.(readDones := w.conn.readDones - {w.own.request.msgId})
      else if k == 8 then Disconnected(w.conn)
      else w.conn
    case _ => w.conn
  }

  function LoopAfter(w: World, now: int): (r: TimerRuns.Sys)
    requires TimerRuns.Valid(w.loop)
  {
    match w.call.pc
    case Setup(k) =>
      if k == 1 then TimerRuns.Step(w.loop, TimerRuns.New(w.own.event, w.own.timeout, false, now)) else w.loop
    case Completing(k, _) =>
      if k == 3 && w.own.event in w.loop.timers.events then TimerCancellation.Deleted(w.loop, w.own.event) else w.loop
    case _ => w.loop
  }

  function Advanced(w: World, now: int): World
    requires TimerRuns.Valid(w.loop)
  {
    if w.call.pc == Completion.Setup(1) && now < w.loop.clock then w
    else Told(w, Completion.Advance).(conn := ConnAfter(w), loop := LoopAfter(w, now))
  }

  /** Queue the request and ask for write events, unless nobody waits for the call any more. */
  function Sending(w: World, c: Conn): Conn {
    if Wanted(w.call) then
      Pushed(c, Pending(w.own.request, WRITTEN)).(wantsWrite := c.wantsWrite || (c.state != Closed && c.fd >= 0))
    else c
  }

  /** `connect` succeeded: setState and the callback. */
  function Opened(w: World): Conn {
    Sending(w, w.conn.(state := Connected))
  }

  // ---------- what connection and queue do to the call ----------

  /** The connection has become `c`, and `ran` is the disconnect callback it ran. */
  function Closing(w: World, c: Conn, ran: Option<Callback>): World {
    if ran.Some? || (w.conn.fd >= 0 && c.fd < 0) then Told(w, Completion.Lost).(conn := c) else w.(conn := c)
  }

  function Writing(w: World, script: seq<WriteResult>): World {
    var o := OnWrite(w.conn, script);
    if o.ran == [] then Closing(w, o.conn, o.disconnected)
    else Told(w, Completion.Written).(conn := if Wanted(w.call) then ReadPushed(o.conn, w.own.request.msgId, ANSWERED) else o.conn)
  }

  function AnswerOf(m: Message, parses: bool): Completion.Answer {
    Completion.Answer(true, parses, m.pbData, m.errCode, m.errInfo)
  }

  /** A read; an answer enters the gate, and the steps of completion follow on their own. */
  function Reading(w: World, data: bytes, closed: bool, parses: bool): World {
    if !w.conn.Live() then w
    else
      var o := OnRead(w.conn, data, closed, NOBODY);
      var r := w.(received := w.received + data, delivered := w.delivered + o.delivered);
      if o.ran == [] then Closing(r, o.conn, o.disconnected)
      else Told(r, Completion.Response(AnswerOf(o.ran[0].message, parses))).(conn := o.conn)
  }

  /** Steps only the loop thread takes. */
  predicate OfLoop(op: TimerRuns.Op) {
    op.Collect? || op.Restart? || op.PutBack? || op.Arm? || op.RunTask?
  }

  predicate Allowed(w: World, op: TimerRuns.Op) {
    if OfLoop(op) then Completion.LoopFree(w.call) else op.id != w.own.event
  }

  function Ticking(w: World, op: TimerRuns.Op): World
    requires TimerRuns.Valid(w.loop)
  {
    var r := w.(loop := TimerRuns.Step(w.loop, op));
    if IsPending(w.loop.timers, w.own.event) && !IsPending(r.loop.timers, w.own.event) then Told(r, Completion.TimerCollected)
    else if op.RunTask? && w.loop.phase.Settled? && w.loop.tasks != [] && w.loop.tasks[0].id == w.own.event then
      Told(r, Completion.TimerRuns)
    else r
  }

  function Step(w: World, e: Event): World
    requires TimerRuns.Valid(w.loop)
  {
    match e
    case Advance(now) => Advanced(w, now)
    case Aside(a) =>
      if a.CancelCalled? || a.NotifyCalled? || a.CancelInvoked? || a.CancelTask? || a.OwnerDies? then Told(w, a) else w
    case ConnectStarts(outcome) =>
      if w.call.pc != Completion.Setup(3) then w
      else Told(w, Completion.ConnectStarts(outcome)).(conn := if outcome.Now? then Opened(w) else w.conn)
    case ConnectEnds(result) =>
      if !Completion.LoopFree(w.call) || !w.call.link.connecting then w
      else Told(w, Completion.ConnectEnds(result)).(conn := if result.Established? then Opened(w) else Disconnected(w.conn))
    case Writes(script) => if Completion.LoopFree(w.call) then Writing(w, script) else w
    case Reads(data, closed, parses) => if Completion.LoopFree(w.call) then Reading(w, data, closed, parses) else w
    case Clears => if Completion.LoopFree(w.call) then Closing(w, Cleared(w.conn), ClearRuns(w.conn)) else w
    case LoopTimer(op) => if Allowed(w, op) then Ticking(w, op) else w
  }

  // ---------- the flags are the state ----------

  predicate LinkAgrees(w: World) {
    w.call.link == LinkOf(w.conn, w.own.request.msgId, w.call.link.connecting)
  }

  predicate TimerAgrees(w: World) {
    w.call.timer == TimerOf(w.loop, w.own.event)
  }

  /** A closed connection keeps no callback; an open one waits for this id only. */
  predicate ConnOk(c: Conn, id: bytes) {
    && c.kind == ByClient
    && (forall k :: k in c.readDones ==> k == id)
    && (c.fd < 0 ==> c.writeDones == [] && c.readDones == map[] && c.disconnect == None)
  }

  predicate LoopOk(s: TimerRuns.Sys, event: EventId) {
    && TimerRuns.Valid(s) && TimerRuns.OneShotOk(s, event)
    && (event in s.timers.events ==> !s.timers.events[event].repeated)
  }

  /** How far the set-up has come, and that an open call hears of a close. */
  predicate StageOk(w: World) {
    var c := w.call;
    && (c.completed <==> Completion.Progress(c) > 0)
    && (c.pc.Setup? ==> w.conn.fd >= 0 && c.pc.stage <= 3)
    && (w.own.event in w.loop.timers.events <==> !(c.pc.Setup? && c.pc.stage <= 1))
    && ((c.pc == Completion.Idle && Wanted(c)) || c.pc == Completion.Setup(3) ==> w.conn.fd >= 0 && w.conn.disconnect.Some?)
  }

  predicate Ok(w: World) {
    && LinkAgrees(w) && TimerAgrees(w) && StageOk(w)
    && ConnOk(w.conn, w.own.request.msgId) && LoopOk(w.loop, w.own.event)
  }

  // ---------- connection operations as flag changes ----------

  /** `pushReadMessage` and `removeReadMessage`. */
  lemma ReadCallbackOnFlags(c: Conn, id: bytes, connecting: bool)
    requires ConnOk(c, id)
    ensures LinkOf(ReadPushed(c, id, ANSWERED), id, connecting) == LinkOf(c, id, connecting).(reading := true)
    ensures var r := c.(readDones := c.readDones - {id});
      LinkOf(r, id, connecting) == LinkOf(c, id, connecting).(reading := false) && ConnOk(r, id)
  {
  }

  /** `clear` and `disconnect`. */
  lemma ClosingOnFlags(c: Conn, id: bytes, connecting: bool)
    requires ConnOk(c, id)
    ensures LinkOf(Cleared(c), id, connecting) == Completion.Closed(LinkOf(c, id, connecting)) && ConnOk(Cleared(c), id)
    ensures LinkOf(Disconnected(c), id, connecting) == Completion.Closed(LinkOf(c, id, connecting).(disconnect := false))
    ensures ConnOk(Disconnected(c), id)
    ensures ClearRuns(c).Some? <==> c.disconnect.Some?
  {
  }

  /** The part of `onWrite` behind the encoding. */
  lemma WriteLoopOnFlags(c: Conn, w: Written, id: bytes, connecting: bool)
    requires ConnOk(c, id) && c.fd >= 0
    ensures var o, l := AfterWriteLoop(c, w), LinkOf(c, id, connecting);
      && ConnOk(o.conn, id)
      && (o.ran != [] ==> l.writing && o.conn.fd >= 0 && LinkOf(o.conn, id, connecting) == l.(writing := false))
      && (o.ran == [] && o.conn.fd >= 0 ==> LinkOf(o.conn, id, connecting) == l && o.disconnected == None)
      && (o.ran == [] && o.conn.fd < 0 ==> LinkOf(o.conn, id, connecting) == Completion.Closed(l))
      && (o.conn.fd >= 0 ==> o.conn.disconnect == c.disconnect)
  {
  }

  /** One `onWrite`: the write callback runs exactly when the queue is sent, and a failure is a `clear`. */
  lemma WriteOnFlags(c: Conn, script: seq<WriteResult>, id: bytes, connecting: bool)
    requires ConnOk(c, id)
    ensures var o, l := OnWrite(c, script), LinkOf(c, id, connecting);
      && ConnOk(o.conn, id)
      && (o.ran != [] ==> l.writing && o.conn.fd >= 0 && LinkOf(o.conn, id, connecting) == l.(writing := false))
      && (o.ran == [] && o.conn.fd >= 0 ==> LinkOf(o.conn, id, connecting) == l && o.disconnected == None)
      && (o.ran == [] && o.conn.fd < 0 ==> LinkOf(o.conn, id, connecting) == Completion.Closed(l))
      && (o.disconnected.Some? ==> o.conn.fd < 0 <= c.fd)
      && (o.conn.fd >= 0 ==> c.fd >= 0 && o.conn.disconnect == c.disconnect)
  {
    if c.Live() {
      var c1 := Loaded(c);
      assert LinkOf(c1, id, connecting) == LinkOf(c, id, connecting) && ConnOk(c1, id);
      WriteLoopOnFlags(c1, WriteLoop(c1.out, script), id, connecting);
    }
  }

  /** Without disconnecting callbacks, only messages with the id run anything, and at most one does. */
  lemma {:induction false} RunsOnce(c: Conn, ms: seq<Message>, id: bytes, closes: Callback -> bool)
    requires (forall k :: k in c.readDones ==> k == id) && !closes(if id in c.readDones then c.readDones[id] else 0)
    ensures var r := RunReads(c, ms, closes);
      && (r.ran == [] ==> r.conn == c)
      && (r.ran != [] ==> id in c.readDones && r.conn == c.(readDones := c.readDones - {id}))
      && (r.ran != [] ==> r.ran[0].message in ms && r.ran[0].message.msgId == id)
    decreases |ms|
  {
    if ms != [] {
      if ms[0].msgId in c.readDones {
        NothingToRun(c.(readDones := c.readDones - {id}), ms[1..], closes);
      } else {
        RunsOnce(c, ms[1..], id, closes);
      }
    }
  }

  lemma {:induction false} NothingToRun(c: Conn, ms: seq<Message>, closes: Callback -> bool)
    requires forall k :: k !in c.readDones
    ensures RunReads(c, ms, closes) == ConnectionSpec.Reads(c, [])
    decreases |ms|
  {
    if ms != [] {
      NothingToRun(c, ms[1..], closes);
    }
  }

  /** One `onRead`: the read callback runs exactly on a message with the id, and is forgotten; a close is a `clear`. */
  lemma ReadOnFlags(c: Conn, data: bytes, closed: bool, id: bytes, connecting: bool)
    requires ConnOk(c, id) && c.Live()
    ensures var o, l := OnRead(c, data, closed, NOBODY), LinkOf(c, id, connecting);
      && ConnOk(o.conn, id)
      && (o.ran != [] ==> l.reading && o.conn.fd >= 0 && LinkOf(o.conn, id, connecting) == l.(reading := false))
      && (o.ran != [] ==> o.ran[0].message in o.delivered && o.ran[0].message.msgId == id)
      && (o.ran == [] && o.conn.fd >= 0 ==> LinkOf(o.conn, id, connecting) == l && o.disconnected == None)
      && (o.ran == [] && o.conn.fd < 0 ==> LinkOf(o.conn, id, connecting) == Completion.Closed(l))
      && (o.conn.fd >= 0 ==> o.conn.disconnect == c.disconnect)
  {
    var c1 := c.(inData := c.inData + data);
    if closed {
      ClosingOnFlags(c1, id, connecting);
    } else {
      var d := Decode(c1.inData);
      RunsOnce(c1.(inData := d.rest), d.messages, id, NOBODY);
    }
  }

  // ---------- protocol steps as flag changes ----------

  /** The call reacts to its connection or timer on the loop thread: new flags, and perhaps the gate. */
  predicate Reacted(c: Completion.Call, next: Completion.Call, link: Completion.Link, timer: Completion.Timer) {
    && next.link == link && next.timer == timer
    && (next.completed <==> Completion.Progress(next) > 0)
    && !next.pc.Setup? && (Wanted(next) ==> Wanted(c))
  }

  lemma LostReaction(c: Completion.Call)
    requires Completion.LoopFree(c) && (c.completed <==> Completion.Progress(c) > 0)
    ensures var next := Completion.Step(c, Completion.Lost);
      Reacted(c, next, Completion.Closed(c.link), c.timer) && (c.link.disconnect && !c.link.closed ==> !Wanted(next))
  {
  }

  lemma WrittenReaction(c: Completion.Call)
    requires Completion.LoopFree(c) && (c.completed <==> Completion.Progress(c) > 0) && c.link.writing
    ensures var next := Completion.Step(c, Completion.Written);
      Reacted(c, next, c.link.(writing := false, reading := c.link.reading || Wanted(c)), c.timer)
  {
  }

  lemma ResponseReaction(c: Completion.Call, answer: Completion.Answer)
    requires Completion.LoopFree(c) && (c.completed <==> Completion.Progress(c) > 0) && c.link.reading
    ensures Reacted(c, Completion.Step(c, Completion.Response(answer)), c.link.(reading := false), c.timer)
  {
  }

  lemma ConnectReaction(c: Completion.Call, result: Completion.Connection)
    requires Completion.LoopFree(c) && (c.completed <==> Completion.Progress(c) > 0) && c.link.connecting
    ensures var next, l := Completion.Step(c, Completion.ConnectEnds(result)), c.link.(connecting := false);
      if result.Established? then Reacted(c, next, l.(writing := l.writing || Wanted(c)), c.timer)
      else Reacted(c, next, Completion.Closed(l.(disconnect := false)), c.timer) && !Wanted(next)
  {
  }

  lemma TimerReactions(c: Completion.Call)
    requires Completion.LoopFree(c) && (c.completed <==> Completion.Progress(c) > 0)
    ensures c.timer.pending ==> Reacted(c, Completion.Step(c, Completion.TimerCollected), c.link,
      c.timer.(pending := false, collected := c.timer.collected || !c.timer.cancelled))
    ensures c.timer.collected ==> Reacted(c, Completion.Step(c, Completion.TimerRuns), c.link, c.timer.(collected := false))
  {
  }

  /** The flags after a small step. */
  lemma AdvanceReaction(c: Completion.Call)
    ensures var next := Completion.Step(c, Completion.Advance);
      && next.alive == c.alive && next.completed == c.completed
      && next.link == LinkAdvanced(c.pc, c.link)
      && next.timer == TimerAdvanced(c.pc, c.timer)
      && next.pc == PcAdvanced(c.pc)
  {
  }

  function LinkAdvanced(pc: Completion.Pc, l: Completion.Link): Completion.Link {
    match pc
    case Setup(k) => if k == 2 then l.(disconnect := true) else l
    case Completing(k, _) =>
      if k == 1 then l.(disconnect := false)
      else if k == 2 then l.(reading := false)
      else if k == 8 then Completion.Closed(l.(disconnect := false))
      else l
    case _ => l
  }

  function TimerAdvanced(pc: Completion.Pc, t: Completion.Timer): Completion.Timer {
    match pc
    case Setup(k) => if k == 1 then t.(pending := true) else t
    case Completing(k, _) => if k == 3 then t.(pending := false, cancelled := true) else t
    case _ => t
  }

  function PcAdvanced(pc: Completion.Pc): Completion.Pc {
    match pc
    case Setup(k) => if k < 3 then Completion.Setup(k + 1) else pc
    case Completing(k, r) => if k < Completion.LAST_STAGE then Completion.Completing(k + 1, r) else Completion.Returned
    case _ => pc
  }

  // ---------- every event keeps them in agreement ----------

  /** The small step on the connection. */
  lemma AdvanceOnConn(w: World)
    requires Ok(w)
    ensures LinkOf(ConnAfter(w), w.own.request.msgId, w.call.link.connecting) == LinkAdvanced(w.call.pc, w.call.link)
    ensures ConnOk(ConnAfter(w), w.own.request.msgId) && (!w.call.pc.Completing? ==> ConnAfter(w).fd == w.conn.fd)
  {
    if w.call.pc.Completing? {
      if w.call.pc.stage == 2 { ReadCallbackOnFlags(w.conn, w.own.request.msgId, w.call.link.connecting); }
      if w.call.pc.stage == 8 { ClosingOnFlags(w.conn, w.own.request.msgId, w.call.link.connecting); }
    }
  }

  /** The small step on the timer queue: adding the event, and deleting it. */
  lemma AdvanceOnLoop(w: World, now: int)
    requires Ok(w) && (w.call.pc == Completion.Setup(1) ==> now >= w.loop.clock)
    ensures var r := LoopAfter(w, now);
      && TimerOf(r, w.own.event) == TimerAdvanced(w.call.pc, w.call.timer) && LoopOk(r, w.own.event)
      && (w.own.event in r.timers.events <==> w.own.event in w.loop.timers.events || w.call.pc == Completion.Setup(1))
  {
    var event := w.own.event;
    match w.call.pc
    case Setup(k) =>
      if k == 1 {
        var op := TimerRuns.New(event, w.own.timeout, false, now);
        TimerRuns.StepKeepsValid(w.loop, op);
        TimerRuns.StepKeepsOneShot(w.loop, op, event);
        TimerRuns.AddedFacts(TimerRuns.Constructed(w.loop.timers, event, w.own.timeout, false, now), event, now);
      }
    case Completing(k, _) =>
      if k == 3 { DeletingKeepsLoop(w.loop, event); }
    case _ =>
  }

  lemma DeletingKeepsLoop(s: TimerRuns.Sys, event: EventId)
    requires LoopOk(s, event) && event in s.timers.events
    ensures var r := TimerCancellation.Deleted(s, event);
      LoopOk(r, event) && TimerOf(r, event) == TimerOf(s, event).(pending := false, cancelled := true)
      && event in r.timers.events
  {
    var ops := [TimerRuns.Cancel(event), TimerRuns.Erase(event)];
    TimerRuns.OneShotFiresAtMostOnce(s, ops, event);
    StaysOneShot(s, ops, event);
  }

  lemma {:induction false} StaysOneShot(s: TimerRuns.Sys, ops: seq<TimerRuns.Op>, event: EventId)
    requires LoopOk(s, event) && event in s.timers.events
    ensures var r := TimerRuns.Run(s, ops); event in r.timers.events && !r.timers.events[event].repeated
    decreases |ops|
  {
    if ops != [] {
      TimerRuns.StepKeepsValid(s, ops[0]);
      TimerRuns.StepKeepsOneShot(s, ops[0], event);
      TimerRuns.PendingOfStep(s, ops[0], event);
      StaysOneShot(TimerRuns.Step(s, ops[0]), ops[1..], event);
    }
  }

  lemma AdvanceKeepsOk(w: World, now: int)
    requires Ok(w)
    ensures Ok(Advanced(w, now))
  {
    if !(w.call.pc == Completion.Setup(1) && now < w.loop.clock) {
      AdvanceOnConn(w);
      AdvanceOnLoop(w, now);
      AdvanceReaction(w.call);
      var next := Completion.Step(w.call, Completion.Advance);
      SmallStepKeepsOk(w, next, ConnAfter(w), LoopAfter(w, now));
    }
  }

  lemma SmallStepKeepsOk(w: World, next: Completion.Call, c: Conn, s: TimerRuns.Sys)
    requires Ok(w) && ConnOk(c, w.own.request.msgId) && LoopOk(s, w.own.event)
    requires next.alive == w.call.alive && next.completed == w.call.completed && next.pc == PcAdvanced(w.call.pc)
    requires next.link == LinkOf(c, w.own.request.msgId, next.link.connecting) && next.timer == TimerOf(s, w.own.event)
    requires next.link == LinkAdvanced(w.call.pc, w.call.link)
    requires !w.call.pc.Completing? ==> c.fd == w.conn.fd
    requires w.own.event in s.timers.events <==> w.own.event in w.loop.timers.events || w.call.pc == Completion.Setup(1)
    ensures Ok(w.(call := next, conn := c, loop := s))
  {
  }

  /** A reaction on the loop thread keeps everything in agreement. */
  lemma ReactionKeepsOk(w: World, next: Completion.Call, c: Conn, s: TimerRuns.Sys)
    requires Ok(w) && Completion.LoopFree(w.call) && ConnOk(c, w.own.request.msgId) && LoopOk(s, w.own.event)
    requires Reacted(w.call, next, LinkOf(c, w.own.request.msgId, next.link.connecting), TimerOf(s, w.own.event))
    requires w.own.event in s.timers.events
    requires c.fd >= 0 ==> w.conn.fd >= 0 && c.disconnect == w.conn.disconnect
    requires c.fd < 0 ==> w.conn.fd < 0 || !Wanted(next)
    ensures Ok(w.(call := next, conn := c, loop := s))
  {
  }

  lemma ConnectingKeepsOk(w: World, outcome: Completion.Connecting)
    requires Ok(w)
    ensures Ok(Step(w, ConnectStarts(outcome)))
  {
  }

  lemma ConnectEndKeepsOk(w: World, result: Completion.Connection)
    requires Ok(w)
    ensures Ok(Step(w, ConnectEnds(result)))
  {
    if Completion.LoopFree(w.call) && w.call.link.connecting {
      ConnectReaction(w.call, result);
      ClosingOnFlags(w.conn, w.own.request.msgId, false);
      OpeningOnFlags(w);
      var next := Completion.Step(w.call, Completion.ConnectEnds(result));
      ReactionKeepsOk(w, next, if result.Established? then Opened(w) else Disconnected(w.conn), w.loop);
    }
  }

  /** setState and `writeMessage`. */
  lemma OpeningOnFlags(w: World)
    requires Ok(w) && (Wanted(w.call) ==> w.conn.fd >= 0)
    ensures var c := Opened(w);
      && ConnOk(c, w.own.request.msgId) && c.fd == w.conn.fd && c.disconnect == w.conn.disconnect
      && LinkOf(c, w.own.request.msgId, false)
         == LinkOf(w.conn, w.own.request.msgId, false).(writing := w.conn.writeDones != [] || Wanted(w.call))
  {
  }

  lemma ClosingKeepsOk(w: World, c: Conn, ran: Option<Callback>)
    requires Ok(w) && Completion.LoopFree(w.call) && ConnOk(c, w.own.request.msgId)
    requires ran.Some? ==> c.fd < 0 <= w.conn.fd
    requires c.fd >= 0 ==> w.conn.fd >= 0 && c.disconnect == w.conn.disconnect
    requires var l := LinkOf(w.conn, w.own.request.msgId, w.call.link.connecting);
      LinkOf(c, w.own.request.msgId, w.call.link.connecting) == if c.fd < 0 then Completion.Closed(l) else l
    ensures Ok(Closing(w, c, ran))
  {
    if ran.Some? || (w.conn.fd >= 0 && c.fd < 0) {
      LostReaction(w.call);
      ReactionKeepsOk(w, Completion.Step(w.call, Completion.Lost), c, w.loop);
    }
  }

  lemma WritingKeepsOk(w: World, script: seq<WriteResult>)
    requires Ok(w) && Completion.LoopFree(w.call)
    ensures Ok(Writing(w, script))
  {
    var o := OnWrite(w.conn, script);
    WriteOnFlags(w.conn, script, w.own.request.msgId, w.call.link.connecting);
    if o.ran == [] {
      ClosingKeepsOk(w, o.conn, o.disconnected);
    } else {
      ReadCallbackOnFlags(o.conn, w.own.request.msgId, w.call.link.connecting);
      WrittenReaction(w.call);
      WrittenKeepsOk(w, o.conn, Completion.Step(w.call, Completion.Written));
    }
  }

  lemma WrittenKeepsOk(w: World, c: Conn, next: Completion.Call)
    requires Ok(w) && Completion.LoopFree(w.call) && ConnOk(c, w.own.request.msgId)
    requires c.fd >= 0 && w.conn.fd >= 0 && c.disconnect == w.conn.disconnect
    requires LinkOf(c, w.own.request.msgId, w.call.link.connecting) == w.call.link.(writing := false)
    requires Reacted(w.call, next, w.call.link.(writing := false, reading := w.call.link.reading || Wanted(w.call)), w.call.timer)
    ensures Ok(w.(call := next, conn := if Wanted(w.call) then ReadPushed(c, w.own.request.msgId, ANSWERED) else c))
  {
    ReactionKeepsOk(w, next, if Wanted(w.call) then ReadPushed(c, w.own.request.msgId, ANSWERED) else c, w.loop);
  }

  lemma ReadingKeepsOk(w: World, data: bytes, closed: bool, parses: bool)
    requires Ok(w) && Completion.LoopFree(w.call)
    ensures Ok(Reading(w, data, closed, parses))
  {
    if w.conn.Live() {
      var o := OnRead(w.conn, data, closed, NOBODY);
      var r := w.(received := w.received + data, delivered := w.delivered + o.delivered);
      ReadOnFlags(w.conn, data, closed, w.own.request.msgId, w.call.link.connecting);
      if o.ran == [] {
        ClosingKeepsOk(r, o.conn, o.disconnected);
      } else {
        var answer := AnswerOf(o.ran[0].message, parses);
        ResponseReaction(w.call, answer);
        ReactionKeepsOk(r, Completion.Step(w.call, Completion.Response(answer)), o.conn, w.loop);
      }
    }
  }

  lemma ClearingKeepsOk(w: World)
    requires Ok(w)
    ensures Ok(Step(w, Clears))
  {
    ClosingOnFlags(w.conn, w.own.request.msgId, w.call.link.connecting);
    if Completion.LoopFree(w.call) {
      ClosingKeepsOk(w, Cleared(w.conn), ClearRuns(w.conn));
    }
  }

  /** What a step of the timer queue does to an event that is not the one added or deleted. */
  lemma TickOnFlags(s: TimerRuns.Sys, op: TimerRuns.Op, event: EventId)
    requires LoopOk(s, event) && (!OfLoop(op) ==> op.id != event)
    ensures var r := TimerRuns.Step(s, op);
      && LoopOk(r, event)
      && (event in r.timers.events <==> event in s.timers.events)
      && (TimerCancellation.Cancelled(r, event) <==> TimerCancellation.Cancelled(s, event))
      && (IsPending(r.timers, event) ==> IsPending(s.timers, event))
      && (op.RunTask? ==> (IsPending(r.timers, event) <==> IsPending(s.timers, event)))
  {
    TimerRuns.StepKeepsValid(s, op);
    TimerRuns.StepKeepsOneShot(s, op, event);
    if event in s.timers.events {
      TimerRuns.PendingOfStep(s, op, event);
    } else {
      assert !IsPending(TimerRuns.Step(s, op).timers, event) && event !in TimerRuns.Step(s, op).timers.events;
    }
  }

  /** Leaving the queue is being collected, unless cancelled. */
  lemma CollectedIfItLeaves(s: TimerRuns.Sys, op: TimerRuns.Op, event: EventId)
    requires LoopOk(s, event) && (!OfLoop(op) ==> op.id != event) && !op.RunTask?
    ensures var r := TimerRuns.Step(s, op);
      if IsPending(s.timers, event) && !IsPending(r.timers, event)
      then (TimerRuns.Fires(r.tasks, event) <==> TimerRuns.Fires(s.tasks, event) || !TimerCancellation.Cancelled(s, event))
      else TimerRuns.Fires(r.tasks, event) <==> TimerRuns.Fires(s.tasks, event)
    ensures !op.Collect? && IsPending(s.timers, event) ==> IsPending(TimerRuns.Step(s, op).timers, event)
  {
    match op
    case New(other, interval, repeated, now) =>
      if now >= s.clock && other !in s.timers.events {
        TimerRuns.AddedFacts(TimerRuns.Constructed(s.timers, other, interval, repeated, now), other, now);
      }
    case Erase(other) =>
      if other in s.timers.events { EraseKeepsOk(s.timers, other); }
    case Collect(now) =>
      if now >= s.clock && s.phase.Settled? && s.tasks == [] {
        var t := TimerSpec.Drained(s.timers, now);
        TimerRuns.CollectsExactlyTheDue(t, now);
        assert TimerRuns.Due(t, event, now) <==> TimerRuns.Due(s.timers, event, now);
        assert IsPending(t, event) <==> IsPending(s.timers, event);
      }
    case PutBack(now) =>
      if now >= s.clock && s.phase.PuttingBack? && s.phase.batch != [] && s.phase.restarted {
        TimerRuns.AddedFacts(s.timers, s.phase.batch[0], now);
      }
    case _ =>
  }

  /** A one-shot event is among the tasks once at most, so running it leaves none. */
  lemma RunningTheEvent(s: TimerRuns.Sys, event: EventId)
    requires LoopOk(s, event) && s.phase.Settled? && s.tasks != []
    ensures TimerRuns.Fires(s.tasks[1..], event) <==> TimerRuns.Fires(s.tasks, event) && s.tasks[0].id != event
  {
    assert s.tasks == [s.tasks[0]] + s.tasks[1..];
    TimerRuns.FiresOfAppended([s.tasks[0]], s.tasks[1..], event);
    assert TimerRuns.Fires([s.tasks[0]], event) <==> [s.tasks[0]][0].id == event;
    if s.tasks[0].id == event && TimerRuns.Fires(s.tasks[1..], event) {
      CountIsPositive(s.tasks[1..], event);
    }
  }

  lemma {:induction false} CountIsPositive(f: seq<Fire>, id: EventId)
    requires TimerRuns.Fires(f, id)
    ensures TimerRuns.Count(f, id) > 0
  {
    if f[0].id != id {
      var k :| 0 <= k < |f| && f[k].id == id;
      assert f[1..][k - 1].id == id;
      CountIsPositive(f[1..], id);
    }
  }

  lemma TickingKeepsOk(w: World, op: TimerRuns.Op)
    requires Ok(w) && Allowed(w, op)
    ensures Ok(Ticking(w, op))
  {
    var event := w.own.event;
    var s := TimerRuns.Step(w.loop, op);
    TickOnFlags(w.loop, op, event);
    if op.RunTask? {
      if w.loop.phase.Settled? && w.loop.tasks != [] {
        RunningTheEvent(w.loop, event);
        if w.loop.tasks[0].id == event { RunningKeepsOk(w, s); }
      }
    } else {
      CollectedIfItLeaves(w.loop, op, event);
      if IsPending(w.loop.timers, event) && !IsPending(s.timers, event) { CollectingKeepsOk(w, s); }
    }
  }

  lemma RunningKeepsOk(w: World, s: TimerRuns.Sys)
    requires Ok(w) && Completion.LoopFree(w.call) && LoopOk(s, w.own.event) && w.own.event in s.timers.events
    requires TimerRuns.Fires(w.loop.tasks, w.own.event)
    requires TimerOf(s, w.own.event) == TimerOf(w.loop, w.own.event).(collected := false)
    ensures Ok(w.(call := Completion.Step(w.call, Completion.TimerRuns), loop := s))
  {
    TimerReactions(w.call);
    ReactionKeepsOk(w, Completion.Step(w.call, Completion.TimerRuns), w.conn, s);
  }

  lemma CollectingKeepsOk(w: World, s: TimerRuns.Sys)
    requires Ok(w) && Completion.LoopFree(w.call) && LoopOk(s, w.own.event) && w.own.event in s.timers.events
    requires w.call.timer.pending
    requires var t := w.call.timer;
      TimerOf(s, w.own.event) == t.(pending := false, collected := t.collected || !t.cancelled)
    ensures Ok(w.(call := Completion.Step(w.call, Completion.TimerCollected), loop := s))
  {
    TimerReactions(w.call);
    ReactionKeepsOk(w, Completion.Step(w.call, Completion.TimerCollected), w.conn, s);
  }

  /** Events of other threads leave connection and timer alone; a cancel task may pass the gate. */
  lemma AsideReaction(c: Completion.Call, e: Completion.Event)
    requires e.CancelCalled? || e.NotifyCalled? || e.CancelInvoked? || e.CancelTask? || e.OwnerDies?
    requires c.completed <==> Completion.Progress(c) > 0
    ensures SetAside(c, Completion.Step(c, e))
  {
  }

  predicate SetAside(c: Completion.Call, next: Completion.Call) {
    && next.link == c.link && next.timer == c.timer
    && (next.completed <==> Completion.Progress(next) > 0)
    && (next.pc == c.pc || (next.pc.Completing? && !c.pc.Setup?))
    && (Wanted(next) ==> Wanted(c))
  }

  lemma SetAsideKeepsOk(w: World, next: Completion.Call)
    requires Ok(w) && SetAside(w.call, next)
    ensures Ok(w.(call := next))
  {
  }

  lemma AsideKeepsOk(w: World, e: Completion.Event)
    requires Ok(w)
    ensures Ok(Step(w, Aside(e)))
  {
    if e.CancelCalled? || e.NotifyCalled? || e.CancelInvoked? || e.CancelTask? || e.OwnerDies? {
      AsideReaction(w.call, e);
      SetAsideKeepsOk(w, Completion.Step(w.call, e));
    }
  }

  lemma StepKeepsOk(w: World, e: Event)
    requires Ok(w)
    ensures Ok(Step(w, e))
  {
    match e
    case Advance(now) => AdvanceKeepsOk(w, now);
    case Aside(a) => AsideKeepsOk(w, a);
    case ConnectStarts(outcome) => ConnectingKeepsOk(w, outcome);
    case ConnectEnds(result) => ConnectEndKeepsOk(w, result);
    case Writes(script) => if Completion.LoopFree(w.call) { WritingKeepsOk(w, script); }
    case Reads(data, closed, parses) => if Completion.LoopFree(w.call) { ReadingKeepsOk(w, data, closed, parses); }
    case Clears => ClearingKeepsOk(w);
    case LoopTimer(op) => if Allowed(w, op) { TickingKeepsOk(w, op); }
  }

  function Run(w: World, events: seq<Event>): (r: World)
    requires Ok(w)
    ensures Ok(r)
    decreases |events|
  {
    if events == [] then w
    else
      StepKeepsOk(w, events[0]);
      Run(Step(w, events[0]), events[1..])
  }

  /** CallMethod has its client and its timer event, and has installed nothing; the loop may have other timers. */
  predicate Start(w: World) {
    && Completion.Start(w.call)
    && w.conn.kind == ByClient && w.conn.fd >= 0 && w.conn.inData == [] && w.conn.out == []
    && w.conn.writeDones == [] && w.conn.readDones == map[] && w.conn.disconnect == None
    && LoopOk(w.loop, w.own.event) && w.own.event !in w.loop.timers.events && !TimerRuns.Fires(w.loop.tasks, w.own.event)
    && w.received == [] && w.delivered == []
  }

  // ---------- the protocol's theorems, of connection and queue ----------

  /** What the protocol is told of when connection or queue do something. */
  function Signal(w: World, e: Event): Completion.Event {
    match e
    case Advance(_) => Completion.Advance
    case Aside(a) => a
    case ConnectStarts(outcome) => Completion.ConnectStarts(outcome)
    case ConnectEnds(result) => Completion.ConnectEnds(result)
    case Writes(script) => if OnWrite(w.conn, script).ran == [] then Completion.Lost else Completion.Written
    case Reads(data, closed, parses) =>
      var o := OnRead(w.conn, data, closed, NOBODY);
      if o.ran == [] then Completion.Lost else Completion.Response(AnswerOf(o.ran[0].message, parses))
    case Clears => Completion.Lost
    case LoopTimer(op) => if op.RunTask? then Completion.TimerRuns else Completion.TimerCollected
  }

  /** Every event of connection, queue or other threads is one event of the protocol, or none. */
  lemma SignalIsTold(w: World, e: Event)
    requires Ok(w)
    ensures Step(w, e).call == w.call || Step(w, e).call == Told(w, Signal(w, e)).call
  {
    if e.LoopTimer? && e.op.RunTask? {
      TickOnFlags(w.loop, e.op, w.own.event);
    }
  }

  lemma StepIsProtocol(w: World, e: Event) returns (es: seq<Completion.Event>)
    requires Ok(w)
    ensures Step(w, e).call == Completion.Run(w.call, es)
  {
    SignalIsTold(w, e);
    OneEventRun(w.call, Signal(w, e));
    es := if Step(w, e).call == w.call then [] else [Signal(w, e)];
  }

  lemma OneEventRun(c: Completion.Call, e: Completion.Event)
    ensures Completion.Run(c, [e]) == Completion.Step(c, e)
  {
    assert [e][1..] == [];
  }

  lemma {:induction false} ProtocolOfAppended(c: Completion.Call, es: seq<Completion.Event>, more: seq<Completion.Event>)
    ensures Completion.Run(c, es + more) == Completion.Run(Completion.Run(c, es), more)
    decreases |es|
  {
    if es == [] {
      assert es + more == more;
    } else {
      assert (es + more)[1..] == es[1..] + more;
      ProtocolOfAppended(Completion.Step(c, es[0]), es[1..], more);
    }
  }

  /**
   Whatever sockets, timers and threads do, the call makes a run of the protocol,
   and its flags are at every moment the state of its connection and its timer.
   */
  lemma {:induction false} RunIsProtocol(w: World, events: seq<Event>) returns (es: seq<Completion.Event>)
    requires Ok(w)
    ensures var r := Run(w, events); r.call == Completion.Run(w.call, es) && LinkAgrees(r) && TimerAgrees(r)
    decreases |events|
  {
    es := [];
    if events != [] {
      StepKeepsOk(w, events[0]);
      var one := StepIsProtocol(w, events[0]);
      var rest := RunIsProtocol(Step(w, events[0]), events[1..]);
      ProtocolOfAppended(w.call, one, rest);
      es := one + rest;
    }
  }

  /** Nothing the call installed is left, its connection is closed, and its event is out of the queue for good. */
  predicate Clean(w: World) {
    && w.call.ctl.finished && w.call.ctl.cancelCallback == None
    && w.own.request.msgId !in w.conn.readDones && w.conn.writeDones == [] && w.conn.disconnect == None
    && w.conn.fd < 0 && TimerCancellation.Gone(w.loop, w.own.event)
  }

  lemma CleanIsClean(w: World)
    requires Ok(w) && Completion.Clean(w.call) && !w.call.pc.Setup?
    ensures Clean(w)
  {
  }

  /** Terminal cleanup, on the connection and in the timer queue: when the closure runs, and from the return of `finish` on. */
  lemma ReturnedIsClean(w: World, events: seq<Event>)
    requires Start(w)
    ensures var r := Run(w, events); r.call.runs <= 1 && (r.call.pc == Completion.Returned || r.call.runs > 0 ==> Clean(r))
  {
    var es := RunIsProtocol(w, events);
    var r := Run(w, events);
    Completion.CompletesAtMostOnce(w.call, es);
    Completion.ReturnedIsClean(w.call, es);
    Completion.RunKeeps(w.call, w.call, es, None);
    if r.call.pc == Completion.Returned || r.call.runs > 0 {
      CleanIsClean(r);
    }
  }

  /** And no later read, write, close, connect result, expiry or cancellation undoes it, even if the state is set again. */
  lemma ReturnedIsFinal(w: World, events: seq<Event>)
    requires Ok(w) && w.call.pc == Completion.Returned && Clean(w)
    ensures var r := Run(w, events);
      && r.call.pc == Completion.Returned && Clean(r) && !r.conn.Live()
      && r.call.runs == w.call.runs && r.call.response == w.call.response
      && r.call.ctl.errorCode == w.call.ctl.errorCode && r.call.ctl.errorInfo == w.call.ctl.errorInfo
      && r.call.ctl.failed == w.call.ctl.failed
  {
    var es := RunIsProtocol(w, events);
    Completion.ReturnedIsFinal(w.call, es);
    CleanIsClean(Run(w, events));
  }

  // ---------- no call is lost ----------

  /** A call that is set up, held by somebody and not completed has its event uncancelled, in the queue or about to run. */
  lemma UnfinishedCallsTimeOut(w: World, events: seq<Event>)
    requires Start(w)
    ensures var r := Run(w, events);
      Wanted(r.call) && r.call.pc != Completion.Setup(0) && r.call.pc != Completion.Setup(1) ==>
        && !TimerCancellation.Cancelled(r.loop, r.own.event)
        && (IsPending(r.loop.timers, r.own.event) || TimerRuns.Fires(r.loop.tasks, r.own.event))
  {
    var es := RunIsProtocol(w, events);
    Completion.UnfinishedCallsTimeOut(w.call, es);
  }

  lemma OwnStays(w: World, e: Event)
    requires Ok(w)
    ensures Step(w, e).own == w.own
  {
  }

  /** Once out of the queue, the event is not put back. */
  lemma StepKeepsOut(w: World, e: Event)
    requires Ok(w) && w.own.event in w.loop.timers.events && !IsPending(w.loop.timers, w.own.event)
    ensures var r := Step(w, e); w.own.event in r.loop.timers.events && !IsPending(r.loop.timers, w.own.event)
  {
    match e
    case Advance(now) => if w.call.pc != Completion.Setup(1) { AdvanceOnLoop(w, now); }
    case LoopTimer(op) => TickingKeepsOut(w, op);
    case _ =>
  }

  lemma TickingKeepsOut(w: World, op: TimerRuns.Op)
    requires Ok(w) && w.own.event in w.loop.timers.events && !IsPending(w.loop.timers, w.own.event)
    ensures var r := Step(w, LoopTimer(op)); w.own.event in r.loop.timers.events && !IsPending(r.loop.timers, w.own.event)
  {
    if Allowed(w, op) {
      TickingTheLoop(w, op);
      TickOnFlags(w.loop, op, w.own.event);
    }
  }

  lemma {:induction false} RunKeepsOut(w: World, events: seq<Event>)
    requires Ok(w) && w.own.event in w.loop.timers.events && !IsPending(w.loop.timers, w.own.event)
    ensures var r := Run(w, events); r.own == w.own && !IsPending(r.loop.timers, w.own.event)
    decreases |events|
  {
    if events != [] {
      StepKeepsOk(w, events[0]);
      OwnStays(w, events[0]);
      StepKeepsOut(w, events[0]);
      RunKeepsOut(Step(w, events[0]), events[1..]);
    }
  }

  lemma {:induction false} RunOfAppended(w: World, events: seq<Event>, more: seq<Event>)
    requires Ok(w)
    ensures Run(w, events + more) == Run(Run(w, events), more)
    decreases |events|
  {
    if events == [] {
      assert events + more == more;
    } else {
      StepKeepsOk(w, events[0]);
      assert (events + more)[1..] == events[1..] + more;
      RunOfAppended(Step(w, events[0]), events[1..], more);
    }
  }

  /** Collecting at or after its deadline takes the event out of the queue. */
  lemma CollectingTakesItOut(s: TimerRuns.Sys, event: EventId, now: int)
    requires TimerRuns.Valid(s) && s.phase.Settled? && s.tasks == [] && now >= s.clock
    requires event in s.timers.events && s.timers.events[event].arrive <= now
    ensures !IsPending(TimerRuns.Step(s, TimerRuns.Collect(now)).timers, event)
  {
    var t := TimerSpec.Drained(s.timers, now);
    TimerRuns.CollectsExactlyTheDue(t, now);
    if IsPending(t, event) {
      var i :| 0 <= i < |t.pending| && t.pending[i].id == event;
      assert t.pending[i].key <= now;
      assert TimerRuns.Due(t, event, now);
    }
  }

  /** The loop is free to look at its timers, and the event has reached its deadline at `now`. */
  predicate TimedOut(w: World, now: int) {
    && Completion.LoopFree(w.call) && w.loop.phase.Settled? && w.loop.tasks == [] && now >= w.loop.clock
    && w.own.event in w.loop.timers.events && w.loop.timers.events[w.own.event].arrive <= now
  }

  lemma CollectingTheTimeout(w: World, now: int)
    requires Ok(w) && TimedOut(w, now)
    ensures var r := Step(w, LoopTimer(TimerRuns.Collect(now)));
      && Ok(r) && r.own == w.own && !r.call.pc.Setup?
      && r.own.event in r.loop.timers.events && !IsPending(r.loop.timers, r.own.event)
  {
    var collect := LoopTimer(TimerRuns.Collect(now));
    StepKeepsOk(w, collect);
    OwnStays(w, collect);
    SetUpStaysOver(w, collect);
    CollectingTakesItOut(w.loop, w.own.event, now);
    TickingTheLoop(w, TimerRuns.Collect(now));
  }

  lemma TickingTheLoop(w: World, op: TimerRuns.Op)
    requires Ok(w) && Allowed(w, op)
    ensures Step(w, LoopTimer(op)).loop == TimerRuns.Step(w.loop, op)
  {
  }

  /**
   The timeout ends every call: whatever happened before, and whatever else happens
   afterwards, once the loop has collected at or after the deadline and has run what
   it collected, a call that somebody still holds is completed.
   */
  lemma TimeoutCompletes(w: World, before: seq<Event>, now: int, after: seq<Event>)
    requires Start(w) && TimedOut(Run(w, before), now)
    ensures var r := Run(w, before + [LoopTimer(TimerRuns.Collect(now))] + after);
      r.call.alive && !TimerRuns.Fires(r.loop.tasks, r.own.event) ==> r.call.completed
  {
    var b, collect := Run(w, before), LoopTimer(TimerRuns.Collect(now));
    CollectingTheTimeout(b, now);
    var c := Step(b, collect);
    RunKeepsOut(c, after);
    SetUpStays(c, after);
    RunThrough(w, before, collect, after);
    UnfinishedCallsTimeOut(w, before + [collect] + after);
  }

  lemma RunThrough(w: World, before: seq<Event>, e: Event, after: seq<Event>)
    requires Ok(w) && Ok(Step(Run(w, before), e))
    ensures Run(w, before + [e] + after) == Run(Step(Run(w, before), e), after)
  {
    RunOfAppended(w, before, [e]);
    OneStep(Run(w, before), e);
    RunOfAppended(w, before + [e], after);
  }

  lemma OneStep(w: World, e: Event)
    requires Ok(w)
    ensures Run(w, [e]) == (StepKeepsOk(w, e); Step(w, e))
  {
    StepKeepsOk(w, e);
    assert [e][1..] == [];
  }

  /** A call that has its event does not return to the beginning of its set-up. */
  lemma {:induction false} SetUpStays(w: World, events: seq<Event>)
    requires Ok(w) && !w.call.pc.Setup?
    ensures !Run(w, events).call.pc.Setup?
    decreases |events|
  {
    if events != [] {
      StepKeepsOk(w, events[0]);
      SetUpStaysOver(w, events[0]);
      SetUpStays(Step(w, events[0]), events[1..]);
    }
  }

  lemma SetUpStaysOver(w: World, e: Event)
    requires Ok(w) && !w.call.pc.Setup?
    ensures !Step(w, e).call.pc.Setup?
  {
    SignalIsTold(w, e);
    SetUpIsOver(w.call, Signal(w, e));
  }

  lemma SetUpIsOver(c: Completion.Call, e: Completion.Event)
    requires !c.pc.Setup?
    ensures !Completion.Step(c, e).pc.Setup?
  {
  }

  // ---------- the request is waited for ----------

  /** An open client connection with a request or bytes to send is asking for write events. */
  predicate RequestWaits(c: Conn) {
    SocketLoops.Waits(c) && (c.fd >= 0 && c.writeDones != [] ==> c.wantsWrite)
  }

  lemma WritingKeepsWaiting(w: World, script: seq<WriteResult>)
    requires Ok(w) && RequestWaits(w.conn)
    ensures RequestWaits(Writing(w, script).conn)
  {
    SocketLoops.WriteWaits(w.conn, script);
    WriteLeavesQueue(w.conn, script);
  }

  lemma WriteLeavesQueue(c: Conn, script: seq<WriteResult>)
    requires c.kind == ByClient
    ensures var r := OnWrite(c, script).conn; r == c || r.fd < 0 || (r.out == [] ==> r.writeDones == [])
  {
  }

  lemma ReadingKeepsWaiting(w: World, data: bytes, closed: bool, parses: bool)
    requires Ok(w) && RequestWaits(w.conn)
    ensures RequestWaits(Reading(w, data, closed, parses).conn)
  {
    if w.conn.Live() && !closed {
      var d := Decode(w.conn.inData + data);
      RunsOnce(w.conn.(inData := d.rest), d.messages, w.own.request.msgId, NOBODY);
    }
  }

  lemma AdvanceKeepsWaiting(w: World, now: int)
    requires Ok(w) && RequestWaits(w.conn)
    ensures RequestWaits(Advanced(w, now).conn)
  {
    assert RequestWaits(ConnAfter(w));
  }

  lemma StepKeepsWaiting(w: World, e: Event)
    requires Ok(w) && RequestWaits(w.conn)
    ensures RequestWaits(Step(w, e).conn)
  {
    match e
    case Advance(now) => AdvanceKeepsWaiting(w, now);
    case Writes(script) => WritingKeepsWaiting(w, script);
    case Reads(data, closed, parses) => ReadingKeepsWaiting(w, data, closed, parses);
    case _ =>
  }

  /** In every run, while the request or part of it is unsent on an open connection, write events are asked for. */
  lemma {:induction false} RequestWaitsForWriteEvents(w: World, events: seq<Event>)
    requires Ok(w) && RequestWaits(w.conn)
    ensures RequestWaits(Run(w, events).conn)
    decreases |events|
  {
    if events != [] {
      StepKeepsOk(w, events[0]);
      StepKeepsWaiting(w, events[0]);
      RequestWaitsForWriteEvents(Step(w, events[0]), events[1..]);
    }
  }

  // ---------- what a call ends with ----------

  /** The loop runs a collected task. */
  predicate Timeout(w: World, e: Event) {
    e.LoopTimer? && e.op.RunTask?
  }

  /** The read `e` decodes `m`, which carries the id of the request. */
  predicate AnsweredBy(w: World, e: Event, m: Message) {
    e.Reads? && !e.closed && m in Decode(w.conn.inData + e.data).messages && m.msgId == w.own.request.msgId
  }

  /** The controller and the response a completed call ends with; see `CallResults.EndsWith` for the connect results. */
  ghost predicate EndsRightly(w: World, e: Event, before: RpcControllers.Ctl, r: Completion.Call) {
    && (Timeout(w, e) ==> CallResults.Reports(r.ctl, 10000007, "rpc call timeout") && r.response == None)
    && (e == Aside(Completion.CancelTask) ==> CallResults.Reports(r.ctl, 10000013, "rpc call cancelled") && r.response == None)
    && (e.Writes? || e.Clears? || (e.Reads? && e.closed) ==>
          CallResults.Reports(r.ctl, 10000014, "rpc transport disconnected") && r.response == None)
    && (e.Reads? && !e.closed ==> exists m :: AnsweredBy(w, e, m) && ReportsAnswer(m, e.parses, before, r))
  }

  /** The response is the body of `m`; the error is the one `m` reports, if its body parses. */
  predicate ReportsAnswer(m: Message, parses: bool, before: RpcControllers.Ctl, r: Completion.Call) {
    && r.response == Some(m.pbData)
    && if !parses then CallResults.Reports(r.ctl, 10000004, "failed to deserialize response")
       else if m.errCode == 0 then CallResults.KeepsError(before, r.ctl)
       else r.ctl.failed && r.ctl.errorCode == m.errCode && r.ctl.errorInfo == m.errInfo
  }

  /** A read without a close that runs no callback leaves the call alone; one that does has found a message with the id. */
  lemma OpenReadSignals(w: World, e: Event)
    requires Ok(w) && e.Reads? && !e.closed && Completion.LoopFree(w.call) && w.conn.Live()
    ensures var o := OnRead(w.conn, e.data, false, NOBODY);
      if o.ran == [] then Step(w, e).call == w.call else AnsweredBy(w, e, o.ran[0].message)
  {
    var c1 := w.conn.(inData := w.conn.inData + e.data);
    var d := Decode(c1.inData);
    RunsOnce(c1.(inData := d.rest), d.messages, w.own.request.msgId, NOBODY);
  }

  lemma ReadSignals(w: World, e: Event)
    requires Ok(w) && e.Reads? && !w.call.completed && Step(w, e).call.completed
    ensures var s := Signal(w, e);
      if e.closed then s == Completion.Lost
      else exists m :: AnsweredBy(w, e, m) && s == Completion.Response(AnswerOf(m, e.parses))
  {
    if !e.closed {
      OpenReadSignals(w, e);
    }
  }

  /**
   In every run, whatever completes the call decides what it ends with: its timer
   10000007, a cancellation 10000013, a connection that closed 10000014, and an
   answer the body and the error of a message decoded under its id.
   */
  lemma EndsAsCompleted(w: World, before: seq<Event>, e: Event, after: seq<Event>)
    requires Start(w)
    requires var b := Run(w, before); !b.call.completed && Step(b, e).call.completed
    ensures var r := Run(w, before + [e] + after).call;
      r.pc == Completion.Returned ==> EndsRightly(Run(w, before), e, w.call.ctl, r)
  {
    var b := Run(w, before);
    StepKeepsOk(b, e);
    RunThrough(w, before, e, after);
    SignalIsTold(b, e);
    var es := RunIsProtocol(w, before);
    var more := RunIsProtocol(Step(b, e), after);
    CallResults.EndsAsCompleted(w.call, es, Signal(b, e), more);
    if e.Reads? { ReadSignals(b, e); }
    if e.Writes? { WriteSignals(b, e.script); }
    if e.LoopTimer? { TickSignals(b, e.op); }
  }

  /** A write callback does not complete the call. */
  lemma WriteSignals(w: World, script: seq<WriteResult>)
    requires Ok(w) && !w.call.completed && Step(w, Writes(script)).call.completed
    ensures Signal(w, Writes(script)) == Completion.Lost
  {
    if OnWrite(w.conn, script).ran != [] {
      CallResults.OnlyTheseComplete(w.call, Completion.Written);
    }
  }

  lemma TickSignals(w: World, op: TimerRuns.Op)
    requires Ok(w) && !w.call.completed && Step(w, LoopTimer(op)).call.completed
    ensures op.RunTask? && Signal(w, LoopTimer(op)) == Completion.TimerRuns
  {
    if !op.RunTask? {
      SignalIsTold(w, LoopTimer(op));
      CallResults.OnlyTheseComplete(w.call, Completion.TimerCollected);
    }
  }

  // ---------- the timer queue of a call makes runs of its own ----------

  /** The steps of the timer queue that an event of the call amounts to. */
  lemma StepOfLoop(w: World, e: Event) returns (ops: seq<TimerRuns.Op>)
    requires Ok(w)
    ensures Step(w, e).loop == TimerRuns.Run(w.loop, ops)
  {
    ops := [];
    match e
    case Advance(now) => ops := AdvanceOfLoop(w, now);
    case LoopTimer(op) =>
      if Allowed(w, op) {
        ops := [op];
        TickingTheLoop(w, op);
        OneOp(w.loop, op);
      }
    case _ =>
  }

  lemma OneOp(s: TimerRuns.Sys, op: TimerRuns.Op)
    requires TimerRuns.Valid(s)
    ensures TimerRuns.Run(s, [op]) == TimerRuns.Step(s, op)
  {
    TimerRuns.StepKeepsValid(s, op);
    assert [op][1..] == [];
  }

  lemma AdvanceOfLoop(w: World, now: int) returns (ops: seq<TimerRuns.Op>)
    requires Ok(w)
    ensures Advanced(w, now).loop == TimerRuns.Run(w.loop, ops)
  {
    ops := [];
    if w.call.pc == Completion.Setup(1) && now >= w.loop.clock {
      ops := [TimerRuns.New(w.own.event, w.own.timeout, false, now)];
      OneOp(w.loop, ops[0]);
    } else if w.call.pc.Completing? && w.call.pc.stage == 3 {
      ops := [TimerRuns.Cancel(w.own.event), TimerRuns.Erase(w.own.event)];
    }
  }

  lemma {:induction false} RunOfLoop(w: World, events: seq<Event>) returns (ops: seq<TimerRuns.Op>)
    requires Ok(w)
    ensures Run(w, events).loop == TimerRuns.Run(w.loop, ops)
    decreases |events|
  {
    ops := [];
    if events != [] {
      StepKeepsOk(w, events[0]);
      var one := StepOfLoop(w, events[0]);
      var rest := RunOfLoop(Step(w, events[0]), events[1..]);
      TimerRuns.RunOfAppended(w.loop, one, rest);
      ops := one + rest;
    }
  }

  /** The timeout of a call does not run before its interval is over, counted from the set-up step at `made`. */
  lemma TimeoutNotEarly(w: World, made: int, events: seq<Event>)
    requires Ok(w) && w.call.pc == Completion.Setup(1) && made >= w.loop.clock && TimerRuns.NotEarly(w.loop)
    ensures var log := Run(w, [Advance(made)] + events).loop.log;
      forall k :: 0 <= k < |log| && log[k].id == w.own.event ==> log[k].at >= made + w.own.timeout
  {
    var op := TimerRuns.New(w.own.event, w.own.timeout, false, made);
    StepKeepsOk(w, Advance(made));
    assert ([Advance(made)] + events)[1..] == events;
    var ops := RunOfLoop(Step(w, Advance(made)), events);
    TimerRuns.StepKeepsValid(w.loop, op);
    OneOp(w.loop, op);
    TimerRuns.RunOfAppended(w.loop, [op], ops);
    TimerArming.RunsAfterItsInterval(w.loop, w.own.event, w.own.timeout, false, made, ops);
  }
}
