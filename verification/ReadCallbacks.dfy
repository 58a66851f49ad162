/**
 The read callbacks of a client over whole runs: each registration is answered at
 most once, by the first message with its id that is decoded after it, and exactly
 then as long as nothing takes it back.
 */
module ReadCallbacks {
  import opened Bytes
  import opened Options
  import opened TinyPB
  import opened ConnectionSpec
  import TinyPBStream
  import Duplex

  /** The first message with this id. */
  function FirstWith(ms: seq<Message>, id: bytes): Option<Message> {
    if ms == [] then None else if ms[0].msgId == id then Some(ms[0]) else FirstWith(ms[1..], id)
  }

  /** The calls made for messages with this id. */
  function CallsFor(ran: seq<Call>, id: bytes): seq<Call> {
    if ran == [] then []
    else (if ran[0].message.msgId == id then [ran[0]] else []) + CallsFor(ran[1..], id)
  }

  /** The one call that `id` can get. */
  function Expected(c: Conn, ms: seq<Message>, id: bytes): seq<Call> {
    if id in c.readDones && FirstWith(ms, id).Some? then [Call(c.readDones[id], FirstWith(ms, id).value)] else []
  }

  lemma CallsForOfCons(x: Call, ran: seq<Call>, id: bytes)
    ensures CallsFor([x] + ran, id) == (if x.message.msgId == id then [x] else []) + CallsFor(ran, id)
  {
    assert ([x] + ran)[1..] == ran;
  }

  /**
   Whatever callbacks disconnect, an id gets at most one call, of the callback
   registered for it and with the first message that carries it; it gets that call
   when no callback disconnects; and the registration is gone afterwards.
   */
  lemma {:induction false} AnsweredOnce(c: Conn, ms: seq<Message>, closes: Callback -> bool, id: bytes)
    ensures var r := RunReads(c, ms, closes);
      && (CallsFor(r.ran, id) == [] || CallsFor(r.ran, id) == Expected(c, ms, id))
      && ((forall done :: !closes(done)) ==> CallsFor(r.ran, id) == Expected(c, ms, id))
      && (CallsFor(r.ran, id) != [] ==> id !in r.conn.readDones)
      && (id in r.conn.readDones ==> id in c.readDones && r.conn.readDones[id] == c.readDones[id] && FirstWith(ms, id) == None)
    decreases |ms|
  {
    if ms != [] {
      var m := ms[0];
      if m.msgId in c.readDones {
        var done := c.readDones[m.msgId];
        var c1 := AfterDone(c, m.msgId, closes(done));
        AnsweredOnce(c1, ms[1..], closes, id);
        var r := RunReads(c1, ms[1..], closes);
        CallsForOfCons(Call(done, m), r.ran, id);
        if m.msgId == id {
          assert id !in c1.readDones;
          assert Expected(c1, ms[1..], id) == [];
        } else {
          assert id in c1.readDones ==> id in c.readDones && c1.readDones[id] == c.readDones[id];
        }
      } else {
        AnsweredOnce(c, ms[1..], closes, id);
      }
    }
  }

  // ---------- over whole runs, for one id ----------

  /** A registration that took effect, and the messages decoded since, as long as it is the latest. */
  datatype Registration = Registration(done: Callback, seen: seq<Message>)

  /** A connection with the registrations of one id, the calls made for it, and which registration each call answers. */
  datatype Life = Life(conn: Conn, regs: seq<Registration>, calls: seq<Call>, answered: seq<nat>)

  datatype Event =
    | Register(id: bytes, done: Callback)
    | Remove(id: bytes)
    | Read(data: bytes, closed: bool)
    | Write(script: seq<WriteResult>)
    | Clear
    | SetState

  function Step(s: Life, e: Event, closes: Callback -> bool, id: bytes): Life {
    match e
    case Register(other, done) =>
      var r := s.(conn := ReadPushed(s.conn, other, done));
      if other == id && id !in s.conn.readDones then r.(regs := s.regs + [Registration(done, [])]) else r
    case Remove(other) => s.(conn := s.conn.(readDones := s.conn.readDones - {other}))
    case Write(script) => s.(conn := OnWrite(s.conn, script).conn)
    case Clear => s.(conn := Cleared(s.conn))
    case SetState => s.(conn := s.conn.(state := Connected))
    case Read(data, closed) =>
      var o := OnRead(s.conn, data, closed, closes);
      var made := CallsFor(o.ran, id);
      Life(o.conn, Seeing(s.regs, o.delivered), s.calls + made, s.answered + seq(|made|, _ => Latest(s.regs)))
  }

  function Latest(regs: seq<Registration>): nat {
    if regs == [] then 0 else |regs| - 1
  }

  /** The latest registration sees more messages. */
  function Seeing(regs: seq<Registration>, ms: seq<Message>): (r: seq<Registration>)
    ensures |r| == |regs|
  {
    if regs == [] then []
    else
      var last := regs[|regs| - 1];
      regs[..|regs| - 1] + [last.(seen := last.seen + ms)]
  }

  function Run(s: Life, events: seq<Event>, closes: Callback -> bool, id: bytes): Life
    decreases |events|
  {
    if events == [] then s else Run(Step(s, events[0], closes, id), events[1..], closes, id)
  }

  /** `x` is the call that registration `r` is to get: its own callback, with the first message it has seen. */
  predicate IsAnswer(x: Call, r: Registration, id: bytes) {
    FirstWith(r.seen, id) == Some(x.message) && x.done == r.done
  }

  /** No two calls answer one registration, and every call is the answer its registration is to get. */
  predicate Answered(s: Life, id: bytes) {
    && |s.answered| == |s.calls|
    && (forall k :: 0 <= k < |s.answered| ==> s.answered[k] < |s.regs| && IsAnswer(s.calls[k], s.regs[s.answered[k]], id))
    && (forall k, l :: 0 <= k < l < |s.answered| ==> s.answered[k] < s.answered[l])
  }

  /** A registration in place is the latest one, and has seen no message with the id. */
  predicate Waiting(s: Life, id: bytes) {
    id in s.conn.readDones ==>
      && s.regs != [] && s.regs[|s.regs| - 1].done == s.conn.readDones[id]
      && FirstWith(s.regs[|s.regs| - 1].seen, id) == None
  }

  predicate Ok(s: Life, id: bytes) {
    s.conn.kind == ByClient && Answered(s, id) && Waiting(s, id)
  }

  lemma {:induction false} FirstOfAppended(a: seq<Message>, b: seq<Message>, id: bytes)
    ensures FirstWith(a + b, id) == if FirstWith(a, id).Some? then FirstWith(a, id) else FirstWith(b, id)
  {
    if a == [] {
      assert a + b == b;
    } else {
      assert (a + b)[1..] == a[1..] + b;
      FirstOfAppended(a[1..], b, id);
    }
  }

  /** Seeing more does not change what answers a registration already answered. */
  lemma SeeingKeepsAnswers(s: Life, ms: seq<Message>, id: bytes)
    requires Answered(s, id)
    ensures Answered(s.(regs := Seeing(s.regs, ms)), id)
  {
    if s.regs != [] {
      FirstOfAppended(s.regs[|s.regs| - 1].seen, ms, id);
    }
  }

  /** What one `onRead` does to the registration of `id`. */
  lemma ReadAnswers(c: Conn, data: bytes, closed: bool, closes: Callback -> bool, id: bytes)
    requires c.kind == ByClient
    ensures var o := OnRead(c, data, closed, closes);
      var made := CallsFor(o.ran, id);
      && o.conn.kind == ByClient
      && (made == [] || (id in c.readDones && FirstWith(o.delivered, id).Some?
                        && made == [Call(c.readDones[id], FirstWith(o.delivered, id).value)] && id !in o.conn.readDones))
      && (id in o.conn.readDones ==>
            id in c.readDones && o.conn.readDones[id] == c.readDones[id] && FirstWith(o.delivered, id) == None)
  {
    if c.Live() && !closed {
      var d := TinyPBStream.Decode(c.inData + data);
      AnsweredOnce(c.(inData := d.rest), d.messages, closes, id);
      Duplex.RunReadsKeepsKind(c.(inData := d.rest), d.messages, closes);
    }
  }

  /** The registrations once more messages were decoded, with the connection as it is then. */
  function Seen(s: Life, c: Conn, ms: seq<Message>): Life {
    s.(conn := c, regs := Seeing(s.regs, ms))
  }

  lemma SeeingKeepsWaiting(s: Life, c: Conn, ms: seq<Message>, id: bytes)
    requires Waiting(s, id)
    requires id in c.readDones ==> id in s.conn.readDones && c.readDones[id] == s.conn.readDones[id] && FirstWith(ms, id) == None
    ensures Waiting(Seen(s, c, ms), id)
  {
    if s.regs != [] {
      FirstOfAppended(s.regs[|s.regs| - 1].seen, ms, id);
    }
  }

  /** The call that a message makes answers the registration that was waiting. */
  lemma SeeingAnswers(s: Life, c: Conn, ms: seq<Message>, id: bytes)
    requires Answered(s, id) && Waiting(s, id) && id in s.conn.readDones && FirstWith(ms, id).Some?
    ensures var x, r := Call(s.conn.readDones[id], FirstWith(ms, id).value), Seen(s, c, ms);
      Answered(r.(calls := s.calls + [x], answered := s.answered + [|s.regs| - 1]), id)
  {
    var x, last := Call(s.conn.readDones[id], FirstWith(ms, id).value), s.regs[|s.regs| - 1];
    SeeingKeepsAnswers(s, ms, id);
    FirstOfAppended(last.seen, ms, id);
    OneMoreAnswer(Seen(s, c, ms), x, id);
  }

  lemma ReadKeepsOk(s: Life, data: bytes, closed: bool, closes: Callback -> bool, id: bytes)
    requires Ok(s, id)
    ensures Ok(Step(s, Read(data, closed), closes, id), id)
  {
    var o := OnRead(s.conn, data, closed, closes);
    ReadAnswers(s.conn, data, closed, closes, id);
    ReadOutcomeIsOk(s, o.conn, o.delivered, CallsFor(o.ran, id), id);
  }

  /** A read that delivered `ms`, made the calls `made` for the id and left the connection `c`. */
  lemma ReadOutcomeIsOk(s: Life, c: Conn, ms: seq<Message>, made: seq<Call>, id: bytes)
    requires Ok(s, id) && c.kind == ByClient
    requires id in c.readDones ==> id in s.conn.readDones && c.readDones[id] == s.conn.readDones[id] && FirstWith(ms, id) == None
    requires made == [] || (id in s.conn.readDones && FirstWith(ms, id).Some?
                            && made == [Call(s.conn.readDones[id], FirstWith(ms, id).value)])
    ensures Ok(Seen(s, c, ms).(calls := s.calls + made, answered := s.answered + seq(|made|, _ => Latest(s.regs))), id)
  {
    SeeingKeepsWaiting(s, c, ms, id);
    if made == [] {
      SeeingKeepsAnswers(s, ms, id);
      assert s.calls + made == s.calls && s.answered + [] == s.answered;
    } else {
      SeeingAnswers(s, c, ms, id);
      assert seq(|made|, _ => Latest(s.regs)) == [|s.regs| - 1];
    }
  }

  /** The latest registration, if it was waiting, has not been answered before. */
  lemma OneMoreAnswer(s: Life, x: Call, id: bytes)
    requires Answered(s, id) && s.regs != [] && IsAnswer(x, s.regs[|s.regs| - 1], id)
    requires forall k :: 0 <= k < |s.answered| ==> s.answered[k] < |s.regs| - 1
    ensures Answered(s.(calls := s.calls + [x], answered := s.answered + [|s.regs| - 1]), id)
  {
  }

  lemma StepKeepsOk(s: Life, e: Event, closes: Callback -> bool, id: bytes)
    requires Ok(s, id)
    ensures Ok(Step(s, e, closes, id), id)
  {
    match e
    case Read(data, closed) => ReadKeepsOk(s, data, closed, closes, id);
    case Write(script) => WriteKeepsReadDones(s.conn, script);
    case _ =>
  }

  lemma WriteKeepsReadDones(c: Conn, script: seq<WriteResult>)
    ensures var r := OnWrite(c, script).conn;
      r.kind == c.kind && (r.fd >= 0 ==> r.readDones == c.readDones && c.fd >= 0) && (r.readDones == c.readDones || r.readDones == map[])
  {
  }

  /**
   Over every run, whatever disconnects, removes or closes: each call for the id
   answers a registration of its own, in their order, with that registration's
   callback and the first message decoded since; one still waiting has seen none.
   */
  lemma {:induction false} EachRegistrationIsAnsweredOnce(s: Life, events: seq<Event>, closes: Callback -> bool, id: bytes)
    requires Ok(s, id)
    ensures Ok(Run(s, events, closes, id), id)
    decreases |events|
  {
    if events != [] {
      StepKeepsOk(s, events[0], closes, id);
      EachRegistrationIsAnsweredOnce(Step(s, events[0], closes, id), events[1..], closes, id);
    }
  }

  // ---------- nothing is lost on an open connection ----------

  /** If no callback has closed the connection, the id has got its call, or is still registered if its message did not come. */
  lemma {:induction false} AnsweredIfOpen(c: Conn, ms: seq<Message>, closes: Callback -> bool, id: bytes)
    requires RunReads(c, ms, closes).conn.fd >= 0
    ensures var r := RunReads(c, ms, closes);
      && c.fd >= 0 && CallsFor(r.ran, id) == Expected(c, ms, id)
      && (id in c.readDones && FirstWith(ms, id) == None ==> id in r.conn.readDones)
    decreases |ms|
  {
    if ms != [] {
      var m := ms[0];
      if m.msgId in c.readDones {
        var done := c.readDones[m.msgId];
        var c1 := AfterDone(c, m.msgId, closes(done));
        AnsweredIfOpen(c1, ms[1..], closes, id);
        CallsForOfCons(Call(done, m), RunReads(c1, ms[1..], closes).ran, id);
        assert c1 == c.(readDones := c.readDones - {m.msgId});
      } else {
        AnsweredIfOpen(c, ms[1..], closes, id);
      }
    }
  }

  /** All registrations so far have been answered, but for one that waits. */
  predicate AllAnswered(s: Life, id: bytes) {
    && |s.regs| == |s.answered| + (if id in s.conn.readDones then 1 else 0)
    && (forall k :: 0 <= k < |s.answered| ==> s.answered[k] == k)
  }

  lemma ReadLosesNothing(s: Life, data: bytes, closed: bool, closes: Callback -> bool, id: bytes)
    requires Ok(s, id) && AllAnswered(s, id)
    requires Step(s, Read(data, closed), closes, id).conn.fd >= 0
    ensures s.conn.fd >= 0 && AllAnswered(Step(s, Read(data, closed), closes, id), id)
  {
    ReadAnswers(s.conn, data, closed, closes, id);
    if s.conn.Live() && !closed {
      var d := TinyPBStream.Decode(s.conn.inData + data);
      AnsweredIfOpen(s.conn.(inData := d.rest), d.messages, closes, id);
    }
  }

  lemma StepLosesNothing(s: Life, e: Event, closes: Callback -> bool, id: bytes)
    requires Ok(s, id) && AllAnswered(s, id) && e != Remove(id)
    requires Step(s, e, closes, id).conn.fd >= 0
    ensures s.conn.fd >= 0 && AllAnswered(Step(s, e, closes, id), id)
  {
    match e
    case Read(data, closed) => ReadLosesNothing(s, data, closed, closes, id);
    case Write(script) => WriteKeepsReadDones(s.conn, script);
    case _ =>
  }

  lemma {:induction false} ClosedStaysClosed(s: Life, events: seq<Event>, closes: Callback -> bool, id: bytes)
    requires Ok(s, id) && s.conn.fd < 0
    ensures Run(s, events, closes, id).conn.fd < 0
    decreases |events|
  {
    if events != [] {
      StepKeepsOk(s, events[0], closes, id);
      StepStaysClosed(s, events[0], closes, id);
      ClosedStaysClosed(Step(s, events[0], closes, id), events[1..], closes, id);
    }
  }

  lemma StepStaysClosed(s: Life, e: Event, closes: Callback -> bool, id: bytes)
    requires s.conn.fd < 0
    ensures Step(s, e, closes, id).conn.fd < 0
  {
  }

  /**
   And while the connection is open and nobody takes the id back, none is lost: the
   `k`-th call answers the `k`-th registration, and only the latest may be waiting,
   for a message that has not come.
   */
  lemma {:induction false} NoRegistrationIsLost(s: Life, events: seq<Event>, closes: Callback -> bool, id: bytes)
    requires Ok(s, id) && AllAnswered(s, id) && Remove(id) !in events
    ensures var r := Run(s, events, closes, id); r.conn.fd >= 0 ==> Ok(r, id) && AllAnswered(r, id)
    decreases |events|
  {
    if events != [] {
      var next := Step(s, events[0], closes, id);
      StepKeepsOk(s, events[0], closes, id);
      if next.conn.fd >= 0 {
        StepLosesNothing(s, events[0], closes, id);
        NoRegistrationIsLost(next, events[1..], closes, id);
      } else {
        ClosedStaysClosed(next, events[1..], closes, id);
      }
    }
  }
}
