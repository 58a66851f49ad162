/**
 The disconnect callback over the life of a connection. Whichever of reading,
 writing or clearing closes it, and however often, each installation is run at most
 once, and exactly once if the connection is cleared, fails a write or sees the peer
 close with it installed.
 */
module DisconnectCallback {
  import opened Bytes
  import opened Options
  import TinyPB
  import TinyPBStream
  import opened ConnectionSpec

  /** A connection with the callbacks installed and run so far. */
  datatype Life = Life(conn: Conn, installed: seq<Callback>, ran: seq<Callback>)

  datatype Event =
    | Install(done: Callback)
    | Remove
    | Clear
    | Write(script: seq<WriteResult>)
    | Read(data: bytes, closed: bool)
    | PushWrite(pending: Pending)
    | PushRead(id: bytes, done: Callback)
    | SetState

  function Step(s: Life, e: Event, closes: Callback -> bool): Life {
    match e
    case Install(done) => s.(conn := s.conn.(disconnect := Some(done)), installed := s.installed + [done])
    case Remove => s.(conn := s.conn.(disconnect := None))
    case Clear => s.(conn := Cleared(s.conn), ran := s.ran + Listed(ClearRuns(s.conn)))
    case Write(script) =>
      var w := OnWrite(s.conn, script);
      s.(conn := w.conn, ran := s.ran + Listed(w.disconnected))
    case Read(data, closed) =>
      var r := OnRead(s.conn, data, closed, closes);
      s.(conn := r.conn, ran := s.ran + Listed(r.disconnected))
    case PushWrite(p) => s.(conn := Pushed(s.conn, p))
    case PushRead(id, done) => s.(conn := ReadPushed(s.conn, id, done))
    case SetState => s.(conn := s.conn.(state := Connected))
  }

  function Run(s: Life, events: seq<Event>, closes: Callback -> bool): Life
    decreases |events|
  {
    if events == [] then s else Run(Step(s, events[0], closes), events[1..], closes)
  }

  /** Each run of a callback and the callback in place have an installation of their own. */
  predicate Ok(s: Life) {
    && multiset(s.ran) + multiset(Listed(s.conn.disconnect)) <= multiset(s.installed)
    && (s.conn.disconnect.Some? ==> s.installed != [] && s.installed[|s.installed| - 1] == s.conn.disconnect.value)
  }

  /** Read callbacks can take the disconnect callback away, but never install or run it. */
  lemma {:induction false} RunReadsKeepsDisconnect(c: Conn, ms: seq<TinyPB.Message>, closes: Callback -> bool)
    ensures RunReads(c, ms, closes).conn.disconnect in {None, c.disconnect}
    decreases |ms|
  {
    if ms != [] {
      if ms[0].msgId in c.readDones {
        RunReadsKeepsDisconnect(AfterDone(c, ms[0].msgId, closes(c.readDones[ms[0].msgId])), ms[1..], closes);
      } else {
        RunReadsKeepsDisconnect(c, ms[1..], closes);
      }
    }
  }

  /** One operation runs the callback only if it is installed, and then takes it out. */
  lemma StepTakesWhatItRuns(s: Life, e: Event, closes: Callback -> bool)
    requires !e.Install?
    ensures var r := Step(s, e, closes);
      && r.installed == s.installed
      && ((r.ran == s.ran && r.conn.disconnect in {None, s.conn.disconnect})
          || (s.conn.disconnect.Some? && r.ran == s.ran + [s.conn.disconnect.value] && r.conn.disconnect == None))
  {
    assert s.ran + [] == s.ran;
    if e.Read? && s.conn.Live() && !e.closed {
      var d := TinyPBStream.Decode(s.conn.inData + e.data);
      RunReadsKeepsDisconnect(s.conn.(inData := d.rest), d.messages, closes);
    }
  }

  lemma StepKeepsOk(s: Life, e: Event, closes: Callback -> bool)
    requires Ok(s)
    ensures Ok(Step(s, e, closes))
  {
    if !e.Install? {
      StepTakesWhatItRuns(s, e, closes);
    }
  }

  /** Over every life of a connection, each callback runs at most as often as it was installed. */
  lemma {:induction false} RunsAtMostOncePerInstallation(s: Life, events: seq<Event>, closes: Callback -> bool)
    requires Ok(s)
    ensures Ok(Run(s, events, closes))
    decreases |events|
  {
    if events != [] {
      StepKeepsOk(s, events[0], closes);
      RunsAtMostOncePerInstallation(Step(s, events[0], closes), events[1..], closes);
    }
  }

  /** On a new connection: a callback installed once runs at most once, and one still in place has not used up its installation. */
  lemma NewConnectionRunsEachOnce(s: Life, events: seq<Event>, closes: Callback -> bool, done: Callback)
    requires s.installed == [] && s.ran == [] && s.conn.disconnect == None
    ensures var r := Run(s, events, closes);
      multiset(r.ran)[done] + (if r.conn.disconnect == Some(done) then 1 else 0) <= multiset(r.installed)[done]
  {
    assert Ok(s);
    RunsAtMostOncePerInstallation(s, events, closes);
    var r := Run(s, events, closes);
    assert multiset(Listed(r.conn.disconnect))[done] == if r.conn.disconnect == Some(done) then 1 else 0;
  }

  lemma FatalWriteRuns(c: Conn, script: seq<WriteResult>)
    requires c.fd >= 0 && OnWrite(c, script).conn.fd < 0
    ensures OnWrite(c, script).disconnected == c.disconnect
  {
  }

  lemma ClosedReadRuns(c: Conn, data: bytes, closes: Callback -> bool)
    requires c.fd >= 0 && OnRead(c, data, true, closes).conn.fd < 0
    ensures OnRead(c, data, true, closes).disconnected == c.disconnect
  {
  }

  lemma OpenReadRunsNothing(c: Conn, data: bytes, closes: Callback -> bool)
    ensures OnRead(c, data, false, closes).disconnected == None
  {
  }

  /**
   Whatever closes an open connection: clearing it, a fatal write and a close seen
   by a read run the callback installed then; a read whose callback disconnects
   closes without running it.
   */
  lemma ClosingRunsTheCallback(s: Life, e: Event, closes: Callback -> bool)
    requires s.conn.fd >= 0 && Step(s, e, closes).conn.fd < 0
    ensures e.Clear? || e.Write? || e.Read?
    ensures Step(s, e, closes).ran == s.ran + (if e.Read? && !e.closed then [] else Listed(s.conn.disconnect))
  {
    match e
    case Write(script) => FatalWriteRuns(s.conn, script);
    case Read(data, closed) =>
      if closed { ClosedReadRuns(s.conn, data, closes); } else { OpenReadRunsNothing(s.conn, data, closes); }
    case _ =>
  }
}
