/**
 The objects behind one call: the request state with its gate, and the client
 whose connection and timer it cleans up. Run without interruption, `beginCompletion`
 and `finish` are the small steps of the completion protocol.
 */
module RequestStates {
  import opened Bytes
  import opened Options
  import TinyPB
  import TimerSpec
  import TimerRuns
  import TimerQueue
  import ConnectionSpec
  import opened TcpConnections
  import RpcControllers
  import ChannelCalls
  import opened Completion
  import opened CallResults

  /** The TCP client: its connection, and the timer of its event loop, which other clients use as well. */
  class CallClient {
    const connection: TcpConnection
    const timer: TimerQueue.Timer
    const request: TinyPB.Message
    const event: TimerSpec.EventId
    var connecting: bool
    var fd: int
    var connectErrorCode: int32
    var connectErrorInfo: bytes

    ghost predicate Valid()
      reads this, connection, connection.inBuffer, connection.outBuffer, connection.inBuffer.data, connection.outBuffer.data, timer
    {
      && connection.Valid() && ChannelCalls.ConnOk(connection.View(), request.msgId)
      && TimerSpec.Ok(timer.View())
      && (connecting ==> connectErrorCode == 0 && connectErrorInfo == [])
    }

    /** The connection and the timer event as the protocol sees them. */
    ghost function LinkView(): Link
      requires connection.Valid()
      reads this, connection, connection.inBuffer, connection.outBuffer, connection.inBuffer.data, connection.outBuffer.data
    {
      ChannelCalls.LinkOf(connection.View(), request.msgId, connecting)
    }

    ghost function TimerView(collected: bool): Timer
      reads timer
    {
      ChannelCalls.EventFlags(timer.View(), event, collected)
    }

    constructor (connection: TcpConnection, timer: TimerQueue.Timer, request: TinyPB.Message, event: TimerSpec.EventId)
      requires connection.Valid() && ChannelCalls.ConnOk(connection.View(), request.msgId) && TimerSpec.Ok(timer.View())
      ensures Valid() && !connecting && connectErrorCode == 0 && connectErrorInfo == []
      ensures this.connection == connection && this.timer == timer && this.request == request && this.event == event
    {
      this.connection, this.timer, this.request, this.event := connection, timer, request, event;
      connecting, fd, connectErrorCode, connectErrorInfo := false, connection.fd, 0, [];
    }

    method SetDisconnectCallback(done: Option<ConnectionSpec.Callback>)
      requires Valid() && (connection.fd < 0 ==> done == None)
      modifies connection
      ensures Valid() && connection.View() == old(connection.View()).(disconnect := done)
      ensures LinkView() == old(LinkView()).(disconnect := done != None)
    {
      connection.SetDisconnectCallback(done);
    }

    method RemoveReadMessage()
      requires Valid()
      modifies connection
      ensures Valid() && connection.View() == old(connection.View()).(readDones := old(connection.readDones) - {request.msgId})
      ensures LinkView() == old(LinkView()).(reading := false)
    {
      connection.RemoveReadMessage(request.msgId);
    }

    method DeleteTimerEvent()
      requires Valid() && event in timer.events
      modifies timer
      ensures Valid() && timer.View() == TimerSpec.Erased(TimerSpec.WithCancelled(old(timer.View()), event), event)
      ensures forall h :: TimerView(h) == old(TimerView(h)).(pending := false, cancelled := true)
      ensures event in timer.events
    {
      TimerSpec.EraseKeepsOk(TimerSpec.WithCancelled(timer.View(), event), event);
      timer.DeleteTimerEvent(event);
    }

    /** Remove what the call has installed: the disconnect callback, the read callback and the timer event. */
    method Uninstall(ghost collected: bool)
      requires Valid() && event in timer.events
      modifies connection, timer
      ensures Valid() && event in timer.events
      ensures LinkView() == old(LinkView()).(disconnect := false, reading := false)
      ensures TimerView(collected) == old(TimerView(collected)).(pending := false, cancelled := true)
    {
      SetDisconnectCallback(None);
      RemoveReadMessage();
      DeleteTimerEvent();
    }

    /** Construct the one-shot event of the call and add it; `made` and `now` are readings of the clock. */
    method AddTimerEvent(timeout: int, made: int, now: int)
      requires Valid() && event !in timer.events
      modifies timer
      ensures Valid() && event in timer.events
      ensures timer.View() == TimerSpec.Added(TimerRuns.Constructed(old(timer.View()), event, timeout, false, made), event, now)
      ensures forall h :: TimerView(h) == old(TimerView(h)).(pending := true)
    {
      ghost var t := TimerRuns.Constructed(timer.View(), event, timeout, false, made);
      timer.events := timer.events[event := TimerSpec.Event(made + timeout, timeout, false, false)];
      assert timer.View() == t;
      TimerRuns.AddedFacts(t, event, now);
      timer.AddTimerEvent(event, now);
    }

    /** What the call installs in its client: the timer event and the disconnect callback. */
    method Install(timeout: int, made: int, now: int, ghost collected: bool)
      requires Valid() && event !in timer.events && connection.fd >= 0
      modifies connection, timer
      ensures Valid() && event in timer.events
      ensures LinkView() == old(LinkView()).(disconnect := true)
      ensures TimerView(collected) == old(TimerView(collected)).(pending := true)
    {
      AddTimerEvent(timeout, made, now);
      SetDisconnectCallback(Some(ChannelCalls.LOST));
    }

    /** Begin to connect: done at once, failed at once, or the result comes later. */
    method Connect(outcome: Connecting)
      requires Valid() && !connecting && connectErrorCode == 0 && connectErrorInfo == []
      modifies this, connection
      ensures Valid() && connecting == outcome.InProgress?
      ensures connection.View() == if outcome.Now?
        then old(connection.View()).(state := ConnectionSpec.TcpState.Connected) else old(connection.View())
      ensures outcome.FailedAtOnce? ==>
        connectErrorCode == ERROR_FAILED_CONNECT && connectErrorInfo == Text("connect error, sys error = ") + outcome.sysError
      ensures !outcome.FailedAtOnce? ==> connectErrorCode == 0 && connectErrorInfo == []
    {
      match outcome
      case Now => connection.SetState(ConnectionSpec.TcpState.Connected);
      case InProgress => connecting := true;
      case FailedAtOnce(e) =>
        connectErrorCode := ERROR_FAILED_CONNECT;
        connectErrorInfo := Text("connect error, sys error = ") + e;
    }

    /**
     The connect callback, up to the call of `done`: a failure is recorded and closes
     the connection without telling anyone; a success relabels the connection.
     */
    method ConnectFinished(result: Connection)
      requires Valid() && connecting
      modifies this, connection
      ensures Valid() && !connecting
      ensures connection.View() == if result.Established?
        then old(connection.View()).(state := ConnectionSpec.TcpState.Connected)
        else ConnectionSpec.Disconnected(old(connection.View()))
      ensures connectErrorCode == ConnectCode(result) && connectErrorInfo == ConnectInfo(result)
      ensures fd == if result.Established? then old(fd) else -1
    {
      connecting := false;
      if result.Established? {
        connection.SetState(ConnectionSpec.TcpState.Connected);
      } else {
        connectErrorCode, connectErrorInfo := ConnectCode(result), ConnectInfo(result);
        Disconnect();
      }
    }

    /** Queue the request and ask for write events. */
    method WriteMessage()
      requires Valid() && connection.fd >= 0
      modifies connection
      ensures Valid() && connection.fd >= 0 && LinkView() == old(LinkView()).(writing := true)
      ensures connection.View().writeDones == old(connection.writeDones) + [ConnectionSpec.Pending(request, ChannelCalls.WRITTEN)]
    {
      connection.PushSendMessage(request, ChannelCalls.WRITTEN);
      connection.ListenWrite();
    }

    /** Wait for the message with the id of the request. */
    method ReadMessage()
      requires Valid() && connection.fd >= 0
      modifies connection
      ensures Valid() && connection.View() == ConnectionSpec.ReadPushed(old(connection.View()), request.msgId, ChannelCalls.ANSWERED)
      ensures LinkView() == old(LinkView()).(reading := true)
    {
      connection.PushReadMessage(request.msgId, ChannelCalls.ANSWERED);
    }

    /** Close without running the disconnect callback. */
    method Disconnect()
      requires Valid()
      modifies this`fd, connection
      ensures Valid() && fd == -1
      ensures connection.View() == ConnectionSpec.Disconnected(old(connection.View()))
      ensures LinkView() == Closed(old(LinkView()).(disconnect := false))
    {
      ChannelCalls.ClosingOnFlags(connection.View(), request.msgId, connecting);
      connection.SetDisconnectCallback(None);
      var _ := connection.Clear();
      fd := -1;
    }
  }

  class RequestState {
    const controller: RpcControllers.RpcController
    const client: CallClient
    var completed: bool
    var closure: bool
    var runs: nat
    var response: Option<bytes>

    ghost predicate Valid()
      reads client, client.connection, client.connection.inBuffer, client.connection.outBuffer,
            client.connection.inBuffer.data, client.connection.outBuffer.data, client.timer
    {
      client.Valid()
    }

    /** The call this object stands for, with the loop thread at `pc`; `collected`: is its timer about to run? */
    ghost function View(pc: Pc, collected: bool): Call
      requires Valid()
      reads this, controller, client, client.connection, client.connection.inBuffer, client.connection.outBuffer,
            client.connection.inBuffer.data, client.connection.outBuffer.data, client.timer
    {
      Call(controller.View(), 0, 0, client.LinkView(), client.TimerView(collected), true, completed, closure, runs, response, pc)
    }

    constructor (controller: RpcControllers.RpcController, client: CallClient, closure: bool)
      ensures this.controller == controller && this.client == client
      ensures !completed && this.closure == closure && runs == 0 && response == None
    {
      this.controller, this.client, this.closure := controller, client, closure;
      completed, runs, response := false, 0, None;
    }

    /** What CallMethod installs before it connects; returns the cancel callback if it is to be run at once. */
    method Install(timeout: int, made: int, now: int, ghost collected: bool) returns (run: seq<RpcControllers.Id>)
      requires Valid() && client.event !in client.timer.events && client.connection.fd >= 0
      modifies controller, client.connection, client.timer
      ensures Valid() && View(Setup(3), collected) == Installed(old(View(Setup(0), collected)))
      ensures run == if old(controller.View()).cancelled then [CANCEL_CALLBACK] else []
    {
      run := controller.SetCancelCallback(Some(CANCEL_CALLBACK));
      client.Install(timeout, made, now, collected);
    }

    /** The last line of CallMethod. */
    method Connect(outcome: Connecting, ghost collected: bool)
      requires Valid() && !client.connecting && client.connectErrorCode == 0 && client.connectErrorInfo == []
      requires client.event in client.timer.events && client.connection.fd >= 0
      modifies this, controller, client, client.connection, client.timer
      ensures Valid() && var c := ConnectStarted(old(View(Idle, collected)), outcome);
        if c.pc == Idle then View(Idle, collected) == c
        else View(Returned, collected) == Uninterrupted(old(View(Idle, collected)), c.pc.reason)
    {
      client.Connect(outcome);
      if outcome.InProgress? {
        return;
      }
      AfterConnect(collected);
    }

    /** The callback given to `connect`: the client knows how connecting ended. */
    method AfterConnect(ghost collected: bool)
      requires Valid() && client.event in client.timer.events
      requires !completed && client.connectErrorCode == 0 ==> client.connection.fd >= 0
      modifies this, controller, client, client.connection, client.timer
      ensures Valid()
      ensures var before, code, info := old(View(Idle, collected)), old(client.connectErrorCode), old(client.connectErrorInfo);
        var c := Completion.Connected(before, code, info);
        if c.pc == Idle then View(Idle, collected) == c
        else View(Returned, collected) == Uninterrupted(old(View(Idle, collected)), c.pc.reason)
    {
      if completed {
        return;
      }
      if client.connectErrorCode != 0 {
        Complete(ConnectFailed(client.connectErrorCode, client.connectErrorInfo), collected);
      } else {
        client.WriteMessage();
      }
    }

    /** A connect in progress has ended. */
    method OnConnected(result: Connection, ghost collected: bool)
      requires Valid() && client.connecting && client.event in client.timer.events
      requires !completed ==> client.connection.fd >= 0
      modifies this, controller, client, client.connection, client.timer
      ensures Valid() && var c := LoopStep(old(View(Idle, collected)), ConnectEnds(result));
        if c.pc == Idle then View(Idle, collected) == c
        else View(Returned, collected) == Uninterrupted(old(View(Idle, collected)).(link := c.link), c.pc.reason)
    {
      FinishConnecting(result, collected);
      AfterConnect(collected);
    }

    method FinishConnecting(result: Connection, ghost collected: bool)
      requires Valid() && client.connecting
      modifies client, client.connection
      ensures Valid() && !client.connecting && (result.Established? ==> client.connection.fd == old(client.connection.fd))
      ensures client.connectErrorCode == ConnectCode(result) && client.connectErrorInfo == ConnectInfo(result)
      ensures View(Idle, collected) == old(View(Idle, collected)).(link := AfterConnecting(old(client.LinkView()), result))
    {
      ChannelCalls.ClosingOnFlags(client.connection.View(), client.request.msgId, false);
      client.ConnectFinished(result);
    }

    /** The write callback, run once the connection has emptied its queue: wait for the response unless completed. */
    method OnWritten(ghost collected: bool)
      requires Valid() && client.connection.writeDones == []
      requires !completed ==> client.connection.fd >= 0
      modifies client.connection
      ensures Valid() && var c := old(View(Idle, collected));
        View(Idle, collected) == LoopStep(c.(link := c.link.(writing := true)), Written)
    {
      if completed {
        return;
      }
      client.ReadMessage();
    }

    /** The gate: only the first caller gets through, and it removes everything the call installed. */
    method BeginCompletion(ghost r: Reason, ghost collected: bool) returns (passed: bool)
      requires Valid() && client.event in client.timer.events
      modifies this`completed, controller, client.connection, client.timer
      ensures Valid() && passed == !old(completed)
      ensures passed ==> View(Completing(5, r), collected) == Begun(old(View(Idle, collected)), r)
      ensures !passed ==> View(Idle, collected) == old(View(Idle, collected))
    {
      if completed {
        return false;
      }
      Claim(collected);
      Withdraw(collected);
      ghost var c := View(Idle, collected);
      controller.ClearCancelCallback();
      assert View(Idle, collected) == c.(ctl := c.ctl.(cancelCallback := None));
      passed := true;
    }

    /** Mark the call completed, and finished for its controller. */
    method Claim(ghost collected: bool)
      requires Valid()
      modifies this`completed, controller
      ensures Valid()
      ensures var c := old(View(Idle, collected)); View(Idle, collected) == c.(completed := true, ctl := c.ctl.(finished := true))
    {
      completed := true;
      controller.SetFinished(true);
    }

    /** Take back what the call installed in its client. */
    method Withdraw(ghost collected: bool)
      requires Valid() && client.event in client.timer.events
      modifies client.connection, client.timer
      ensures Valid()
      ensures var c := old(View(Idle, collected));
        View(Idle, collected) == c.(link := c.link.(disconnect := false, reading := false),
                                    timer := c.timer.(pending := false, cancelled := true))
    {
      client.Uninstall(collected);
    }

    method Report(code: int32, info: bytes)
      modifies controller
      ensures controller.View() == Reported(old(controller.View()), code, info)
    {
      if code != 0 {
        controller.SetError(code, info);
      }
      controller.SetFinished(true);
    }

    /** Report, close, and run the closure. */
    method Finish(code: int32, info: bytes, ghost collected: bool)
      requires Valid()
      modifies this, controller, client, client.connection
      ensures Valid() && View(Returned, collected) == Ended(old(View(Idle, collected)), code, info)
    {
      ghost var before := View(Idle, collected);
      Report(code, info);
      var done := closure;
      closure := false;
      assert View(Idle, collected) == before.(ctl := Reported(before.ctl, code, info), closure := false);
      CloseAndRun(done, collected);
    }

    /** Close the connection, then run the closure that was taken out. */
    method CloseAndRun(done: bool, ghost collected: bool)
      requires Valid()
      modifies this`runs, client, client.connection
      ensures Valid()
      ensures var c := old(View(Returned, collected));
        View(Returned, collected) == c.(link := Closed(c.link.(disconnect := false)), runs := if done then c.runs + 1 else c.runs)
    {
      client.Disconnect();
      if done {
        runs := runs + 1;
      }
    }

    /** What the timer, cancel, disconnect and connect callbacks do. */
    method Complete(r: Reason, ghost collected: bool)
      requires Valid() && client.event in client.timer.events && !r.Answered?
      modifies this, controller, client, client.connection, client.timer
      ensures Valid()
      ensures View(if old(completed) then Idle else Returned, collected) == Uninterrupted(old(View(Idle, collected)), r)
    {
      var passed := BeginCompletion(r, collected);
      if passed {
        Finish(Code(r), Info(r), collected);
      }
    }

    /** The timer's callback. */
    method OnTimeout(ghost collected: bool)
      requires Valid() && client.event in client.timer.events
      modifies this, controller, client, client.connection, client.timer
      ensures Valid()
      ensures View(if old(completed) then Idle else Returned, collected) == Uninterrupted(old(View(Idle, collected)), Timeout)
      ensures !old(completed) ==> Reports(controller.View(), 10000007, "rpc call timeout")
    {
      Complete(Timeout, collected);
    }

    /** The task queued by the cancel callback. */
    method OnCancelTask(ghost collected: bool)
      requires Valid() && client.event in client.timer.events
      modifies this, controller, client, client.connection, client.timer
      ensures Valid()
      ensures View(if old(completed) then Idle else Returned, collected) == Uninterrupted(old(View(Idle, collected)), Cancelled)
      ensures !old(completed) ==> Reports(controller.View(), 10000013, "rpc call cancelled")
    {
      Complete(Cancelled, collected);
    }

    /** The disconnect callback. */
    method OnDisconnect(ghost collected: bool)
      requires Valid() && client.event in client.timer.events
      modifies this, controller, client, client.connection, client.timer
      ensures Valid()
      ensures View(if old(completed) then Idle else Returned, collected) == Uninterrupted(old(View(Idle, collected)), Transport)
      ensures !old(completed) ==> Reports(controller.View(), 10000014, "rpc transport disconnected")
    {
      Complete(Transport, collected);
    }

    /** What the read callback does: fill the response before finishing. */
    method OnResponse(answer: Answer, ghost collected: bool)
      requires Valid() && client.event in client.timer.events
      modifies this, controller, client, client.connection, client.timer
      ensures Valid()
      ensures View(if old(completed) then Idle else Returned, collected)
           == Uninterrupted(old(View(Idle, collected)), Answered(answer))
    {
      var passed := BeginCompletion(Answered(answer), collected);
      if passed {
        Respond(answer, collected);
      }
    }

    /** Fill the response and finish. */
    method Respond(answer: Answer, ghost collected: bool)
      requires Valid()
      modifies this, controller, client, client.connection
      ensures Valid() && View(Returned, collected) == Answering(old(View(Idle, collected)), Answered(answer))
    {
      var code, info := FillResponse(answer);
      Finish(code, info, collected);
    }

    /** Fill the response from the answer, if it has a body; the result to finish with. */
    method FillResponse(answer: Answer) returns (code: int32, info: bytes)
      modifies this`response
      ensures code == Code(Answered(answer)) && info == Info(Answered(answer))
      ensures response == if Filled(Answered(answer)).Some? then Filled(Answered(answer)) else old(response)
    {
      if !answer.isTinyPB {
        return ERROR_FAILED_GET_REPLY, Text("invalid rpc response");
      }
      response := Some(answer.body);
      if !answer.parses {
        return ERROR_FAILED_SERIALIZE, Text("failed to deserialize response");
      }
      return answer.errCode, answer.errInfo;
    }
  }

  // ---------- the objects follow the protocol ----------

  /** The connection once a connect in progress has ended. */
  function AfterConnecting(l: Link, result: Connection): Link {
    var l1 := l.(connecting := false);
    if result.Established? then l1 else Closed(l1.(disconnect := false))
  }

  /** A call with its cancel callback, timer and disconnect callback in place. */
  function Installed(c: Call): Call {
    c.(ctl := if c.ctl.cancelled then c.ctl else c.ctl.(cancelCallback := Some(CANCEL_CALLBACK)),
       timer := c.timer.(pending := true), link := c.link.(disconnect := true), pc := Setup(3))
  }

  /** Installing is the first three steps of the protocol; the cancel callback escapes if the call is cancelled already. */
  lemma InstallingIsTheProtocol(c: Call)
    requires c.pc == Setup(0)
    ensures Advanced(Advanced(Advanced(c)))
         == Installed(c).(escaped := c.escaped + (if c.ctl.cancelled then 1 else 0))
  {
    var x := RpcControllers.Enter(c.ctl, RpcControllers.SetCancelCallback(Some(CANCEL_CALLBACK)));
    RpcControllers.ListedCount(Some(CANCEL_CALLBACK), CANCEL_CALLBACK);
    assert OursIn(x.escaped) == if c.ctl.cancelled then 1 else 0;
    var c1 := c.(ctl := x.ctl, escaped := c.escaped + OursIn(x.escaped), pc := Setup(1));
    assert Advanced(c) == c1;
    var c2 := c1.(timer := c.timer.(pending := true), pc := Setup(2));
    assert Advanced(c1) == c2;
    assert Advanced(c2) == c2.(link := c.link.(disconnect := true), pc := Setup(3));
  }

  /** A call whose `beginCompletion` has just returned true. */
  function Begun(c: Call, r: Reason): Call {
    c.(completed := true, ctl := c.ctl.(finished := true, cancelCallback := None),
       link := c.link.(disconnect := false, reading := false),
       timer := c.timer.(pending := false, cancelled := true), pc := Completing(5, r))
  }

  /** The controller once `finish` has reported. */
  function Reported(ctl: RpcControllers.Ctl, code: int32, info: bytes): RpcControllers.Ctl {
    if code != 0 then ctl.(errorCode := code, errorInfo := info, failed := true, finished := true) else ctl.(finished := true)
  }

  /** A call whose `finish` has returned. */
  function Ended(c: Call, code: int32, info: bytes): Call {
    c.(ctl := Reported(c.ctl, code, info), link := Closed(c.link.(disconnect := false)),
       closure := false, runs := if c.closure then c.runs + 1 else c.runs, pc := Returned)
  }

  /** The rest of completion for reason `r`, behind `beginCompletion`. */
  function Answering(c: Call, r: Reason): Call {
    Ended(if Filled(r).Some? then c.(response := Filled(r)) else c, Code(r), Info(r))
  }

  /** A callback that reaches the gate and is not interrupted. */
  function Uninterrupted(c: Call, r: Reason): Call {
    if c.completed then c else Answering(Begun(c, r), r)
  }

  lemma BeginningSteps(c: Call, r: Reason)
    requires c.alive && !c.completed && c.pc == Idle
    ensures Advanced(Advanced(Advanced(Advanced(Advanced(Gate(c, r)))))) == Begun(c, r)
  {
    var c1 := Gate(c, r).(ctl := c.ctl.(finished := true), pc := Completing(1, r));
    assert Advanced(Gate(c, r)) == c1;
    var c2 := c1.(link := c.link.(disconnect := false), pc := Completing(2, r));
    assert Advanced(c1) == c2;
    var c3 := c2.(link := c2.link.(reading := false), pc := Completing(3, r));
    assert Advanced(c2) == c3;
    var c4 := c3.(timer := c.timer.(pending := false, cancelled := true), pc := Completing(4, r));
    assert Advanced(c3) == c4;
    assert Advanced(c4) == Begun(c, r);
  }

  lemma ReportingSteps(c: Call, r: Reason)
    requires c.pc == Completing(6, r)
    ensures Advanced(Advanced(c)) == c.(ctl := Reported(c.ctl, Code(r), Info(r)), pc := Completing(8, r))
  {
    var ctl := if Code(r) != 0 then c.ctl.(errorCode := Code(r), errorInfo := Info(r), failed := true) else c.ctl;
    assert Advanced(c) == c.(ctl := ctl, pc := Completing(7, r));
  }

  lemma ClosingSteps(c: Call, r: Reason)
    requires c.pc == Completing(8, r)
    ensures Advanced(Advanced(Advanced(c))) == c.(link := Closed(c.link.(disconnect := false)),
      closure := false, runs := if c.closure then c.runs + 1 else c.runs, pc := Returned)
  {
    var c1 := c.(link := Closed(c.link.(disconnect := false)), pc := Completing(9, r));
    assert Advanced(c) == c1;
    assert Advanced(c1) == c1.(closure := false, runs := if c.closure then c.runs + 1 else c.runs, pc := Completing(10, r));
  }

  lemma EndingSteps(c: Call, r: Reason)
    requires c.pc == Completing(6, r)
    ensures Advanced(Advanced(Advanced(Advanced(Advanced(c))))) == Ended(c, Code(r), Info(r))
  {
    ReportingSteps(c, r);
    ClosingSteps(c.(ctl := Reported(c.ctl, Code(r), Info(r)), pc := Completing(8, r)), r);
  }

  /** Left alone, the objects do exactly the small steps of the protocol from the gate to the end. */
  lemma UninterruptedIsTheProtocol(c: Call, r: Reason)
    requires c.alive && !c.completed && c.pc == Idle
    ensures Run(Gate(c, r), seq(LAST_STAGE + 1, _ => Advance)) == Uninterrupted(c, r)
  {
    var steps := seq(LAST_STAGE + 1, _ => Advance);
    BeginningSteps(c, r);
    AdvancesFive(Gate(c, r), steps);
    FromTheReadCallback(c, r, steps[5..]);
  }

  lemma FromTheReadCallback(c: Call, r: Reason, steps: seq<Event>)
    requires !c.completed && |steps| == 6 && forall i :: 0 <= i < 6 ==> steps[i] == Advance
    ensures Run(Begun(c, r), steps) == Uninterrupted(c, r)
  {
    var b := Begun(c, r);
    var f := (if Filled(r).Some? then b.(response := Filled(r)) else b).(pc := Completing(6, r));
    assert Advanced(b) == f;
    assert Run(b, steps) == Run(f, steps[1..]);
    EndingSteps(f, r);
    AdvancesFive(f, steps[1..]);
    assert steps[1..][5..] == [];
  }

  lemma AdvancesFive(c: Call, events: seq<Event>)
    requires |events| >= 5 && forall i :: 0 <= i < 5 ==> events[i] == Advance
    ensures Run(c, events) == Run(Advanced(Advanced(Advanced(Advanced(Advanced(c))))), events[5..])
  {
    var c1 := Advanced(c);
    var c2 := Advanced(c1);
    var c3 := Advanced(c2);
    var c4 := Advanced(c3);
    assert Run(c, events) == Run(c1, events[1..]);
    assert events[1..][0] == Advance && events[1..][1..] == events[2..];
    assert Run(c1, events[1..]) == Run(c2, events[2..]);
    assert events[2..][0] == Advance && events[2..][1..] == events[3..];
    assert Run(c2, events[2..]) == Run(c3, events[3..]);
    assert events[3..][0] == Advance && events[3..][1..] == events[4..];
    assert Run(c3, events[3..]) == Run(c4, events[4..]);
    assert events[4..][0] == Advance && events[4..][1..] == events[5..];
  }
}
