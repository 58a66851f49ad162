/**
 One asynchronous call. Timeout, cancellation, disconnect, connect result and
 response race for a single gate; whoever passes it cleans up and runs the
 user's closure. The loop thread runs its callbacks one at a time, in the small
 steps listed here; other threads may enter the controller between any two.
 */
module Completion {
  import opened Bytes
  import opened Options
  import opened RpcControllers

  const ERROR_PEER_CLOSED: int32 := 10000000
  const ERROR_FAILED_CONNECT: int32 := 10000001
  const ERROR_FAILED_GET_REPLY: int32 := 10000002
  const ERROR_FAILED_SERIALIZE: int32 := 10000004
  const ERROR_RPC_CALL_TIMEOUT: int32 := 10000007
  const ERROR_RPC_CALL_CANCELLED: int32 := 10000013
  const ERROR_RPC_TRANSPORT: int32 := 10000014

  /** The callback the channel registers with the controller. */
  const CANCEL_CALLBACK: Id := 0

  function Text(s: string): bytes {
    seq(|s|, i requires 0 <= i < |s| => s[i] as int % 256)
  }

  /** A message handed to the read callback: is it TinyPB, does its body parse, and what does it report? */
  datatype Answer = Answer(isTinyPB: bool, parses: bool, body: bytes, errCode: int32, errInfo: bytes)

  /** What passed the gate. */
  datatype Reason =
    | Timeout
    | Cancelled
    | Transport
    | ConnectFailed(code: int32, info: bytes)
    | Answered(answer: Answer)

  /** The error code `finish` is called with; 0 is success. */
  function Code(r: Reason): int32 {
    match r
    case Timeout => ERROR_RPC_CALL_TIMEOUT
    case Cancelled => ERROR_RPC_CALL_CANCELLED
    case Transport => ERROR_RPC_TRANSPORT
    case ConnectFailed(code, _) => code
    case Answered(a) =>
      if !a.isTinyPB then ERROR_FAILED_GET_REPLY
      else if !a.parses then ERROR_FAILED_SERIALIZE
      else a.errCode
  }

  function Info(r: Reason): bytes {
    match r
    case Timeout => Text("rpc call timeout")
    case Cancelled => Text("rpc call cancelled")
    case Transport => Text("rpc transport disconnected")
    case ConnectFailed(_, info) => info
    case Answered(a) =>
      if !a.isTinyPB then Text("invalid rpc response")
      else if !a.parses then Text("failed to deserialize response")
      else a.errInfo
  }

  /** What the user's response object was filled from. */
  function Filled(r: Reason): Option<bytes> {
    if r.Answered? && r.answer.isTinyPB then Some(r.answer.body) else None
  }

  /** The connection as this call sees it: is its descriptor gone, which callbacks are installed, what is under way. */
  datatype Link = Link(closed: bool, connecting: bool, writing: bool, reading: bool, disconnect: bool)

  /** The call's timer event: in the timer queue, cancelled, or already in a batch about to run. */
  datatype Timer = Timer(pending: bool, cancelled: bool, collected: bool)

  /** Where the loop thread is. */
  datatype Pc = Setup(stage: nat) | Idle | Completing(stage: nat, reason: Reason) | Returned

  /**
   `escaped` counts cancel callbacks taken out of the controller and not yet
   invoked, `tasks` the cancel tasks queued on the loop.
   */
  datatype Call = Call(
    ctl: Ctl, escaped: nat, tasks: nat, link: Link, timer: Timer,
    alive: bool, completed: bool, closure: bool, runs: nat, response: Option<bytes>, pc: Pc)

  /** What `connect` returns at once, and what a connect in progress ends with. */
  datatype Connecting = Now | FailedAtOnce(sysError: bytes) | InProgress

  datatype Connection = Established | PeerRefused(sysError: bytes) | OtherFailure(sysError: bytes)

  /** The error code and text the client keeps for a connect; 0 for success. */
  function ConnectCode(r: Connection): int32 {
    match r
    case Established => 0
    case PeerRefused(_) => ERROR_PEER_CLOSED
    case OtherFailure(_) => ERROR_FAILED_CONNECT
  }

  function ConnectInfo(r: Connection): bytes {
    match r
    case Established => []
    case PeerRefused(e) => Text("connect refused, sys error = ") + e
    case OtherFailure(e) => Text("connect unkonwn error, sys error = ") + e
  }

  datatype Event =
    | Advance                          // the loop thread takes its next small step
    | CancelCalled                     // StartCancel, by any thread
    | NotifyCalled(closure: Id)        // NotifyOnCancel, by any thread
    | CancelInvoked(queued: bool)      // an escaped cancel callback queues its task, unless the loop has stopped
    | CancelTask                       // that task runs
    | ConnectStarts(outcome: Connecting)
    | ConnectEnds(result: Connection)
    | Written                          // the request was sent
    | Response(answer: Answer)         // a message with the call's id was decoded
    | Lost                             // the connection closes
    | TimerCollected
    | TimerRuns
    | OwnerDies                        // nobody holds the request any more

  function Region(c: Call, r: RpcControllers.Region): Call {
    c.(ctl := Enter(c.ctl, r).ctl)
  }

  /** The channel's cancel callback among the callbacks a region let out. */
  function OursIn(escaped: seq<Id>): nat {
    multiset(escaped)[CANCEL_CALLBACK]
  }

  /** `beginCompletion` succeeds for the first caller only. */
  function Gate(c: Call, r: Reason): Call {
    if !c.alive || c.completed then c else c.(completed := true, pc := Completing(0, r))
  }

  /** `clear` on the connection, without its disconnect callback. */
  function Closed(l: Link): Link {
    if l.closed then l else l.(closed := true, writing := false, reading := false, disconnect := false)
  }

  const LAST_STAGE: nat := 10

  /** The small steps of `beginCompletion`, the read callback and `finish`, in order. */
  function Stage(c: Call, k: nat, r: Reason): Call {
    if k == 0 then Region(c, SetFinished(true))
    else if k == 1 then c.(link := c.link.(disconnect := false))
    else if k == 2 then c.(link := c.link.(reading := false))
    else if k == 3 then c.(timer := c.timer.(pending := false, cancelled := true))
    else if k == 4 then Region(c, ClearCancelCallback)
    else if k == 5 then (if Filled(r).Some? then c.(response := Filled(r)) else c)
    else if k == 6 then (if Code(r) != 0 then Region(c, SetError(Code(r), Info(r))) else c)
    else if k == 7 then Region(c, SetFinished(true))
    else if k == 8 then c.(link := Closed(c.link.(disconnect := false)))
    else if k == 9 then c.(closure := false, runs := if c.closure then c.runs + 1 else c.runs)
    else c
  }

  /** The next small step of the loop thread. */
  function Advanced(c: Call): Call {
    match c.pc
    case Setup(k) =>
      if k == 0 then
        var x := Enter(c.ctl, SetCancelCallback(Some(CANCEL_CALLBACK)));
        c.(ctl := x.ctl, escaped := c.escaped + OursIn(x.escaped), pc := Setup(1))
      else if k == 1 then c.(timer := c.timer.(pending := true), pc := Setup(2))
      else if k == 2 then c.(link := c.link.(disconnect := true), pc := Setup(3))
      else c
    case Completing(k, r) =>
      Stage(c, k, r).(pc := if k < LAST_STAGE then Completing(k + 1, r) else Returned)
    case _ => c
  }

  predicate LoopFree(c: Call) {
    c.pc == Idle || c.pc == Returned
  }

  /** The callback given to `connect`. */
  function Connected(c: Call, code: int32, info: bytes): Call {
    if !c.alive || c.completed then c
    else if code != 0 then Gate(c, ConnectFailed(code, info))
    else c.(link := c.link.(writing := true))
  }

  /** The last line of CallMethod. */
  function ConnectStarted(c: Call, outcome: Connecting): Call {
    match outcome
    case Now => Connected(c, 0, [])
    case FailedAtOnce(e) => Connected(c, ERROR_FAILED_CONNECT, Text("connect error, sys error = ") + e)
    case InProgress => c.(link := c.link.(connecting := true))
  }

  function Step(c: Call, e: Event): Call {
    match e
    case Advance => Advanced(c)
    case CancelCalled =>
      var x := Enter(c.ctl, StartCancel);
      c.(ctl := x.ctl, escaped := c.escaped + OursIn(x.escaped))
    case NotifyCalled(id) =>
      if id == CANCEL_CALLBACK then c else Region(c, NotifyOnCancel(Some(id)))
    case CancelInvoked(queued) =>
      if c.escaped == 0 then c else c.(escaped := c.escaped - 1, tasks := if queued then c.tasks + 1 else c.tasks)
    case OwnerDies => c.(alive := false)
    case ConnectStarts(outcome) => if c.pc == Setup(3) then ConnectStarted(c.(pc := Idle), outcome) else c
    case _ => if LoopFree(c) then LoopStep(c, e) else c
  }

  /** The callbacks the loop runs, one at a time. */
  function LoopStep(c: Call, e: Event): Call {
    match e
    case CancelTask => if c.tasks == 0 then c else Gate(c.(tasks := c.tasks - 1), Cancelled)
    case ConnectEnds(result) =>
      if !c.link.connecting then c
      else
        var l := c.link.(connecting := false);
        var l1 := if result.Established? then l else Closed(l.(disconnect := false));
        Connected(c.(link := l1), ConnectCode(result), ConnectInfo(result))
    case Written =>
      if !c.link.writing then c
      else
        var d := c.(link := c.link.(writing := false));
        if !c.alive || c.completed then d else d.(link := d.link.(reading := true))
    case Response(answer) =>
      if !c.link.reading then c else Gate(c.(link := c.link.(reading := false)), Answered(answer))
    case Lost =>
      if c.link.closed then c
      else if c.link.disconnect then Gate(c.(link := Closed(c.link)), Transport)
      else c.(link := Closed(c.link))
    case TimerCollected =>
      if c.timer.pending then c.(timer := c.timer.(pending := false, collected := c.timer.collected || !c.timer.cancelled)) else c
    case TimerRuns =>
      if c.timer.collected then Gate(c.(timer := c.timer.(collected := false)), Timeout) else c
    case _ => c
  }

  function Run(c: Call, events: seq<Event>): Call
    decreases |events|
  {
    if events == [] then c else Run(Step(c, events[0]), events[1..])
  }

  /** A call about to be set up by CallMethod, with any controller and with or without a closure. */
  predicate Start(c: Call) {
    && c.escaped == 0 && c.tasks == 0
    && c.link == Link(false, false, false, false, false)
    && c.timer == Timer(false, false, false)
    && c.ctl.cancelCallback == None
    && c.alive && !c.completed && c.runs == 0 && c.response == None && c.pc == Setup(0)
    && c.ctl.cancelClosure != Some(CANCEL_CALLBACK)
  }

  // ---------- what holds in every reachable state ----------

  /** How far completion has come: 0 before the gate, stage + 1 while completing, past the last stage after `finish`. */
  function Progress(c: Call): nat {
    match c.pc
    case Completing(k, _) => k + 1
    case Returned => LAST_STAGE + 2
    case _ => 0
  }

  /** The winner's result, as far as it has been written; `c0` is the call before it started. */
  predicate ResultSoFar(c0: Call, c: Call, won: Option<Reason>) {
    var p := Progress(c);
    && (c.completed <==> won.Some?) && (c.completed <==> p > 0)
    && (c.pc.Completing? ==> c.pc.stage <= LAST_STAGE && won == Some(c.pc.reason))
    && c.response == (if p > 6 && Filled(won.value).Some? then Filled(won.value) else None)
    && c.ctl.errorCode == (if p > 7 && Code(won.value) != 0 then Code(won.value) else c0.ctl.errorCode)
    && c.ctl.errorInfo == (if p > 7 && Code(won.value) != 0 then Info(won.value) else c0.ctl.errorInfo)
    && c.ctl.failed == (c0.ctl.failed || (p > 7 && Code(won.value) != 0))
    && c.closure == (c0.closure && p <= 10)
    && c.runs == (if c0.closure && p > 10 then 1 else 0)
  }

  /** What the small steps passed so far have cleaned up. */
  predicate CleanSoFar(c: Call) {
    var p := Progress(c);
    && (p > 1 ==> c.ctl.finished)
    && (p > 2 ==> !c.link.disconnect)
    && (p > 3 ==> !c.link.reading)
    && (p > 4 ==> c.timer.cancelled && !c.timer.pending)
    && (p > 5 ==> c.ctl.cancelCallback == None)
    && (p > 9 ==> c.link.closed)
  }

  /** The reason an event passes the gate with. */
  function ReasonOf(e: Event): Reason {
    match e
    case CancelTask => Cancelled
    case ConnectStarts(FailedAtOnce(e)) => ConnectFailed(ERROR_FAILED_CONNECT, Text("connect error, sys error = ") + e)
    case ConnectEnds(result) => ConnectFailed(ConnectCode(result), ConnectInfo(result))
    case Response(answer) => Answered(answer)
    case Lost => Transport
    case _ => Timeout
  }

  /** The reason of the first event of the run that passes the gate. */
  function Winner(c: Call, events: seq<Event>): Option<Reason>
    decreases |events|
  {
    if events == [] then None
    else if !c.completed && Step(c, events[0]).completed then Some(ReasonOf(events[0]))
    else Winner(Step(c, events[0]), events[1..])
  }

  function Won(c: Call, e: Event, won: Option<Reason>): Option<Reason> {
    if !c.completed && Step(c, e).completed then Some(ReasonOf(e)) else won
  }

  lemma LoopKeepsResult(c0: Call, c: Call, e: Event, won: Option<Reason>)
    requires ResultSoFar(c0, c, won) && LoopFree(c)
    requires e.CancelTask? || e.ConnectEnds? || e.Written? || e.Response? || e.Lost? || e.TimerCollected? || e.TimerRuns?
    ensures ResultSoFar(c0, LoopStep(c, e), Won(c, e, won))
  {
  }

  lemma AdvanceKeepsResult(c0: Call, c: Call, won: Option<Reason>)
    requires ResultSoFar(c0, c, won)
    ensures ResultSoFar(c0, Advanced(c), won)
  {
  }

  lemma ConnectKeepsResult(c0: Call, c: Call, outcome: Connecting, won: Option<Reason>)
    requires ResultSoFar(c0, c, won) && c.pc == Setup(3)
    ensures ResultSoFar(c0, Step(c, ConnectStarts(outcome)), Won(c, ConnectStarts(outcome), won))
  {
  }

  lemma StepKeepsResult(c0: Call, c: Call, e: Event, won: Option<Reason>)
    requires ResultSoFar(c0, c, won)
    ensures ResultSoFar(c0, Step(c, e), Won(c, e, won))
  {
    match e
    case Advance => AdvanceKeepsResult(c0, c, won);
    case CancelCalled =>
    case NotifyCalled(_) =>
    case CancelInvoked(_) =>
    case OwnerDies =>
    case ConnectStarts(outcome) => if c.pc == Setup(3) { ConnectKeepsResult(c0, c, outcome, won); }
    case _ => if LoopFree(c) { LoopKeepsResult(c0, c, e, won); }
  }

  lemma LoopKeepsClean(c: Call, e: Event)
    requires CleanSoFar(c) && LoopFree(c) && (c.completed <==> Progress(c) > 0)
    ensures CleanSoFar(LoopStep(c, e))
  {
  }

  lemma AdvanceKeepsClean(c: Call)
    requires CleanSoFar(c) && (c.completed <==> Progress(c) > 0)
    ensures CleanSoFar(Advanced(c))
  {
  }

  lemma StepKeepsClean(c: Call, e: Event)
    requires CleanSoFar(c) && (c.completed <==> Progress(c) > 0)
    ensures CleanSoFar(Step(c, e))
  {
    match e
    case Advance => AdvanceKeepsClean(c);
    case CancelCalled =>
    case NotifyCalled(_) =>
    case CancelInvoked(_) =>
    case OwnerDies =>
    case ConnectStarts(_) =>
    case _ => if LoopFree(c) { LoopKeepsClean(c, e); }
  }

  lemma {:induction false} RunKeeps(c0: Call, c: Call, events: seq<Event>, won: Option<Reason>)
    requires ResultSoFar(c0, c, won) && CleanSoFar(c)
    ensures ResultSoFar(c0, Run(c, events), if won.Some? then won else Winner(c, events))
    ensures CleanSoFar(Run(c, events))
    decreases |events|
  {
    if events != [] {
      StepKeepsResult(c0, c, events[0], won);
      StepKeepsClean(c, events[0]);
      RunKeeps(c0, Step(c, events[0]), events[1..], Won(c, events[0], won));
    }
  }

  /**
   At-most-once completion: over every interleaving the closure runs at most
   once; the call is completed exactly when some event passed the gate; and once
   `finish` has returned, the closure has run (if there is one) and the error and
   the response are those of the first event that passed.
   */
  lemma CompletesAtMostOnce(c: Call, events: seq<Event>)
    requires Start(c)
    ensures var r, won := Run(c, events), Winner(c, events);
      && r.runs <= 1
      && (r.completed <==> won.Some?)
      && (r.pc == Returned ==>
          && won.Some?
          && r.runs == (if c.closure then 1 else 0)
          && r.response == Filled(won.value)
          && r.ctl.errorCode == (if Code(won.value) != 0 then Code(won.value) else c.ctl.errorCode)
          && r.ctl.errorInfo == (if Code(won.value) != 0 then Info(won.value) else c.ctl.errorInfo)
          && r.ctl.failed == (c.ctl.failed || Code(won.value) != 0))
  {
    RunKeeps(c, c, events, None);
  }

  /**
   No read, disconnect or cancel callback is installed, the timer is cancelled and
   not pending, and the connection is closed.
   */
  predicate Clean(c: Call) {
    && c.ctl.finished && c.ctl.cancelCallback == None
    && !c.link.reading && !c.link.disconnect && c.link.closed
    && c.timer.cancelled && !c.timer.pending
  }

  /** Terminal cleanup: everything is clean once `finish` has returned, and already when the closure runs. */
  lemma ReturnedIsClean(c: Call, events: seq<Event>)
    requires Start(c)
    ensures Run(c, events).pc == Returned || Run(c, events).runs > 0 ==> Clean(Run(c, events))
  {
    RunKeeps(c, c, events, None);
  }

  lemma StepOfReturned(c: Call, e: Event)
    requires c.pc == Returned && c.completed
    ensures var r := Step(c, e);
      && r.pc == Returned && r.completed && r.runs == c.runs && r.response == c.response
      && r.ctl.errorCode == c.ctl.errorCode && r.ctl.errorInfo == c.ctl.errorInfo && r.ctl.failed == c.ctl.failed
  {
  }

  /** No later event undoes the cleanup, rewrites the result or runs the closure again. */
  lemma {:induction false} ReturnedIsFinal(c: Call, events: seq<Event>)
    requires c.pc == Returned && c.completed && Clean(c)
    ensures var r := Run(c, events);
      && r.pc == Returned && r.completed && Clean(r)
      && r.runs == c.runs && r.response == c.response
      && r.ctl.errorCode == c.ctl.errorCode && r.ctl.errorInfo == c.ctl.errorInfo && r.ctl.failed == c.ctl.failed
    decreases |events|
  {
    if events != [] {
      StepKeepsClean(c, events[0]);
      StepOfReturned(c, events[0]);
      ReturnedIsFinal(Step(c, events[0]), events[1..]);
    }
  }

  /** How many small steps the loop thread took. */
  function Advances(events: seq<Event>): nat {
    if events == [] then 0 else (if events[0].Advance? then 1 else 0) + Advances(events[1..])
  }

  /**
   Completion cannot be held up: past the gate every small step of the loop
   thread brings `finish` nearer, whatever the other threads do, and nothing
   else moves it.
   */
  lemma {:induction false} CompletionAdvances(c: Call, events: seq<Event>)
    requires c.completed && Progress(c) > 0 && (c.pc.Completing? ==> c.pc.stage <= LAST_STAGE)
    ensures var p := Progress(c) + Advances(events);
      Progress(Run(c, events)) == if p < LAST_STAGE + 2 then p else LAST_STAGE + 2
    decreases |events|
  {
    if events != [] {
      CompletionAdvances(Step(c, events[0]), events[1..]);
    }
  }

  /** So a completed call whose loop thread took as many steps as completion has runs its closure exactly once. */
  lemma ClosureRunsExactlyOnce(c: Call, before: seq<Event>, e: Event, after: seq<Event>)
    requires Start(c) && c.closure
    requires var b := Run(c, before); !b.completed && Step(b, e).completed
    requires Advances(after) > LAST_STAGE
    ensures var r := Run(Step(Run(c, before), e), after);
      && r.runs == 1 && r.pc == Returned && Clean(r)
      && r.response == Filled(ReasonOf(e))
      && r.ctl.failed == (c.ctl.failed || Code(ReasonOf(e)) != 0)
      && (Code(ReasonOf(e)) != 0 ==> r.ctl.errorCode == Code(ReasonOf(e)) && r.ctl.errorInfo == Info(ReasonOf(e)))
  {
    RunKeeps(c, c, before, None);
    var b := Run(c, before);
    StepKeepsResult(c, b, e, None);
    StepKeepsClean(b, e);
    RunKeeps(c, Step(b, e), after, Some(ReasonOf(e)));
    CompletionAdvances(Step(b, e), after);
  }

  /** So the controller of a call that ends without an error says it failed if and only if it said so before the call. */
  lemma FailedAfterSuccess(c: Call, events: seq<Event>)
    requires Start(c) && Run(c, events).pc == Returned
    ensures var r, won := Run(c, events), Winner(c, events);
      won.Some? && (Code(won.value) == 0 ==> (r.ctl.failed <==> c.ctl.failed) && r.ctl.errorCode == c.ctl.errorCode)
  {
    CompletesAtMostOnce(c, events);
  }

  /** The failing case: a controller that failed before still says so after a good answer has filled the response. */
  lemma SuccessLeavesFailed(c: Call, body: bytes)
    requires Start(c) && c.closure && c.ctl.failed
    ensures var r := Run(Step(Run(c, Waiting()), Response(Answer(true, true, body, 0, []))), seq(LAST_STAGE + 1, _ => Advance));
      r.pc == Returned && r.runs == 1 && r.response == Some(body) && r.ctl.failed
  {
    var answer, after := Answer(true, true, body, 0, []), seq(LAST_STAGE + 1, _ => Advance);
    WaitingForTheAnswer(c);
    AllAdvances(after);
    ClosureRunsExactlyOnce(c, Waiting(), Response(answer), after);
  }

  /** Set up, connected at once, and sent. */
  function Waiting(): seq<Event> {
    [Advance, Advance, Advance, ConnectStarts(Now), Written]
  }

  lemma WaitingForTheAnswer(c: Call)
    requires Start(c)
    ensures var b := Run(c, Waiting()); !b.completed && b.alive && b.pc == Idle && b.link.reading
  {
    var c1 := Advanced(c);
    var c2 := Advanced(c1);
    var c3 := Advanced(c2);
    assert c3.pc == Setup(3) && !c3.completed && c3.alive;
    var c4 := Step(c3, ConnectStarts(Now));
    assert c4.pc == Idle && c4.link.writing && !c4.completed && c4.alive;
    var w := Waiting();
    assert w[1..] == [Advance, Advance, ConnectStarts(Now), Written] && w[1..][1..] == [Advance, ConnectStarts(Now), Written];
    assert w[1..][1..][1..] == [ConnectStarts(Now), Written] && w[1..][1..][1..][1..] == [Written] && [Written][1..] == [];
    assert Run(c, w) == Run(c1, w[1..]);
    assert Run(c1, w[1..]) == Run(c2, w[1..][1..]);
    assert Run(c2, w[1..][1..]) == Run(c3, [ConnectStarts(Now), Written]);
    assert Run(c3, [ConnectStarts(Now), Written]) == Run(c4, [Written]);
    assert Run(c4, [Written]) == Step(c4, Written);
  }

  lemma {:induction false} AllAdvances(events: seq<Event>)
    requires forall i :: 0 <= i < |events| ==> events[i] == Advance
    ensures Advances(events) == |events|
  {
    if events != [] {
      AllAdvances(events[1..]);
    }
  }

  // ---------- no call is lost ----------

  /** Past the set-up of its timer, a call somebody holds is completed or its timeout is still to come. */
  predicate TimeoutUnderWay(c: Call) {
    && ((c.pc == Setup(0) || c.pc == Setup(1)) && !c.completed ==> !c.timer.cancelled)
    && (c.alive && !c.completed && c.pc != Setup(0) && c.pc != Setup(1) ==>
          !c.timer.cancelled && (c.timer.pending || c.timer.collected))
  }

  lemma StepKeepsTimeout(c: Call, e: Event)
    requires TimeoutUnderWay(c) && (c.completed <==> Progress(c) > 0)
    ensures TimeoutUnderWay(Step(c, e))
  {
    match e
    case Advance => AdvanceKeepsTimeout(c);
    case CancelCalled =>
    case NotifyCalled(_) =>
    case CancelInvoked(_) =>
    case OwnerDies =>
    case ConnectStarts(_) =>
    case _ => if LoopFree(c) { LoopKeepsTimeout(c, e); }
  }

  lemma AdvanceKeepsTimeout(c: Call)
    requires TimeoutUnderWay(c) && (c.completed <==> Progress(c) > 0)
    ensures TimeoutUnderWay(Advanced(c))
  {
  }

  lemma LoopKeepsTimeout(c: Call, e: Event)
    requires TimeoutUnderWay(c) && LoopFree(c) && (c.completed <==> Progress(c) > 0)
    ensures TimeoutUnderWay(LoopStep(c, e))
  {
  }

  lemma {:induction false} TimeoutIsNotLost(c0: Call, c: Call, events: seq<Event>, won: Option<Reason>)
    requires TimeoutUnderWay(c) && ResultSoFar(c0, c, won)
    ensures TimeoutUnderWay(Run(c, events))
    decreases |events|
  {
    if events != [] {
      StepKeepsTimeout(c, events[0]);
      StepKeepsResult(c0, c, events[0], won);
      TimeoutIsNotLost(c0, Step(c, events[0]), events[1..], Won(c, events[0], won));
    }
  }

  /**
   No call is lost: in every run, a call that is set up, held by somebody and not
   completed has its timer event uncancelled, in the queue or about to run.
   */
  lemma UnfinishedCallsTimeOut(c: Call, events: seq<Event>)
    requires Start(c)
    ensures var r := Run(c, events);
      r.alive && !r.completed && r.pc != Setup(0) && r.pc != Setup(1) ==>
        !r.timer.cancelled && (r.timer.pending || r.timer.collected)
  {
    TimeoutIsNotLost(c, c, events, None);
  }

  // ---------- cancellation is not lost ----------

  /** A cancelled call that is not completed has its cancel callback or its cancel task still to come. */
  predicate CancelUnderWay(c: Call) {
    && c.ctl.cancelClosure != Some(CANCEL_CALLBACK)
    && (c.pc != Setup(0) && c.alive && !c.completed ==>
        if c.ctl.cancelled then c.escaped + c.tasks > 0 else c.ctl.cancelCallback == Some(CANCEL_CALLBACK))
  }

  lemma LoopKeepsCancel(c: Call, e: Event)
    requires CancelUnderWay(c) && LoopFree(c)
    ensures CancelUnderWay(LoopStep(c, e))
  {
  }

  lemma RegisteringKeepsCancel(c: Call)
    requires CancelUnderWay(c) && c.pc == Setup(0)
    ensures CancelUnderWay(Advanced(c))
  {
    EscapedCount(c.ctl, SetCancelCallback(Some(CANCEL_CALLBACK)), ChannelSlot, CANCEL_CALLBACK);
  }

  lemma AdvanceKeepsCancel(c: Call)
    requires CancelUnderWay(c) && (!c.completed ==> Progress(c) == 0)
    ensures CancelUnderWay(Advanced(c))
  {
    if c.pc == Setup(0) {
      RegisteringKeepsCancel(c);
    }
  }

  lemma CallingCancelKeepsIt(c: Call)
    requires CancelUnderWay(c)
    ensures CancelUnderWay(Step(c, CancelCalled))
  {
    EscapedCount(c.ctl, StartCancel, ChannelSlot, CANCEL_CALLBACK);
  }

  lemma ConnectingKeepsCancel(c: Call, outcome: Connecting)
    requires CancelUnderWay(c) && c.pc == Setup(3)
    ensures CancelUnderWay(ConnectStarted(c.(pc := Idle), outcome))
  {
  }

  lemma StepKeepsCancel(c: Call, e: Event)
    requires CancelUnderWay(c) && e != CancelInvoked(false)
    requires !c.completed ==> Progress(c) == 0
    ensures CancelUnderWay(Step(c, e))
  {
    match e
    case Advance => AdvanceKeepsCancel(c);
    case CancelCalled => CallingCancelKeepsIt(c);
    case NotifyCalled(_) =>
    case CancelInvoked(_) =>
    case OwnerDies =>
    case ConnectStarts(outcome) => if c.pc == Setup(3) { ConnectingKeepsCancel(c, outcome); }
    case _ => if LoopFree(c) { LoopKeepsCancel(c, e); }
  }

  lemma {:induction false} CancelIsNotLost(c0: Call, c: Call, events: seq<Event>, won: Option<Reason>)
    requires CancelUnderWay(c) && ResultSoFar(c0, c, won)
    requires CancelInvoked(false) !in events
    ensures var r := Run(c, events);
      r.ctl.cancelled && r.pc != Setup(0) && r.alive && r.escaped == 0 && r.tasks == 0 ==> r.completed
    decreases |events|
  {
    if events != [] {
      StepKeepsCancel(c, events[0]);
      StepKeepsResult(c0, c, events[0], won);
      CancelIsNotLost(c0, Step(c, events[0]), events[1..], Won(c, events[0], won));
    }
  }

  /**
   As long as the loop accepts tasks, a call that was cancelled and has no cancel
   callback or task left to run is completed.
   */
  lemma CancelledCallsComplete(c: Call, events: seq<Event>)
    requires Start(c) && CancelInvoked(false) !in events
    ensures var r := Run(c, events);
      r.ctl.cancelled && r.pc != Setup(0) && r.alive && r.escaped == 0 && r.tasks == 0 ==> r.completed
  {
    CancelIsNotLost(c, c, events, None);
  }
}
