/** What a call ends with, for each event that can complete it: error code, error text and response. */
module CallResults {
  import opened Bytes
  import opened Options
  import RpcControllers
  import opened Completion

  /** `b` is the text `s`, character by character. */
  predicate Spells(b: bytes, s: string) {
    |b| == |s| && forall i :: 0 <= i < |s| ==> b[i] as int == s[i] as int % 256
  }

  /** The controller reports this error. */
  predicate Reports(ctl: RpcControllers.Ctl, code: int, text: string) {
    ctl.failed && ctl.errorCode == code && Spells(ctl.errorInfo, text)
  }

  /** The same with a text that ends with the error of a system call. */
  predicate ReportsSystem(ctl: RpcControllers.Ctl, code: int, text: string, sysError: bytes) {
    ctl.failed && ctl.errorCode == code
    && |ctl.errorInfo| >= |text| && Spells(ctl.errorInfo[..|text|], text) && ctl.errorInfo[|text|..] == sysError
  }

  predicate KeepsError(before: RpcControllers.Ctl, after: RpcControllers.Ctl) {
    after.failed == before.failed && after.errorCode == before.errorCode && after.errorInfo == before.errorInfo
  }

  /**
   What a call whose controller was `before` ends with when `e` completed it: the
   error code, the error text and what the response was filled from.
   */
  predicate EndsWith(before: RpcControllers.Ctl, e: Event, after: RpcControllers.Ctl, response: Option<bytes>) {
    match e
    case TimerRuns => Reports(after, 10000007, "rpc call timeout") && response == None
    case CancelTask => Reports(after, 10000013, "rpc call cancelled") && response == None
    case Lost => Reports(after, 10000014, "rpc transport disconnected") && response == None
    case ConnectStarts(outcome) =>
      outcome.FailedAtOnce? && response == None
      && ReportsSystem(after, 10000001, "connect error, sys error = ", outcome.sysError)
    case ConnectEnds(result) =>
      && response == None && !result.Established?
      && (result.PeerRefused? ==> ReportsSystem(after, 10000000, "connect refused, sys error = ", result.sysError))
      && (result.OtherFailure? ==> ReportsSystem(after, 10000001, "connect unkonwn error, sys error = ", result.sysError))
    case Response(a) =>
      if !a.isTinyPB then Reports(after, 10000002, "invalid rpc response") && response == None
      else
        && response == Some(a.body)
        && if !a.parses then Reports(after, 10000004, "failed to deserialize response")
           else if a.errCode == 0 then KeepsError(before, after)
           else after.failed && after.errorCode == a.errCode && after.errorInfo == a.errInfo
    case _ => false
  }

  /** Whether an event can complete a call. */
  predicate CanComplete(e: Event) {
    e.TimerRuns? || e.CancelTask? || e.Lost? || e.Response?
    || (e.ConnectStarts? && e.outcome.FailedAtOnce?) || (e.ConnectEnds? && !e.result.Established?)
  }

  lemma OnlyTheseComplete(c: Call, e: Event)
    requires !c.completed && Step(c, e).completed
    ensures CanComplete(e)
  {
  }

  /** The result that `finish` and the read callback leave for a reason. */
  predicate Leaves(before: RpcControllers.Ctl, r: Reason, after: RpcControllers.Ctl, response: Option<bytes>) {
    && response == Filled(r) && after.failed == (before.failed || Code(r) != 0)
    && after.errorCode == (if Code(r) != 0 then Code(r) else before.errorCode)
    && after.errorInfo == (if Code(r) != 0 then Info(r) else before.errorInfo)
  }

  lemma ReasonsAreReported(before: RpcControllers.Ctl, e: Event, after: RpcControllers.Ctl, response: Option<bytes>)
    requires CanComplete(e) && Leaves(before, ReasonOf(e), after, response)
    ensures EndsWith(before, e, after, response)
  {
    match e
    case Response(_) => AnswersAreReported(before, e, after, response);
    case ConnectStarts(_) => ConnectsAreReported(before, e, after, response);
    case ConnectEnds(_) => ConnectsAreReported(before, e, after, response);
    case _ =>
  }

  lemma AnswersAreReported(before: RpcControllers.Ctl, e: Event, after: RpcControllers.Ctl, response: Option<bytes>)
    requires e.Response? && Leaves(before, ReasonOf(e), after, response)
    ensures EndsWith(before, e, after, response)
  {
  }

  lemma ConnectsAreReported(before: RpcControllers.Ctl, e: Event, after: RpcControllers.Ctl, response: Option<bytes>)
    requires (e.ConnectStarts? || e.ConnectEnds?) && CanComplete(e) && Leaves(before, ReasonOf(e), after, response)
    ensures EndsWith(before, e, after, response)
  {
    match e
    case ConnectStarts(FailedAtOnce(sysError)) => TextThen("connect error, sys error = ", sysError);
    case ConnectEnds(PeerRefused(sysError)) => TextThen("connect refused, sys error = ", sysError);
    case ConnectEnds(OtherFailure(sysError)) => TextThen("connect unkonwn error, sys error = ", sysError);
  }

  lemma TextThen(s: string, more: bytes)
    ensures (Text(s) + more)[..|s|] == Text(s) && (Text(s) + more)[|s|..] == more
  {
  }

  /**
   In every run of a call, the event that completes it decides what it ends with:
   a timeout 10000007, a cancellation 10000013, a lost connection 10000014, a
   connect failure its own code, an answer its own error or none.
   */
  lemma EndsAsCompleted(c: Call, before: seq<Event>, e: Event, after: seq<Event>)
    requires Start(c)
    requires var b := Run(c, before); !b.completed && Step(b, e).completed
    ensures var r := Run(Step(Run(c, before), e), after);
      && (Advances(after) > LAST_STAGE ==> r.pc == Returned)
      && (r.pc == Returned ==> EndsWith(c.ctl, e, r.ctl, r.response) && r.runs == if c.closure then 1 else 0)
  {
    RunKeeps(c, c, before, None);
    var b := Run(c, before);
    StepKeepsResult(c, b, e, None);
    StepKeepsClean(b, e);
    AfterTheGate(c, Step(b, e), ReasonOf(e), after);
    OnlyTheseComplete(b, e);
    var r := Run(Step(b, e), after);
    if r.pc == Returned {
      ReasonsAreReported(c.ctl, e, r.ctl, r.response);
    }
  }

  lemma AfterTheGate(c0: Call, c: Call, reason: Reason, after: seq<Event>)
    requires ResultSoFar(c0, c, Some(reason)) && CleanSoFar(c)
    ensures var r := Run(c, after);
      && (Advances(after) > LAST_STAGE ==> r.pc == Returned)
      && (r.pc == Returned ==> Leaves(c0.ctl, reason, r.ctl, r.response) && r.runs == if c0.closure then 1 else 0)
  {
    RunKeeps(c0, c, after, Some(reason));
    CompletionAdvances(c, after);
  }
}
