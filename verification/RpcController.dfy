/**
 The controller of a call: flags, error and cancel callbacks behind one mutex.
 Each locked region is one atomic step; a callback taken out of the controller
 inside a region is invoked later, outside it. No cancellation is lost or
 delivered twice, whatever the interleaving.
 */
module RpcControllers {
  import opened Bytes
  import opened Options

  /** Identity of a stored callback. */
  type Id = nat

  datatype Ctl = Ctl(
    errorCode: int32, errorInfo: bytes, failed: bool, cancelled: bool, finished: bool,
    cancelClosure: Option<Id>, cancelCallback: Option<Id>)

  /** The locked regions. */
  datatype Region =
    | StartCancel
    | NotifyOnCancel(closure: Option<Id>)
    | SetCancelCallback(callback: Option<Id>)
    | ClearCancelCallback
    | SetError(code: int32, info: bytes)
    | SetFailed(reason: bytes)
    | SetFinished(value: bool)

  /** The new contents and the callbacks to be invoked once the lock is released. */
  datatype Effect = Effect(ctl: Ctl, escaped: seq<Id>)

  function Enter(c: Ctl, r: Region): Effect {
    match r
    case StartCancel =>
      if c.cancelled || c.finished then Effect(c, [])
      else Effect(c.(cancelled := true, cancelClosure := None, cancelCallback := None),
                  Listed(c.cancelClosure) + Listed(c.cancelCallback))
    case NotifyOnCancel(closure) =>
      if c.cancelled then Effect(c, Listed(closure)) else Effect(c.(cancelClosure := closure), [])
    case SetCancelCallback(callback) =>
      if c.cancelled then Effect(c, Listed(callback)) else Effect(c.(cancelCallback := callback), [])
    case ClearCancelCallback => Effect(c.(cancelCallback := None), [])
    case SetError(code, info) => Effect(c.(errorCode := code, errorInfo := info, failed := true), [])
    case SetFailed(reason) => Effect(c.(errorInfo := reason, failed := true), [])
    case SetFinished(value) => Effect(c.(finished := value), [])
  }

  class RpcController {
    var errorCode: int32
    var errorInfo: bytes
    var isFailed: bool
    var isCancelled: bool
    var isFinished: bool
    var cancelClosure: Option<Id>
    var cancelCallback: Option<Id>

    ghost function View(): Ctl
      reads this
    {
      Ctl(errorCode, errorInfo, isFailed, isCancelled, isFinished, cancelClosure, cancelCallback)
    }

    constructor ()
      ensures View() == Ctl(0, [], false, false, false, None, None)
    {
      errorCode, errorInfo, isFailed, isCancelled, isFinished := 0, [], false, false, false;
      cancelClosure, cancelCallback := None, None;
    }

    /** Returns the callbacks to invoke: the user's closure first, then the channel's callback. */
    method StartCancel() returns (run: seq<Id>)
      modifies this
      ensures Effect(View(), run) == Enter(old(View()), Region.StartCancel)
    {
      if isCancelled || isFinished {
        return [];
      }
      isCancelled := true;
      run := Listed(cancelClosure) + Listed(cancelCallback);
      cancelClosure, cancelCallback := None, None;
    }

    method NotifyOnCancel(closure: Option<Id>) returns (run: seq<Id>)
      modifies this
      ensures Effect(View(), run) == Enter(old(View()), Region.NotifyOnCancel(closure))
    {
      if isCancelled {
        return Listed(closure);
      }
      cancelClosure := closure;
      run := [];
    }

    method SetCancelCallback(callback: Option<Id>) returns (run: seq<Id>)
      modifies this
      ensures Effect(View(), run) == Enter(old(View()), Region.SetCancelCallback(callback))
    {
      if isCancelled {
        return Listed(callback);
      }
      cancelCallback := callback;
      run := [];
    }

    method ClearCancelCallback()
      modifies this
      ensures Effect(View(), []) == Enter(old(View()), Region.ClearCancelCallback)
    {
      cancelCallback := None;
    }

    method SetError(code: int32, info: bytes)
      modifies this
      ensures Effect(View(), []) == Enter(old(View()), Region.SetError(code, info))
    {
      errorCode, errorInfo, isFailed := code, info, true;
    }

    method SetFailed(reason: bytes)
      modifies this
      ensures Effect(View(), []) == Enter(old(View()), Region.SetFailed(reason))
    {
      errorInfo, isFailed := reason, true;
    }

    method SetFinished(value: bool)
      modifies this
      ensures Effect(View(), []) == Enter(old(View()), Region.SetFinished(value))
    {
      isFinished := value;
    }
  }

  // ---------- all interleavings of the regions ----------

  /** The controller, the callbacks taken out and not yet invoked, and those invoked. */
  datatype Run = Run(ctl: Ctl, inFlight: seq<Id>, invoked: seq<Id>)

  /** Some thread enters a region, or invokes a callback it took out earlier. */
  datatype Event = Locked(region: Region) | Invoke(index: nat)

  function Step(s: Run, e: Event): Run {
    match e
    case Locked(r) =>
      var x := Enter(s.ctl, r);
      s.(ctl := x.ctl, inFlight := s.inFlight + x.escaped)
    case Invoke(i) =>
      if i >= |s.inFlight| then s
      else s.(inFlight := s.inFlight[..i] + s.inFlight[i + 1..], invoked := s.invoked + [s.inFlight[i]])
  }

  function Exec(s: Run, events: seq<Event>): Run
    decreases |events|
  {
    if events == [] then s else Step(Exec(s, events[..|events| - 1]), events[|events| - 1])
  }

  /** A controller nobody has cancelled, finished or registered with. */
  predicate Fresh(s: Run) {
    !s.ctl.cancelled && !s.ctl.finished && s.ctl.cancelClosure == None && s.ctl.cancelCallback == None
    && s.inFlight == [] && s.invoked == []
  }

  /** How often `id` has been taken out of the controller, invoked or about to be. */
  function Deliveries(s: Run, id: Id): nat {
    multiset(s.inFlight)[id] + multiset(s.invoked)[id]
  }

  /** `events[i]` is a cancellation that finds the call neither cancelled nor finished. */
  predicate Effective(s: Run, events: seq<Event>, i: nat)
    requires i < |events|
  {
    var before := Exec(s, events[..i]).ctl;
    events[i] == Locked(StartCancel) && !before.cancelled && !before.finished
  }

  /** The two places where a controller keeps a callback: the user's, and the channel's. */
  datatype Slot = UserSlot | ChannelSlot

  function Other(slot: Slot): Slot {
    if slot.UserSlot? then ChannelSlot else UserSlot
  }

  function Kept(c: Ctl, slot: Slot): Option<Id> {
    if slot.UserSlot? then c.cancelClosure else c.cancelCallback
  }

  function Register(slot: Slot, callback: Option<Id>): Region {
    if slot.UserSlot? then NotifyOnCancel(callback) else SetCancelCallback(callback)
  }

  predicate IsRegistration(r: Region, slot: Slot) {
    if slot.UserSlot? then r.NotifyOnCancel? else r.SetCancelCallback?
  }

  /** Only the channel's callback can be cleared. */
  predicate Clears(e: Event, slot: Slot) {
    slot.ChannelSlot? && e == Locked(ClearCancelCallback)
  }

  /** `id` is registered in `slot` by the event at `at`, the only registration there, and never in the other slot. */
  predicate RegisteredOnce(events: seq<Event>, slot: Slot, id: Id, at: nat) {
    at < |events| && events[at] == Locked(Register(slot, Some(id)))
    && (forall i :: 0 <= i < |events| && i != at && events[i].Locked? ==> !IsRegistration(events[i].region, slot))
    && (forall i :: 0 <= i < |events| && events[i].Locked? ==> events[i].region != Register(Other(slot), Some(id)))
  }

  predicate ClearedBetween(events: seq<Event>, slot: Slot, from: nat, to: nat)
    requires from <= to <= |events|
  {
    exists i :: from < i < to && Clears(events[i], slot)
  }

  /** Some effective cancellation either preceded the registration, or followed it before it was cleared. */
  predicate CancelReaches(s: Run, events: seq<Event>, slot: Slot, at: nat)
    requires at < |events|
  {
    exists j :: 0 <= j < |events| && Effective(s, events, j) && (j < at || !ClearedBetween(events, slot, at, j))
  }

  /** Invoking moves a callback from one list to the other. */
  lemma InvokeKeepsDeliveries(s: Run, i: nat, id: Id)
    ensures Deliveries(Step(s, Invoke(i)), id) == Deliveries(s, id)
  {
    if i < |s.inFlight| {
      assert s.inFlight == s.inFlight[..i] + [s.inFlight[i]] + s.inFlight[i + 1..];
    }
  }

  lemma RegionDelivers(s: Run, r: Region, id: Id)
    ensures Deliveries(Step(s, Locked(r)), id) == Deliveries(s, id) + multiset(Enter(s.ctl, r).escaped)[id]
  {
  }

  /** What is known after the first `n` events; `hit` is the position of the one effective cancellation, or -1. */
  ghost predicate Tracked(s: Run, events: seq<Event>, slot: Slot, id: Id, at: nat, n: nat, hit: int)
    requires n <= |events| && at < |events|
  {
    var r := Exec(s, events[..n]);
    && hit < n
    && (r.ctl.cancelled <==> hit >= 0)
    && (hit >= 0 ==> Effective(s, events, hit))
    && (forall j :: 0 <= j < n && j != hit ==> !Effective(s, events, j))
    && Kept(r.ctl, Other(slot)) != Some(id)
    && (n <= at ==> Kept(r.ctl, slot) == None && Deliveries(r, id) == 0)
    && (n > at ==> Kept(r.ctl, slot) == if hit < 0 && !ClearedBetween(events, slot, at, n) then Some(id) else None)
    && (n > at ==> Deliveries(r, id) == if hit >= 0 && (hit < at || !ClearedBetween(events, slot, at, hit)) then 1 else 0)
  }

  lemma ExecOfOneMore(s: Run, events: seq<Event>, n: nat)
    requires n < |events|
    ensures Exec(s, events[..n + 1]) == Step(Exec(s, events[..n]), events[n])
  {
    assert events[..n + 1][..n] == events[..n];
  }

  lemma ClearedBetweenOneMore(events: seq<Event>, slot: Slot, at: nat, n: nat)
    requires at < n < |events|
    ensures ClearedBetween(events, slot, at, n + 1) <==> ClearedBetween(events, slot, at, n) || Clears(events[n], slot)
  {
  }

  predicate IsEffective(c: Ctl, e: Event) {
    e == Locked(StartCancel) && !c.cancelled && !c.finished
  }

  lemma ListedCount(x: Option<Id>, id: Id)
    ensures multiset(Listed(x))[id] == if x == Some(id) then 1 else 0
  {
  }

  /** How often a region lets `id` escape. */
  lemma EscapedCount(c: Ctl, region: Region, slot: Slot, id: Id)
    requires Kept(c, Other(slot)) != Some(id) && region != Register(Other(slot), Some(id))
    ensures multiset(Enter(c, region).escaped)[id]
         == if region == Register(slot, Some(id)) && c.cancelled then 1
            else if IsEffective(c, Locked(region)) && Kept(c, slot) == Some(id) then 1
            else 0
  {
    match region
    case StartCancel =>
      ListedCount(c.cancelClosure, id);
      ListedCount(c.cancelCallback, id);
    case NotifyOnCancel(closure) => ListedCount(closure, id);
    case SetCancelCallback(callback) => ListedCount(callback, id);
    case _ =>
  }

  lemma DeliveriesOfEvent(r: Run, e: Event, slot: Slot, id: Id)
    requires Kept(r.ctl, Other(slot)) != Some(id) && e != Locked(Register(Other(slot), Some(id)))
    ensures Deliveries(Step(r, e), id) == Deliveries(r, id)
              + (if e == Locked(Register(slot, Some(id))) && r.ctl.cancelled then 1
                 else if IsEffective(r.ctl, e) && Kept(r.ctl, slot) == Some(id) then 1
                 else 0)
  {
    match e
    case Invoke(i) => InvokeKeepsDeliveries(r, i, id);
    case Locked(region) =>
      RegionDelivers(r, region, id);
      EscapedCount(r.ctl, region, slot, id);
  }

  /** One event, seen from the one callback `id`. */
  lemma OneEvent(r: Run, e: Event, slot: Slot, id: Id)
    requires Kept(r.ctl, Other(slot)) != Some(id) && e != Locked(Register(Other(slot), Some(id)))
    requires e.Locked? && IsRegistration(e.region, slot) ==> e.region == Register(slot, Some(id))
    ensures var q := Step(r, e).ctl;
      && (q.cancelled <==> r.ctl.cancelled || IsEffective(r.ctl, e))
      && Kept(q, Other(slot)) != Some(id)
      && Kept(q, slot) == (if e == Locked(Register(slot, Some(id))) && !r.ctl.cancelled then Some(id)
                           else if IsEffective(r.ctl, e) || Clears(e, slot) then None
                           else Kept(r.ctl, slot))
  {
  }

  lemma TrackOneMore(s: Run, events: seq<Event>, slot: Slot, id: Id, at: nat, n: nat, hit: int)
    requires n < |events| && RegisteredOnce(events, slot, id, at) && Tracked(s, events, slot, id, at, n, hit)
    ensures Tracked(s, events, slot, id, at, n + 1, if Effective(s, events, n) then n else hit)
  {
    ExecOfOneMore(s, events, n);
    OneEvent(Exec(s, events[..n]), events[n], slot, id);
    DeliveriesOfEvent(Exec(s, events[..n]), events[n], slot, id);
    if n > at {
      ClearedBetweenOneMore(events, slot, at, n);
    } else if n == at {
      assert !ClearedBetween(events, slot, at, n + 1);
    }
  }

  lemma {:induction false} Track(s: Run, events: seq<Event>, slot: Slot, id: Id, at: nat, n: nat) returns (hit: int)
    requires Fresh(s) && n <= |events| && RegisteredOnce(events, slot, id, at)
    ensures Tracked(s, events, slot, id, at, n, hit)
  {
    if n == 0 {
      hit := -1;
    } else {
      hit := Track(s, events, slot, id, at, n - 1);
      TrackOneMore(s, events, slot, id, at, n - 1, hit);
      if Effective(s, events, n - 1) {
        hit := n - 1;
      }
    }
  }

  /**
   No lost or doubled cancellation: for every interleaving, a callback registered
   once, by the user or by the channel, is delivered exactly once if some effective
   cancellation preceded its registration, or followed it before it was cleared,
   and otherwise never.
   */
  lemma CancellationIsDeliveredOnce(s: Run, events: seq<Event>, slot: Slot, id: Id, at: nat)
    requires Fresh(s) && RegisteredOnce(events, slot, id, at)
    ensures Deliveries(Exec(s, events), id) == if CancelReaches(s, events, slot, at) then 1 else 0
  {
    var hit := Track(s, events, slot, id, at, |events|);
    assert events[..|events|] == events;
  }

  /** The user's closure cannot be cleared: any effective cancellation delivers it, whenever it was registered. */
  lemma UserClosureAlwaysHears(s: Run, events: seq<Event>, id: Id, at: nat)
    requires Fresh(s) && RegisteredOnce(events, UserSlot, id, at)
    ensures Deliveries(Exec(s, events), id) == if exists j :: 0 <= j < |events| && Effective(s, events, j) then 1 else 0
  {
    CancellationIsDeliveredOnce(s, events, UserSlot, id, at);
    assert forall j :: at <= j <= |events| ==> !ClearedBetween(events, UserSlot, at, j);
  }

  /** Once the call is finished and no region unfinishes it, cancelling delivers nothing and changes nothing. */
  lemma CancelAfterFinishIsIgnored(s: Run)
    requires s.ctl.finished
    ensures Step(s, Locked(StartCancel)) == s
  {
    assert s.inFlight + [] == s.inFlight;
  }

  // ---------- failure and order ----------

  /** Reporting an error or a failure makes the call count as failed, with that text; only an error brings a code. */
  lemma FailureIsReported(s: Run, code: int32, info: bytes)
    ensures var r := Step(s, Locked(SetError(code, info))).ctl; r.failed && r.errorCode == code && r.errorInfo == info
    ensures var r := Step(s, Locked(SetFailed(info))).ctl; r.failed && r.errorCode == s.ctl.errorCode && r.errorInfo == info
  {
  }

  /** The finished flag is what it was last set to: a call taken back from finished can be cancelled again. */
  lemma FinishedIsAsSet(s: Run, value: bool)
    ensures var r := Step(s, Locked(SetFinished(value))).ctl;
      r.finished == value && r.failed == s.ctl.failed && r.cancelled == s.ctl.cancelled
      && (!value && !s.ctl.cancelled ==> Enter(r, StartCancel).ctl.cancelled)
  {
  }

  /** And no later event takes it back: the code and the text stay until one is reported again. */
  lemma {:induction false} FailureStays(s: Run, events: seq<Event>)
    ensures s.ctl.failed ==> Exec(s, events).ctl.failed
    ensures (forall i :: 0 <= i < |events| && events[i].Locked? ==> !events[i].region.SetError? && !events[i].region.SetFailed?) ==>
      var r := Exec(s, events).ctl;
      r.failed == s.ctl.failed && r.errorCode == s.ctl.errorCode && r.errorInfo == s.ctl.errorInfo
    decreases |events|
  {
    if events != [] {
      FailureStays(s, events[..|events| - 1]);
    }
  }

  /** A cancellation hands out the user's closure before the channel's callback. */
  lemma UserHearsFirst(s: Run, closure: Id, callback: Id)
    requires s.ctl.cancelClosure == Some(closure) && s.ctl.cancelCallback == Some(callback)
    requires !s.ctl.cancelled && !s.ctl.finished
    ensures Step(s, Locked(StartCancel)).inFlight == s.inFlight + [closure, callback]
  {
  }
}
