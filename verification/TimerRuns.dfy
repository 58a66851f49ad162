/**
 Runs of the timer queue in which additions, cancellations and the parts of
 `onTimer` interleave. Whenever `onTimer` is not between collecting and arming,
 the timerfd is armed in time for the first deadline; events fire exactly when
 due, in order; one-shot events at most once; cancelled ones not again.
 */
module TimerRuns {
  import opened Options
  import opened TimerSpec

  /** Idle or running tasks; or putting back the repeating events of the last batch (`restarted`: the first one has its new deadline). */
  datatype Phase = Settled | PuttingBack(batch: seq<EventId>, restarted: bool)

  /** `tasks` are collected and still to run, `log` has run. */
  datatype Sys = Sys(timers: Timers, clock: int, phase: Phase, tasks: seq<Fire>, log: seq<Fire>)

  datatype Op =
    | New(id: EventId, interval: int, repeated: bool, now: int)   // construct an event and add it
    | Cancel(id: EventId)                                         // first line of deleteTimerEvent
    | Erase(id: EventId)                                          // the rest of it
    | Collect(now: int)                                           // onTimer up to the end of the locked region
    | Restart(now: int)                                           // new deadline for the next repeating event
    | PutBack(now: int)                                           // add it again
    | Arm(now: int)                                               // the final resetArriveTime
    | RunTask                                                     // run the next collected callback

  function Ids(fires: seq<Fire>): (r: seq<EventId>)
    ensures |r| == |fires|
  {
    seq(|fires|, i requires 0 <= i < |fires| => fires[i].id)
  }

  predicate DistinctIds(ids: seq<EventId>) {
    forall i, j :: 0 <= i < j < |ids| ==> ids[i] != ids[j]
  }

  predicate PhaseOk(s: Sys) {
    s.phase.PuttingBack? ==>
      && DistinctIds(s.phase.batch)
      && (forall i :: 0 <= i < |s.phase.batch| ==> s.phase.batch[i] in s.timers.events && !IsPending(s.timers, s.phase.batch[i]))
      && (s.phase.restarted ==> s.phase.batch != [] && s.timers.events[s.phase.batch[0]].repeated)
  }

  predicate Valid(s: Sys) {
    Ok(s.timers) && PhaseOk(s)
  }

  /** A step at a reading of the clock is possible only when the clock has not been read later already. */
  function Step(s: Sys, op: Op): Sys
    requires Valid(s)
  {
    match op
    case New(id, interval, repeated, now) =>
      if now < s.clock || id in s.timers.events then s else StepNew(s, id, interval, repeated, now)
    case Cancel(id) =>
      if id in s.timers.events then s.(timers := WithCancelled(s.timers, id)) else s
    case Erase(id) =>
      if id in s.timers.events then s.(timers := Erased(s.timers, id)) else s
    case Collect(now) =>
      if now < s.clock || !s.phase.Settled? || s.tasks != [] then s else StepCollect(s, now)
    case Restart(now) =>
      if now < s.clock || !s.phase.PuttingBack? || s.phase.batch == [] || s.phase.restarted then s else StepRestart(s, now)
    case PutBack(now) =>
      if now < s.clock || !s.phase.PuttingBack? || s.phase.batch == [] || !s.phase.restarted then s else StepPutBack(s, now)
    case Arm(now) =>
      if now < s.clock || s.phase != PuttingBack([], false) then s
      else s.(clock := now, timers := Armed(s.timers, now), phase := Settled)
    case RunTask =>
      if !s.phase.Settled? || s.tasks == [] then s
      else s.(tasks := s.tasks[1..], log := s.log + [s.tasks[0]])
  }

  function Constructed(t: Timers, id: EventId, interval: int, repeated: bool, now: int): (r: Timers)
    requires Ok(t) && id !in t.events
    ensures Ok(r) && id in r.events && !IsPending(r, id) && r.pending == t.pending
  {
    t.(events := t.events[id := Event(now + interval, interval, repeated, false)])
  }

  function StepNew(s: Sys, id: EventId, interval: int, repeated: bool, now: int): Sys
    requires Valid(s) && id !in s.timers.events
  {
    s.(clock := now, timers := Added(Constructed(s.timers, id, interval, repeated, now), id, now))
  }

  function StepCollect(s: Sys, now: int): Sys
    requires Valid(s)
  {
    var b := Collected(Drained(s.timers, now), now);
    s.(clock := now, timers := b.timers, phase := PuttingBack(Ids(b.fires), false), tasks := b.fires)
  }

  function StepRestart(s: Sys, now: int): Sys
    requires Valid(s) && s.phase.PuttingBack? && s.phase.batch != []
  {
    var id := s.phase.batch[0];
    if !s.timers.events[id].repeated then s.(phase := PuttingBack(s.phase.batch[1..], false))
    else s.(clock := now, timers := Restarted(s.timers, id, now), phase := PuttingBack(s.phase.batch, true))
  }

  function StepPutBack(s: Sys, now: int): Sys
    requires Valid(s) && s.phase.PuttingBack? && s.phase.batch != []
  {
    s.(clock := now, timers := Added(s.timers, s.phase.batch[0], now), phase := PuttingBack(s.phase.batch[1..], false))
  }

  // ---------- the queue stays well-formed ----------

  lemma AddedFacts(t: Timers, id: EventId, now: int)
    requires Ok(t) && id in t.events && !IsPending(t, id)
    ensures var r := Added(t, id, now);
      && Ok(r) && r.events == t.events
      && (forall other :: IsPending(r, other) <==> other == id || IsPending(t, other))
  {
    var e := Entry(t.events[id].arrive, t.inserted, id);
    InsertKeepsOk(t, e);
    var n := UpperBound(t.pending, e.key);
    var p, q := t.pending, Insert(t.pending, e);
    assert q[n] == e;
    forall other ensures IsPending(Added(t, id, now), other) <==> other == id || IsPending(t, other) {
      if IsPending(t, other) {
        var i :| 0 <= i < |p| && p[i].id == other;
        assert q[if i < n then i else i + 1].id == other;
      }
    }
  }

  lemma SuffixKeepsOk(t: Timers, n: nat)
    requires Ok(t) && n <= |t.pending|
    ensures Ok(t.(pending := t.pending[n..]))
  {
  }

  predicate Holds(p: seq<Entry>, id: EventId) {
    exists i :: 0 <= i < |p| && p[i].id == id
  }

  predicate Fires(f: seq<Fire>, id: EventId) {
    exists k :: 0 <= k < |f| && f[k].id == id
  }

  lemma HoldsOfCons(p: seq<Entry>, id: EventId)
    requires p != []
    ensures Holds(p, id) <==> p[0].id == id || Holds(p[1..], id)
  {
    if Holds(p, id) && p[0].id != id {
      var i :| 0 <= i < |p| && p[i].id == id;
      assert p[1..][i - 1].id == id;
    }
  }

  lemma FiresOfAppended(f: seq<Fire>, g: seq<Fire>, id: EventId)
    ensures Fires(f + g, id) <==> Fires(f, id) || Fires(g, id)
  {
    var h := f + g;
    if Fires(g, id) {
      var k :| 0 <= k < |g| && g[k].id == id;
      assert h[|f| + k].id == id;
    }
    if Fires(f, id) {
      var k :| 0 <= k < |f| && f[k].id == id;
      assert h[k].id == id;
    }
  }

  /** Exactly the uncancelled entries are collected. */
  lemma {:induction false} UncancelledIds(t: Timers, p: seq<Entry>, now: int, id: EventId)
    requires forall i :: 0 <= i < |p| ==> p[i].id in t.events
    ensures Fires(Uncancelled(t, p, now), id) <==> Holds(p, id) && !t.events[id].cancelled
  {
    if p != [] {
      UncancelledIds(t, p[1..], now, id);
      HoldsOfCons(p, id);
      var f := if t.events[p[0].id].cancelled then [] else [Fire(p[0].id, t.events[p[0].id].arrive, now)];
      FiresOfAppended(f, Uncancelled(t, p[1..], now), id);
      assert Fires(f, id) <==> f != [] && f[0].id == id;
    }
  }

  /** Each with its deadline and the time of collection. */
  lemma {:induction false} UncancelledFires(t: Timers, p: seq<Entry>, now: int)
    requires forall i :: 0 <= i < |p| ==> p[i].id in t.events
    ensures forall k :: 0 <= k < |Uncancelled(t, p, now)| ==>
      var f := Uncancelled(t, p, now)[k]; f.id in t.events && f.deadline == t.events[f.id].arrive && f.at == now
  {
    if p != [] {
      UncancelledFires(t, p[1..], now);
    }
  }

  /** None of them twice. */
  lemma {:induction false} UncancelledDistinct(t: Timers, p: seq<Entry>, now: int)
    requires forall i :: 0 <= i < |p| ==> p[i].id in t.events
    requires Distinct(p)
    ensures DistinctIds(Ids(Uncancelled(t, p, now)))
  {
    if p != [] {
      UncancelledDistinct(t, p[1..], now);
      UncancelledIds(t, p[1..], now, p[0].id);
      assert !Holds(p[1..], p[0].id);
      var g := Uncancelled(t, p[1..], now);
      assert forall k :: 0 <= k < |g| ==> Ids(g)[k] == g[k].id;
      assert forall k :: 0 <= k < |g| ==> g[k].id != p[0].id;
    }
  }

  /** What collecting leaves and yields. */
  lemma CollectedFacts(t: Timers, now: int)
    requires Ok(t)
    ensures var b := Collected(t, now);
      && Ok(b.timers) && b.timers.events == t.events && DistinctIds(Ids(b.fires))
      && (forall k :: 0 <= k < |b.fires| ==> b.fires[k].id in t.events && !IsPending(b.timers, b.fires[k].id))
  {
    var n := UpperBound(t.pending, now);
    var due, later := t.pending[..n], t.pending[n..];
    SuffixKeepsOk(t, n);
    UncancelledFires(t, due, now);
    UncancelledDistinct(t, due, now);
    var b := Collected(t, now);
    forall k | 0 <= k < |b.fires| ensures !IsPending(b.timers, b.fires[k].id) {
      UncancelledIds(t, due, now, b.fires[k].id);
      assert Fires(b.fires, b.fires[k].id);
      var i :| 0 <= i < |due| && due[i].id == b.fires[k].id;
      assert forall j :: 0 <= j < |later| ==> later[j] == t.pending[n + j];
    }
  }

  lemma NewKeepsValid(s: Sys, id: EventId, interval: int, repeated: bool, now: int)
    requires Valid(s) && id !in s.timers.events
    ensures Valid(StepNew(s, id, interval, repeated, now))
  {
    AddedFacts(Constructed(s.timers, id, interval, repeated, now), id, now);
  }

  lemma CollectKeepsValid(s: Sys, now: int)
    requires Valid(s)
    ensures Valid(StepCollect(s, now))
  {
    CollectedFacts(Drained(s.timers, now), now);
  }

  lemma RestartKeepsValid(s: Sys, now: int)
    requires Valid(s) && s.phase.PuttingBack? && s.phase.batch != []
    ensures Valid(StepRestart(s, now))
  {
  }

  lemma PutBackKeepsValid(s: Sys, now: int)
    requires Valid(s) && s.phase.PuttingBack? && s.phase.batch != []
    ensures Valid(StepPutBack(s, now))
  {
    AddedFacts(s.timers, s.phase.batch[0], now);
  }

  lemma CancelKeepsValid(s: Sys, id: EventId)
    requires Valid(s) && id in s.timers.events
    ensures Valid(s.(timers := WithCancelled(s.timers, id)))
  {
  }

  lemma EraseKeepsValid(s: Sys, id: EventId)
    requires Valid(s) && id in s.timers.events
    ensures Valid(s.(timers := Erased(s.timers, id)))
  {
    EraseKeepsOk(s.timers, id);
  }

  lemma StepKeepsValid(s: Sys, op: Op)
    requires Valid(s)
    ensures Valid(Step(s, op))
  {
    match op
    case New(id, interval, repeated, now) =>
      if id !in s.timers.events { NewKeepsValid(s, id, interval, repeated, now); }
    case Cancel(id) =>
      if id in s.timers.events { CancelKeepsValid(s, id); }
    case Erase(id) =>
      if id in s.timers.events { EraseKeepsValid(s, id); }
    case Collect(now) => CollectKeepsValid(s, now);
    case Restart(now) =>
      if s.phase.PuttingBack? && s.phase.batch != [] { RestartKeepsValid(s, now); }
    case PutBack(now) =>
      if s.phase.PuttingBack? && s.phase.batch != [] { PutBackKeepsValid(s, now); }
    case Arm(now) =>
    case RunTask =>
  }

  function Run(s: Sys, ops: seq<Op>): (r: Sys)
    requires Valid(s)
    ensures Valid(r)
    decreases |ops|
  {
    if ops == [] then s
    else
      StepKeepsValid(s, ops[0]);
      Run(Step(s, ops[0]), ops[1..])
  }

  lemma {:induction false} RunOfAppended(s: Sys, ops: seq<Op>, more: seq<Op>)
    requires Valid(s)
    ensures Run(s, ops + more) == Run(Run(s, ops), more)
    decreases |ops|
  {
    if ops == [] {
      assert ops + more == more;
    } else {
      StepKeepsValid(s, ops[0]);
      assert (ops + more)[1..] == ops[1..] + more;
      RunOfAppended(Step(s, ops[0]), ops[1..], more);
    }
  }

  // ---------- the timerfd is armed in time ----------

  function Max(a: int, b: int): int {
    if a > b then a else b
  }

  /** The timerfd expires no later than the first deadline, or the minimal delay after it was last armed. */
  predicate InTime(t: Timers) {
    t.pending != [] ==> t.fd.Some? && t.fd.value <= Max(t.pending[0].key, t.rearmed + MIN_DELAY)
  }

  predicate ArmedInTime(s: Sys) {
    s.phase.Settled? ==> InTime(s.timers)
  }

  lemma AddingKeepsInTime(t: Timers, id: EventId, now: int)
    requires Ok(t) && id in t.events && !IsPending(t, id) && InTime(t)
    ensures InTime(Added(t, id, now))
  {
    var e := Entry(t.events[id].arrive, t.inserted, id);
    InsertKeepsOk(t, e);
    var q := Insert(t.pending, e);
    if t.pending != [] && t.pending[0].key <= e.key {
      assert q[0] == t.pending[0];
    } else {
      assert q[0] == e;
    }
  }

  lemma ErasingKeepsInTime(t: Timers, id: EventId)
    requires Ok(t) && id in t.events && InTime(t)
    ensures InTime(Erased(t, id))
  {
    var q := Erased(t, id).pending;
    if q != [] && q[0] != t.pending[0] {
      assert q[0] == t.pending[1] && Before(t.pending[0], t.pending[1]);
    }
  }

  lemma StepKeepsArmed(s: Sys, op: Op)
    requires Valid(s) && ArmedInTime(s)
    ensures ArmedInTime(Step(s, op))
  {
    match op
    case New(id, interval, repeated, now) =>
      if id !in s.timers.events && s.phase.Settled? {
        AddingKeepsInTime(Constructed(s.timers, id, interval, repeated, now), id, now);
      }
    case Erase(id) =>
      if id in s.timers.events && s.phase.Settled? { ErasingKeepsInTime(s.timers, id); }
    case _ =>
  }

  /**
   Arming: through all additions, cancellations, repeats and firings, whenever
   events are pending and `onTimer` is not between collecting and arming, the
   timerfd is armed, or has expired unread, at a time no later than the first
   deadline or 100 ms after it was last armed.
   */
  lemma {:induction false} TimerfdIsArmedInTime(s: Sys, ops: seq<Op>)
    requires Valid(s) && ArmedInTime(s)
    ensures ArmedInTime(Run(s, ops))
    decreases |ops|
  {
    if ops != [] {
      StepKeepsValid(s, ops[0]);
      StepKeepsArmed(s, ops[0]);
      TimerfdIsArmedInTime(Step(s, ops[0]), ops[1..]);
    }
  }

  // ---------- what fires ----------

  /** Collected events keep the order of the queue: deadline, then insertion. */
  lemma {:induction false} UncancelledInOrder(t: Timers, p: seq<Entry>, now: int, k: nat, l: nat) returns (i: nat, j: nat)
    requires forall i :: 0 <= i < |p| ==> p[i].id in t.events
    requires k < l < |Uncancelled(t, p, now)|
    ensures i < j < |p| && p[i].id == Uncancelled(t, p, now)[k].id && p[j].id == Uncancelled(t, p, now)[l].id
  {
    var g := Uncancelled(t, p[1..], now);
    if t.events[p[0].id].cancelled {
      i, j := UncancelledInOrder(t, p[1..], now, k, l);
      i, j := i + 1, j + 1;
    } else if k > 0 {
      i, j := UncancelledInOrder(t, p[1..], now, k - 1, l - 1);
      i, j := i + 1, j + 1;
    } else {
      UncancelledIds(t, p[1..], now, g[l - 1].id);
      assert Fires(g, g[l - 1].id);
      var m :| 0 <= m < |p[1..]| && p[1..][m].id == g[l - 1].id;
      i, j := 0, m + 1;
    }
  }

  /** `events[id]` is in the queue with deadline at most `now`. */
  predicate Due(t: Timers, id: EventId, now: int) {
    exists i :: 0 <= i < |t.pending| && t.pending[i].id == id && t.pending[i].key <= now
  }

  /** The due entries are the first ones. */
  lemma DueIsInFront(t: Timers, id: EventId, now: int)
    requires Ok(t)
    ensures Due(t, id, now) <==> Holds(t.pending[..UpperBound(t.pending, now)], id)
  {
    var n := UpperBound(t.pending, now);
    forall i | n <= i < |t.pending| ensures t.pending[i].key > now {
      if i > n { assert Before(t.pending[n], t.pending[i]); }
    }
    if Due(t, id, now) {
      var i :| 0 <= i < |t.pending| && t.pending[i].id == id && t.pending[i].key <= now;
      assert t.pending[..n][i].id == id;
    }
  }

  lemma CollectedOnTime(t: Timers, now: int)
    requires Ok(t)
    ensures var f := Collected(t, now).fires;
      forall k :: 0 <= k < |f| ==>
        f[k].id in t.events && f[k].deadline == t.events[f[k].id].arrive && f[k].deadline <= now && f[k].at == now
  {
    var n := UpperBound(t.pending, now);
    var due, f := t.pending[..n], Collected(t, now).fires;
    UncancelledFires(t, due, now);
    forall k | 0 <= k < |f| ensures f[k].deadline <= now {
      UncancelledIds(t, due, now, f[k].id);
      assert Fires(f, f[k].id);
      var i :| 0 <= i < |due| && due[i].id == f[k].id;
      assert t.pending[i] == due[i];
    }
  }

  /**
   Collecting at `now` yields exactly the uncancelled events that are due, each
   once, with its deadline, and leaves exactly the later entries in the queue.
   */
  lemma CollectsExactlyTheDue(t: Timers, now: int)
    requires Ok(t)
    ensures var b := Collected(t, now);
      && (forall id :: Fires(b.fires, id) <==> Due(t, id, now) && !t.events[id].cancelled)
      && DistinctIds(Ids(b.fires))
      && (forall id :: IsPending(b.timers, id) <==> IsPending(t, id) && !Due(t, id, now))
      && (forall k :: 0 <= k < |b.fires| ==>
            b.fires[k].id in t.events && b.fires[k].deadline == t.events[b.fires[k].id].arrive
            && b.fires[k].deadline <= now && b.fires[k].at == now)
  {
    var n := UpperBound(t.pending, now);
    var b := Collected(t, now);
    CollectedFacts(t, now);
    CollectedOnTime(t, now);
    PendingOfSuffix(t, n);
    forall id
      ensures Fires(b.fires, id) <==> Due(t, id, now) && !t.events[id].cancelled
      ensures IsPending(b.timers, id) <==> IsPending(t, id) && !Due(t, id, now)
    {
      DueIsInFront(t, id, now);
      UncancelledIds(t, t.pending[..n], now, id);
      assert IsPending(b.timers, id) <==> Holds(b.timers.pending, id);
    }
  }

  lemma PendingOfSuffix(t: Timers, n: nat)
    requires Ok(t) && n <= |t.pending|
    ensures forall id :: Holds(t.pending[n..], id) <==> IsPending(t, id) && !Holds(t.pending[..n], id)
  {
    var due, later := t.pending[..n], t.pending[n..];
    assert forall i :: 0 <= i < |later| ==> later[i] == t.pending[n + i];
    assert forall i :: 0 <= i < n ==> due[i] == t.pending[i];
    forall id ensures Holds(later, id) <==> IsPending(t, id) && !Holds(due, id) {
      if IsPending(t, id) && !Holds(due, id) {
        var i :| 0 <= i < |t.pending| && t.pending[i].id == id;
        assert i >= n;
        assert later[i - n].id == id;
      }
    }
  }

  // ---------- how often ----------

  function Count(f: seq<Fire>, id: EventId): nat {
    if f == [] then 0 else (if f[0].id == id then 1 else 0) + Count(f[1..], id)
  }

  lemma {:induction false} CountOfAppended(f: seq<Fire>, g: seq<Fire>, id: EventId)
    ensures Count(f + g, id) == Count(f, id) + Count(g, id)
  {
    if f == [] {
      assert f + g == g;
    } else {
      assert (f + g)[1..] == f[1..] + g;
      CountOfAppended(f[1..], g, id);
    }
  }

  lemma {:induction false} CountOfDistinct(f: seq<Fire>, id: EventId)
    requires DistinctIds(Ids(f))
    ensures Count(f, id) == if Fires(f, id) then 1 else 0
  {
    if f != [] {
      assert Ids(f)[1..] == Ids(f[1..]);
      assert forall k :: 0 <= k < |f| ==> Ids(f)[k] == f[k].id;
      CountOfDistinct(f[1..], id);
      assert f == [f[0]] + f[1..];
      FiresOfAppended([f[0]], f[1..], id);
      assert Fires([f[0]], id) <==> [f[0]][0].id == id;
      if f[0].id == id {
        assert !Fires(f[1..], id);
      }
    }
  }

  /** Times `id` has been collected, run or still to run. */
  function Collections(s: Sys, id: EventId): nat {
    Count(s.log, id) + Count(s.tasks, id)
  }

  /** Only collecting an uncancelled, due event raises its count, and by one. */
  lemma CollectionsOfStep(s: Sys, op: Op, id: EventId)
    requires Valid(s)
    ensures Collections(Step(s, op), id) == Collections(s, id)
      + (if op.Collect? && op.now >= s.clock && s.phase.Settled? && s.tasks == []
            && Due(s.timers, id, op.now) && !s.timers.events[id].cancelled then 1 else 0)
  {
    match op
    case Collect(now) =>
      if now >= s.clock && s.phase.Settled? && s.tasks == [] {
        var t := Drained(s.timers, now);
        CollectsExactlyTheDue(t, now);
        assert Due(t, id, now) <==> Due(s.timers, id, now);
        CountOfDistinct(Collected(t, now).fires, id);
      }
    case RunTask =>
      if s.phase.Settled? && s.tasks != [] {
        CountOfAppended(s.log, [s.tasks[0]], id);
        assert Count([s.tasks[0]], id) == (if s.tasks[0].id == id then 1 else 0) + Count([], id);
      }
    case _ =>
  }

  /** A one-shot event is collected at most once, and not again once it is out of the queue. */
  predicate OneShotOk(s: Sys, id: EventId) {
    && (id !in s.timers.events ==> Collections(s, id) == 0)
    && (id in s.timers.events && !s.timers.events[id].repeated ==>
        Collections(s, id) + (if IsPending(s.timers, id) then 1 else 0) <= 1)
  }

  /** No step but adding it puts a one-shot event into the queue; a due one leaves it when collected. */
  lemma PendingOfStep(s: Sys, op: Op, id: EventId)
    requires Valid(s) && id in s.timers.events && !s.timers.events[id].repeated
    ensures var r := Step(s, op);
      && id in r.timers.events && !r.timers.events[id].repeated
      && (IsPending(r.timers, id) ==> IsPending(s.timers, id))
      && (op.Collect? && r != s && IsPending(r.timers, id) ==> !Due(s.timers, id, op.now))
  {
    match op
    case New(other, interval, repeated, now) =>
      if now >= s.clock && other !in s.timers.events {
        AddedFacts(Constructed(s.timers, other, interval, repeated, now), other, now);
      }
    case Erase(other) =>
      if other in s.timers.events { EraseKeepsOk(s.timers, other); }
    case Collect(now) =>
      if now >= s.clock && s.phase.Settled? && s.tasks == [] {
        var t := Drained(s.timers, now);
        CollectsExactlyTheDue(t, now);
        assert Due(t, id, now) <==> Due(s.timers, id, now);
      }
    case PutBack(now) =>
      if now >= s.clock && s.phase.PuttingBack? && s.phase.batch != [] && s.phase.restarted {
        AddedFacts(s.timers, s.phase.batch[0], now);
      }
    case _ =>
  }

  lemma StepKeepsOneShot(s: Sys, op: Op, id: EventId)
    requires Valid(s) && OneShotOk(s, id)
    ensures OneShotOk(Step(s, op), id)
  {
    CollectionsOfStep(s, op, id);
    if id in s.timers.events {
      if !s.timers.events[id].repeated {
        PendingOfStep(s, op, id);
      }
    }
  }

  /** Nothing has been added yet. */
  function Start(clock: int): (s: Sys)
    ensures Valid(s)
  {
    Sys(Timers([], map[], None, clock, 0), clock, Settled, [], [])
  }

  /** A one-shot event fires at most once, in every run. */
  lemma {:induction false} OneShotFiresAtMostOnce(s: Sys, ops: seq<Op>, id: EventId)
    requires Valid(s) && OneShotOk(s, id)
    ensures var r := Run(s, ops); OneShotOk(r, id)
    ensures var r := Run(s, ops); id in r.timers.events && !r.timers.events[id].repeated ==> Count(r.log, id) <= 1
    decreases |ops|
  {
    if ops != [] {
      StepKeepsValid(s, ops[0]);
      StepKeepsOneShot(s, ops[0], id);
      OneShotFiresAtMostOnce(Step(s, ops[0]), ops[1..], id);
    }
  }

  /** Everything that fired or is about to did so at or after its deadline. */
  predicate NotEarly(s: Sys) {
    (forall k :: 0 <= k < |s.log| ==> s.log[k].deadline <= s.log[k].at <= s.clock)
    && (forall k :: 0 <= k < |s.tasks| ==> s.tasks[k].deadline <= s.tasks[k].at <= s.clock)
  }

  /** No event ever fires before its deadline. */
  lemma {:induction false} NeverEarly(s: Sys, ops: seq<Op>)
    requires Valid(s) && NotEarly(s)
    ensures NotEarly(Run(s, ops))
    decreases |ops|
  {
    if ops != [] {
      StepKeepsValid(s, ops[0]);
      if ops[0].Collect? {
        CollectsExactlyTheDue(Drained(s.timers, ops[0].now), ops[0].now);
      }
      NeverEarly(Step(s, ops[0]), ops[1..]);
    }
  }
}
