/**
 What the timerfd is armed for over whole runs, and when events then run: an event
 that is first is collected exactly at its deadline by a loop that wakes when the
 timerfd expires, and no event runs before its interval is over.
 */
module TimerArming {
  import opened Options
  import opened TimerSpec
  import opened TimerRuns

  // ---------- every step ----------

  /** The timerfd once `deadline` has been added to the queue at `now`. */
  function FdWith(t: Timers, deadline: int, now: int): Option<int> {
    if t.pending == [] || t.pending[0].key > deadline then Some(Expiry(deadline, now)) else t.fd
  }

  /**
   The timerfd after a step: nothing but adding a new first event and arming sets it,
   and collecting clears it if it has expired.
   */
  lemma FdOfStep(s: Sys, op: Op)
    requires Valid(s) && Step(s, op) != s
    ensures var t := s.timers;
      Step(s, op).timers.fd ==
        match op
        case New(_, interval, _, now) => FdWith(t, now + interval, now)
        case PutBack(now) => FdWith(t, t.events[s.phase.batch[0]].arrive, now)
        case Arm(now) => if t.pending == [] then t.fd else Some(Expiry(t.pending[0].key, now))
        case Collect(now) => if t.fd.Some? && t.fd.value <= now then None else t.fd
        case _ => t.fd
  {
    match op
    case New(id, interval, repeated, now) => AddedArmsForTheFirst(Constructed(s.timers, id, interval, repeated, now), id, now);
    case PutBack(now) => AddedArmsForTheFirst(s.timers, s.phase.batch[0], now);
    case Arm(now) => ArmedForTheFirst(s.timers, now);
    case _ =>
  }

  // ---------- armed for the first deadline ----------

  /** The timerfd expires no later than the first deadline, if that lay ahead when it was armed, and else 100 ms after. */
  predicate Exact(t: Timers) {
    t.pending != [] ==> t.fd.Some? && t.fd.value <= Expiry(t.pending[0].key, t.rearmed)
  }

  predicate ArmedExactly(s: Sys) {
    s.phase.Settled? ==> Exact(s.timers)
  }

  /** Erasing does not rearm: behind an erased first event, the next one must be served by the expiry as it is. */
  predicate Punctual(s: Sys, op: Op) {
    s.phase.Settled? && op.Erase? && |s.timers.pending| > 1 && s.timers.pending[0].id == op.id ==>
      s.timers.fd.Some? && s.timers.fd.value <= Expiry(s.timers.pending[1].key, s.timers.rearmed)
  }

  lemma ErasingKeepsExact(t: Timers, id: EventId)
    requires Ok(t) && id in t.events && Exact(t)
    ensures Exact(Erased(t, id)) <==>
      !(|t.pending| > 1 && t.pending[0].id == id) || t.fd.value <= Expiry(t.pending[1].key, t.rearmed)
  {
    var n, q := Find(t.pending, t.events[id].arrive, id), Erased(t, id).pending;
    if t.pending != [] && t.pending[0].id == id {
      assert n == 0 && q == t.pending[1..];
    } else if q != [] {
      assert q[0] == t.pending[0];
    }
  }

  /** Of all steps, only the erasing of such a first event disturbs it. */
  lemma StepKeepsExact(s: Sys, op: Op)
    requires Valid(s) && ArmedExactly(s)
    ensures ArmedExactly(Step(s, op)) <==> Punctual(s, op)
  {
    match op
    case New(id, interval, repeated, now) =>
      if now >= s.clock && id !in s.timers.events && s.phase.Settled? {
        AddedArmsForTheFirst(Constructed(s.timers, id, interval, repeated, now), id, now);
      }
    case Erase(id) =>
      if s.phase.Settled? {
        if id in s.timers.events { ErasingKeepsExact(s.timers, id); }
      }
    case Arm(now) => ArmedForTheFirst(s.timers, now);
    case _ =>
  }

  predicate AllPunctual(s: Sys, ops: seq<Op>)
    requires Valid(s)
    decreases |ops|
  {
    ops == [] || (Punctual(s, ops[0]) && (StepKeepsValid(s, ops[0]); AllPunctual(Step(s, ops[0]), ops[1..])))
  }

  /**
   In every such run, whenever events are pending outside `onTimer`, the timerfd
   expires by the first deadline, or 100 ms after it was armed if that had passed.
   */
  lemma {:induction false} TimerfdIsArmedExactly(s: Sys, ops: seq<Op>)
    requires Valid(s) && ArmedExactly(s) && AllPunctual(s, ops)
    ensures ArmedExactly(Run(s, ops))
    decreases |ops|
  {
    if ops != [] {
      StepKeepsValid(s, ops[0]);
      StepKeepsExact(s, ops[0]);
      TimerfdIsArmedExactly(Step(s, ops[0]), ops[1..]);
    }
  }

  /** The failing case: behind an erased first event that was overdue, the next one may be up to 100 ms late. */
  lemma ErasedOverdueLeavesLate(t: Timers, late: EventId, next: EventId)
    requires Ok(t) && |t.pending| == 2 && t.pending[0].id == late && t.pending[1].id == next
    requires t.pending[0].key <= t.rearmed < t.pending[1].key < t.rearmed + 100 && t.fd == Some(t.rearmed + 100)
    ensures Exact(t) && !Exact(Erased(t, late)) && Erased(t, late).pending[0].id == next
  {
    var q := Erased(t, late).pending;
    assert q == [t.pending[1]];
  }

  // ---------- on time ----------

  /** `id` is the first pending event, uncancelled, and the timerfd expires exactly at its deadline `k`. */
  predicate Awaits(s: Sys, id: EventId, k: int) {
    && s.clock <= k && s.timers.pending != [] && s.timers.pending[0].id == id && s.timers.pending[0].key == k
    && s.timers.fd == Some(k) && id in s.timers.events && !s.timers.events[id].cancelled
  }

  /** Arming while the first deadline lies ahead, or adding a first event that does. */
  lemma ArmingAwaits(s: Sys, now: int)
    requires Valid(s) && s.phase == PuttingBack([], false) && now >= s.clock && s.timers.pending != []
    requires s.timers.pending[0].key > now && !s.timers.events[s.timers.pending[0].id].cancelled
    ensures Awaits(Step(s, Arm(now)), s.timers.pending[0].id, s.timers.pending[0].key)
  {
    ArmedForTheFirst(s.timers, now);
  }

  /** A new event is as asked for: due one interval after its construction, and not cancelled. */
  lemma NewIsAsAskedFor(s: Sys, id: EventId, interval: int, repeated: bool, now: int)
    requires Valid(s) && now >= s.clock && id !in s.timers.events
    ensures var r := Step(s, New(id, interval, repeated, now));
      && r.timers.events == s.timers.events[id := Event(now + interval, interval, repeated, false)]
      && (forall other :: IsPending(r.timers, other) <==> other == id || IsPending(s.timers, other))
  {
    AddedFacts(Constructed(s.timers, id, interval, repeated, now), id, now);
  }

  lemma AddingAwaits(s: Sys, id: EventId, interval: int, repeated: bool, now: int)
    requires Valid(s) && now >= s.clock && id !in s.timers.events && interval > 0
    requires s.timers.pending == [] || s.timers.pending[0].key > now + interval
    ensures Awaits(Step(s, New(id, interval, repeated, now)), id, now + interval)
  {
    AddedArmsForTheFirst(Constructed(s.timers, id, interval, repeated, now), id, now);
  }

  /** What happens on the loop and elsewhere before `k`: tasks run, later events are added, others are cancelled and erased. */
  predicate Meanwhile(op: Op, id: EventId, k: int) {
    match op
    case New(_, interval, _, now) => now <= k <= now + interval
    case Cancel(other) => other != id
    case Erase(other) => other != id
    case RunTask => true
    case _ => false
  }

  lemma StepKeepsAwaiting(s: Sys, op: Op, id: EventId, k: int)
    requires Valid(s) && Awaits(s, id, k) && Meanwhile(op, id, k)
    ensures Awaits(Step(s, op), id, k)
  {
    match op
    case New(other, interval, repeated, now) =>
      if now >= s.clock && other !in s.timers.events {
        AddedArmsForTheFirst(Constructed(s.timers, other, interval, repeated, now), other, now);
      }
    case Erase(other) =>
      if other in s.timers.events {
        var n := Find(s.timers.pending, s.timers.events[other].arrive, other);
        assert n < |s.timers.pending| ==> n > 0;
      }
    case _ =>
  }

  lemma {:induction false} RunKeepsAwaiting(s: Sys, ops: seq<Op>, id: EventId, k: int)
    requires Valid(s) && Awaits(s, id, k) && forall i :: 0 <= i < |ops| ==> Meanwhile(ops[i], id, k)
    ensures Awaits(Run(s, ops), id, k)
    decreases |ops|
  {
    if ops != [] {
      StepKeepsValid(s, ops[0]);
      StepKeepsAwaiting(s, ops[0], id, k);
      RunKeepsAwaiting(Step(s, ops[0]), ops[1..], id, k);
    }
  }

  /**
   On time: once the timerfd is armed for the first event, and whatever is added for
   later, cancelled or run meanwhile, collecting when the timerfd expires hands out
   that event, with its deadline and exactly then.
   */
  lemma FiresExactlyAtItsDeadline(s: Sys, ops: seq<Op>, id: EventId, k: int)
    requires Valid(s) && Awaits(s, id, k) && forall i :: 0 <= i < |ops| ==> Meanwhile(ops[i], id, k)
    ensures var b := Run(s, ops);
      && b.timers.fd == Some(k)
      && (b.phase.Settled? && b.tasks == [] ==> Fire(id, k, k) in Step(b, Collect(b.timers.fd.value)).tasks)
  {
    RunKeepsAwaiting(s, ops, id, k);
    var b := Run(s, ops);
    if b.phase.Settled? && b.tasks == [] {
      CollectingTheFirst(Drained(b.timers, k), id, k);
    }
  }

  lemma CollectingTheFirst(t: Timers, id: EventId, k: int)
    requires Ok(t) && t.pending != [] && t.pending[0].id == id && t.pending[0].key == k
    requires id in t.events && !t.events[id].cancelled
    ensures Fire(id, k, k) in Collected(t, k).fires
  {
    CollectsExactlyTheDue(t, k);
    assert Due(t, id, k);
    var fires := Collected(t, k).fires;
    assert Fires(fires, id);
    var i :| 0 <= i < |fires| && fires[i].id == id;
    assert fires[i] == Fire(id, k, k);
  }

  // ---------- not before the interval is over ----------

  /** `id` was made with `interval` at `made`, and neither waits for nor ran with an earlier deadline than that allows. */
  predicate NotBefore(s: Sys, id: EventId, made: int, interval: int) {
    && s.clock >= made && id in s.timers.events && s.timers.events[id].interval == interval
    && s.timers.events[id].arrive >= made + interval
    && (forall k :: 0 <= k < |s.log| && s.log[k].id == id ==> s.log[k].deadline >= made + interval)
    && (forall k :: 0 <= k < |s.tasks| && s.tasks[k].id == id ==> s.tasks[k].deadline >= made + interval)
  }

  lemma StepKeepsNotBefore(s: Sys, op: Op, id: EventId, made: int, interval: int)
    requires Valid(s) && NotBefore(s, id, made, interval)
    ensures NotBefore(Step(s, op), id, made, interval)
  {
    match op
    case New(other, i, repeated, now) =>
      if now >= s.clock && other !in s.timers.events {
        AddedFacts(Constructed(s.timers, other, i, repeated, now), other, now);
      }
    case Collect(now) =>
      if now >= s.clock && s.phase.Settled? && s.tasks == [] { CollectsExactlyTheDue(Drained(s.timers, now), now); }
    case PutBack(now) =>
      if now >= s.clock && s.phase.PuttingBack? && s.phase.batch != [] && s.phase.restarted {
        AddedFacts(s.timers, s.phase.batch[0], now);
      }
    case _ =>
  }

  lemma {:induction false} RunKeepsNotBefore(s: Sys, ops: seq<Op>, id: EventId, made: int, interval: int)
    requires Valid(s) && NotBefore(s, id, made, interval)
    ensures NotBefore(Run(s, ops), id, made, interval)
    decreases |ops|
  {
    if ops != [] {
      StepKeepsValid(s, ops[0]);
      StepKeepsNotBefore(s, ops[0], id, made, interval);
      RunKeepsNotBefore(Step(s, ops[0]), ops[1..], id, made, interval);
    }
  }

  /**
   In every run, an event constructed at `made` with `interval` runs no earlier than
   `made + interval`, the first time or any later one.
   */
  lemma RunsAfterItsInterval(s: Sys, id: EventId, interval: int, repeated: bool, made: int, ops: seq<Op>)
    requires Valid(s) && NotEarly(s) && made >= s.clock && id !in s.timers.events && Count(s.log, id) + Count(s.tasks, id) == 0
    ensures var r := Run(s, [New(id, interval, repeated, made)] + ops);
      forall k :: 0 <= k < |r.log| && r.log[k].id == id ==> r.log[k].at >= r.log[k].deadline >= made + interval
  {
    var op := New(id, interval, repeated, made);
    StepKeepsValid(s, op);
    AddedFacts(Constructed(s.timers, id, interval, repeated, made), id, made);
    NeverRun(s.log, id);
    NeverRun(s.tasks, id);
    RunKeepsNotBefore(Step(s, op), ops, id, made, interval);
    NeverEarly(s, [op] + ops);
    assert ([op] + ops)[1..] == ops;
  }

  lemma {:induction false} NeverRun(f: seq<Fire>, id: EventId)
    requires Count(f, id) == 0
    ensures forall k :: 0 <= k < |f| ==> f[k].id != id
  {
    if f != [] {
      NeverRun(f[1..], id);
      assert forall k :: 1 <= k < |f| ==> f[k] == f[1..][k - 1];
    }
  }
}
