/** The timer object. Left alone, its `onTimer` is the collecting, putting back and arming of the interleaved runs. */
module TimerQueue {
  import opened Options
  import opened TimerSpec
  import opened TimerRuns

  /** The repeating events of a batch get a new deadline and go back into the queue; readings `k`, `k + 1`, ... of the clock. */
  function PutAllBack(t: Timers, ids: seq<EventId>, clock: nat -> int, k: nat): (r: Timers)
    requires Ready(t, ids)
    ensures Ok(r)
    decreases |ids|
  {
    if ids == [] then t
    else
      PuttingOneBack(t, ids, clock, k);
      PutAllBack(OneBack(t, ids[0], clock, k), ids[1..], clock, k + 2)
  }

  predicate Ready(t: Timers, ids: seq<EventId>) {
    Ok(t) && DistinctIds(ids) && forall i :: 0 <= i < |ids| ==> ids[i] in t.events && !IsPending(t, ids[i])
  }

  function OneBack(t: Timers, id: EventId, clock: nat -> int, k: nat): Timers
    requires Ok(t) && id in t.events && !IsPending(t, id)
  {
    if t.events[id].repeated then Added(Restarted(t, id, clock(k)), id, clock(k + 1)) else t
  }

  lemma PuttingOneBack(t: Timers, ids: seq<EventId>, clock: nat -> int, k: nat)
    requires Ready(t, ids) && ids != []
    ensures Ready(OneBack(t, ids[0], clock, k), ids[1..])
  {
    if t.events[ids[0]].repeated {
      AddedFacts(Restarted(t, ids[0], clock(k)), ids[0], clock(k + 1));
    }
  }

  /** `onTimer` with nothing in between: the queue it leaves and the callbacks it runs. */
  function Undisturbed(t: Timers, clock: nat -> int): Batch
    requires Ok(t)
  {
    CollectedFacts(Drained(t, clock(0)), clock(0));
    var b := Collected(Drained(t, clock(0)), clock(0));
    Batch(Armed(PutAllBack(b.timers, Ids(b.fires), clock, 1), clock(1 + 2 * |b.fires|)), b.fires)
  }

  class Timer {
    var pending: seq<Entry>
    var events: map<EventId, Event>
    var fd: Option<int>
    var rearmed: int
    var inserted: nat

    ghost function View(): Timers
      reads this
    {
      Timers(pending, events, fd, rearmed, inserted)
    }

    constructor (now: int)
      ensures View() == Timers([], map[], None, now, 0)
    {
      pending, events, fd, rearmed, inserted := [], map[], None, now, 0;
    }

    /** Arm the timerfd for the first pending event. */
    method ResetArriveTime(now: int)
      requires Keyed(View())
      modifies this
      ensures View() == Armed(old(View()), now)
      ensures old(pending) == [] ==> fd == old(fd)
      ensures old(pending) != [] ==> fd == Some(if pending[0].key > now then pending[0].key else now + 100) && rearmed == now
    {
      if pending == [] {
        return;
      }
      var arrive := events[pending[0].id].arrive;
      var interval := if arrive > now then arrive - now else MIN_DELAY;
      SplitIsExact(interval);
      var ts := Split(interval);
      fd := Some(now + ts.sec * 1000 + ts.nsec / 1000000);
      rearmed := now;
    }

    method AddTimerEvent(id: EventId, now: int)
      requires Ok(View()) && id in events && !IsPending(View(), id)
      modifies this
      ensures View() == Added(old(View()), id, now)
      ensures old(pending) == [] || old(pending)[0].key > events[id].arrive ==>
        fd == Some(if events[id].arrive > now then events[id].arrive else now + 100)
      ensures old(pending) != [] && old(pending)[0].key <= events[id].arrive ==> fd == old(fd)
    {
      AddedArmsForTheFirst(View(), id, now);
      var reset := pending == [] || events[pending[0].id].arrive > events[id].arrive;
      Emplace(Entry(events[id].arrive, inserted, id));
      if reset {
        ResetArriveTime(now);
      }
    }

    /** multimap::emplace: behind the entries with the same key. */
    method Emplace(e: Entry)
      requires Ok(View()) && e.id in events && e.key == events[e.id].arrive && e.stamp == inserted && !IsPending(View(), e.id)
      modifies this
      ensures View() == old(View()).(pending := Insert(old(pending), e), inserted := old(inserted) + 1) && Ok(View())
    {
      InsertKeepsOk(View(), e);
      var n := PositionFor(pending, e.key);
      pending := pending[..n] + [e] + pending[n..];
      inserted := inserted + 1;
    }

    /** Flag the event and take it out of the queue if it is there. */
    method DeleteTimerEvent(id: EventId)
      requires Ok(View()) && id in events
      modifies this
      ensures View() == Erased(WithCancelled(old(View()), id), id)
    {
      events := events[id := events[id].(cancelled := true)];
      var key := events[id].arrive;
      var n := 0;
      while n < |pending| && !(pending[n].key == key && pending[n].id == id)
        invariant n <= |pending| && Find(pending, key, id) == n + Find(pending[n..], key, id)
      {
        assert pending[n..][1..] == pending[n + 1..];
        n := n + 1;
      }
      if n < |pending| {
        pending := pending[..n] + pending[n + 1..];
      }
    }

    /** Returns the callbacks to run, in order; `clock` gives the successive readings of the clock. */
    method OnTimer(clock: nat -> int) returns (tasks: seq<Fire>)
      requires Ok(View())
      modifies this
      ensures Batch(View(), tasks) == Undisturbed(old(View()), clock)
    {
      tasks := TakeDue(clock(0));
      PutBack(Ids(tasks), clock);
      ghost var t := View();
      ResetArriveTime(clock(1 + 2 * |tasks|));
      assert View() == Armed(t, clock(1 + 2 * |tasks|));
    }

    /** Read the timerfd and take what is due off the queue. */
    method TakeDue(now: int) returns (tasks: seq<Fire>)
      requires Ok(View())
      modifies this
      ensures Batch(View(), tasks) == Collected(Drained(old(View()), now), now) && Ready(View(), Ids(tasks))
    {
      ghost var t := Drained(View(), now);
      if fd.Some? && fd.value <= now {
        fd := None;
      }
      assert View() == t;
      CollectedFacts(t, now);
      tasks := Collect(now);
      BatchIsReady(Batch(View(), tasks));
    }

    /** The locked region: walk the queue until the first entry that is not due, and erase what was walked over. */
    method Collect(now: int) returns (tasks: seq<Fire>)
      requires Ok(View())
      modifies this
      ensures Batch(View(), tasks) == Collected(old(View()), now)
    {
      var n: nat;
      n, tasks := DueOf(pending, events, now, View());
      pending := pending[n..];
    }

    /** Put the repeating events of a batch back, one after the other. */
    method PutBack(ids: seq<EventId>, clock: nat -> int)
      requires Ready(View(), ids)
      modifies this
      ensures View() == PutAllBack(old(View()), ids, clock, 1)
    {
      ghost var whole := PutAllBack(View(), ids, clock, 1);
      var k := 1;
      var todo := ids;
      while todo != []
        invariant Ready(View(), todo) && k == 1 + 2 * (|ids| - |todo|)
        invariant whole == PutAllBack(View(), todo, clock, k)
        decreases |todo|
      {
        ghost var t := View();
        PuttingOneBack(t, todo, clock, k);
        PutOneBack(todo[0], clock, k);
        assert PutAllBack(t, todo, clock, k) == PutAllBack(View(), todo[1..], clock, k + 2);
        todo, k := todo[1..], k + 2;
      }
    }

    method PutOneBack(id: EventId, clock: nat -> int, k: nat)
      requires Ok(View()) && id in events && !IsPending(View(), id)
      modifies this
      ensures View() == OneBack(old(View()), id, clock, k)
    {
      if events[id].repeated {
        ghost var t := Restarted(View(), id, clock(k));
        events := events[id := events[id].(arrive := clock(k) + events[id].interval)];
        assert View() == t;
        AddTimerEvent(id, clock(k + 1));
      }
    }
  }

  lemma BatchIsReady(b: Batch)
    requires Ok(b.timers) && DistinctIds(Ids(b.fires))
    requires forall k :: 0 <= k < |b.fires| ==> b.fires[k].id in b.timers.events && !IsPending(b.timers, b.fires[k].id)
    ensures Ready(b.timers, Ids(b.fires))
  {
  }

  /** Walk over all entries with a key up to `key`. */
  method PositionFor(queue: seq<Entry>, key: int) returns (n: nat)
    ensures n == UpperBound(queue, key)
  {
    n := 0;
    while n < |queue| && queue[n].key <= key
      invariant n <= |queue| && UpperBound(queue, key) == n + UpperBound(queue[n..], key)
    {
      UpperBoundOfRest(queue, n, key);
      n := n + 1;
    }
  }

  /** How many entries at the front of the queue are due, and which of them are to be run. */
  method DueOf(queue: seq<Entry>, events: map<EventId, Event>, now: int, ghost t: Timers) returns (n: nat, tasks: seq<Fire>)
    requires Keyed(t) && t.pending == queue && t.events == events
    ensures n == UpperBound(queue, now) && tasks == Uncancelled(t, queue[..n], now)
  {
    tasks := [];
    n := 0;
    while n < |queue| && queue[n].key <= now
      invariant n <= |queue| && UpperBound(queue, now) == n + UpperBound(queue[n..], now)
      invariant tasks == Uncancelled(t, queue[..n], now)
    {
      UpperBoundOfRest(queue, n, now);
      UncancelledOfOneMore(t, queue, n, now);
      tasks := tasks + TaskOf(queue[n].id, events[queue[n].id], now);
      n := n + 1;
    }
  }

  /** The task of a due event, unless it is cancelled. */
  function TaskOf(id: EventId, e: Event, now: int): seq<Fire> {
    if e.cancelled then [] else [Fire(id, e.arrive, now)]
  }

  lemma UpperBoundOfRest(p: seq<Entry>, n: nat, key: int)
    requires n < |p| && p[n].key <= key
    ensures UpperBound(p[n..], key) == 1 + UpperBound(p[n + 1..], key)
  {
    assert p[n..][1..] == p[n + 1..];
  }

  lemma {:induction false} UncancelledOfAppended(t: Timers, p: seq<Entry>, q: seq<Entry>, now: int)
    requires forall i :: 0 <= i < |p| ==> p[i].id in t.events
    requires forall i :: 0 <= i < |q| ==> q[i].id in t.events
    ensures Uncancelled(t, p + q, now) == Uncancelled(t, p, now) + Uncancelled(t, q, now)
  {
    if p == [] {
      assert p + q == q;
    } else {
      assert (p + q)[1..] == p[1..] + q;
      UncancelledOfAppended(t, p[1..], q, now);
    }
  }

  lemma UncancelledOfOneMore(t: Timers, p: seq<Entry>, n: nat, now: int)
    requires n < |p| && forall i :: 0 <= i < |p| ==> p[i].id in t.events
    ensures Uncancelled(t, p[..n + 1], now) == Uncancelled(t, p[..n], now) + TaskOf(p[n].id, t.events[p[n].id], now)
  {
    assert p[..n + 1] == p[..n] + [p[n]];
    UncancelledOfAppended(t, p[..n], [p[n]], now);
    assert [p[n]][1..] == [];
  }

  // ---------- what one undisturbed onTimer does ----------

  lemma OneBackFacts(t: Timers, id: EventId, clock: nat -> int, k: nat)
    requires Ok(t) && id in t.events && !IsPending(t, id)
    ensures var r := OneBack(t, id, clock, k);
      && (forall other :: other in t.events && other != id ==>
            other in r.events && r.events[other] == t.events[other] && (IsPending(r, other) <==> IsPending(t, other)))
      && id in r.events
      && (t.events[id].repeated ==> IsPending(r, id) && r.events[id] == t.events[id].(arrive := clock(k) + t.events[id].interval))
      && (!t.events[id].repeated ==> r == t)
  {
    if t.events[id].repeated {
      AddedFacts(Restarted(t, id, clock(k)), id, clock(k + 1));
    }
  }

  /** Events outside the batch are not touched. */
  lemma {:induction false} OthersStay(t: Timers, ids: seq<EventId>, clock: nat -> int, k: nat, id: EventId)
    requires Ready(t, ids) && id in t.events && id !in ids
    ensures var r := PutAllBack(t, ids, clock, k);
      id in r.events && r.events[id] == t.events[id] && (IsPending(r, id) <==> IsPending(t, id))
    decreases |ids|
  {
    if ids != [] {
      OneBackFacts(t, ids[0], clock, k);
      PuttingOneBack(t, ids, clock, k);
      OthersStay(OneBack(t, ids[0], clock, k), ids[1..], clock, k + 2, id);
    }
  }

  /** `id` is pending, one interval from `now` on, if `e` repeats; otherwise it is not, and is still `e`. */
  predicate Back(r: Timers, id: EventId, e: Event, now: int) {
    && id in r.events
    && (e.repeated ==> IsPending(r, id) && r.events[id] == e.(arrive := now + e.interval))
    && (!e.repeated ==> !IsPending(r, id) && r.events[id] == e)
  }

  lemma FirstComesBack(t: Timers, ids: seq<EventId>, clock: nat -> int, k: nat)
    requires Ready(t, ids) && ids != []
    ensures Back(PutAllBack(t, ids, clock, k), ids[0], t.events[ids[0]], clock(k))
  {
    OneBackFacts(t, ids[0], clock, k);
    PuttingOneBack(t, ids, clock, k);
    OthersStay(OneBack(t, ids[0], clock, k), ids[1..], clock, k + 2, ids[0]);
  }

  /**
   Each repeating event of a batch is put back, pending with a deadline one
   interval after its reading of the clock; a one-shot event is not.
   */
  lemma {:induction false} RepeatingEventsComeBack(t: Timers, ids: seq<EventId>, clock: nat -> int, k: nat, i: nat)
    requires Ready(t, ids) && i < |ids|
    ensures Back(PutAllBack(t, ids, clock, k), ids[i], t.events[ids[i]], clock(k + 2 * i))
    decreases |ids|
  {
    if i == 0 {
      FirstComesBack(t, ids, clock, k);
    } else {
      OneBackLeaves(t, ids, clock, k, i);
      RepeatingEventsComeBack(OneBack(t, ids[0], clock, k), ids[1..], clock, k + 2, i - 1);
    }
  }

  lemma OneBackLeaves(t: Timers, ids: seq<EventId>, clock: nat -> int, k: nat, i: nat)
    requires Ready(t, ids) && 0 < i < |ids|
    ensures var t1 := OneBack(t, ids[0], clock, k);
      Ready(t1, ids[1..]) && ids[1..][i - 1] == ids[i] && t1.events[ids[i]] == t.events[ids[i]]
  {
    OneBackFacts(t, ids[0], clock, k);
    PuttingOneBack(t, ids, clock, k);
  }

  // ---------- the undisturbed onTimer is one of the interleavings ----------

  /** The steps that put a batch back, with the readings the undisturbed `onTimer` makes. */
  function Steps(ids: seq<EventId>, clock: nat -> int, k: nat): seq<Op>
    decreases |ids|
  {
    if ids == [] then [] else [Restart(clock(k)), PutBack(clock(k + 1))] + Steps(ids[1..], clock, k + 2)
  }

  ghost predicate Monotone(clock: nat -> int) {
    forall i: nat, j: nat :: i <= j ==> clock(i) <= clock(j)
  }

  /** Restarting and putting back the first event of a batch, one-shot or repeating. */
  lemma TwoSteps(s: Sys, clock: nat -> int, k: nat)
    requires Valid(s) && Monotone(clock) && s.clock <= clock(k)
    requires s.phase.PuttingBack? && s.phase.batch != [] && !s.phase.restarted
    ensures var r := Run(s, [Restart(clock(k)), PutBack(clock(k + 1))]);
      && r.timers == OneBack(s.timers, s.phase.batch[0], clock, k)
      && r.phase == PuttingBack(s.phase.batch[1..], false)
      && r.clock <= clock(k + 2) && r.tasks == s.tasks && r.log == s.log
  {
    var ops := [Restart(clock(k)), PutBack(clock(k + 1))];
    var s1 := Step(s, ops[0]);
    StepKeepsValid(s, ops[0]);
    assert clock(k) <= clock(k + 1) <= clock(k + 2);
    StepKeepsValid(s1, ops[1]);
    assert ops[1..] == [ops[1]] && [ops[1]][1..] == [];
    assert Run(s, ops) == Run(s1, ops[1..]);
    assert Run(s1, ops[1..]) == Step(s1, ops[1]);
  }

  lemma {:induction false} PuttingBackSteps(s: Sys, clock: nat -> int, k: nat)
    requires Valid(s) && Monotone(clock) && s.clock <= clock(k)
    requires s.phase.PuttingBack? && !s.phase.restarted
    ensures Ready(s.timers, s.phase.batch)
    ensures var r := Run(s, Steps(s.phase.batch, clock, k));
      && r.timers == PutAllBack(s.timers, s.phase.batch, clock, k)
      && r.phase == PuttingBack([], false)
      && r.clock <= clock(k + 2 * |s.phase.batch|) && r.tasks == s.tasks && r.log == s.log
    decreases |s.phase.batch|
  {
    var ids := s.phase.batch;
    if ids != [] {
      TwoSteps(s, clock, k);
      var two := [Restart(clock(k)), PutBack(clock(k + 1))];
      RunOfAppended(s, two, Steps(ids[1..], clock, k + 2));
      PuttingBackSteps(Run(s, two), clock, k + 2);
    }
  }

  /**
   An undisturbed `onTimer` is one of the interleavings: what the runs guarantee
   holds for the object.
   */
  lemma UndisturbedIsARun(s: Sys, clock: nat -> int)
    requires Valid(s) && Monotone(clock) && s.clock <= clock(0) && s.phase.Settled? && s.tasks == []
    ensures var b := Undisturbed(s.timers, clock);
      var r := Run(s, [Collect(clock(0))] + Steps(Ids(b.fires), clock, 1) + [Arm(clock(1 + 2 * |b.fires|))]);
      r.timers == b.timers && r.tasks == b.fires && r.log == s.log && r.phase == Settled
  {
    var b := Undisturbed(s.timers, clock);
    var steps, arm := Steps(Ids(b.fires), clock, 1), [Arm(clock(1 + 2 * |b.fires|))];
    var s1 := Step(s, Collect(clock(0)));
    StepKeepsValid(s, Collect(clock(0)));
    assert clock(0) <= clock(1);
    PuttingBackSteps(s1, clock, 1);
    var s2 := Run(s1, steps);
    RunOfAppended(s, [Collect(clock(0))], steps);
    assert [Collect(clock(0))][1..] == [];
    assert Run(s, [Collect(clock(0))]) == s1;
    RunOfAppended(s, [Collect(clock(0))] + steps, arm);
    StepKeepsValid(s2, arm[0]);
    assert arm[1..] == [];
    assert Run(s2, arm) == Step(s2, arm[0]);
  }
}
