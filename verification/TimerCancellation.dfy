/**
 What deleting a timer event achieves, over everything that can happen later.
 It is never collected again. It does not run again exactly when none of its
 callbacks is already collected, and it does not come back into the queue exactly
 when it is not a repeating event of a batch that is being put back.
 */
module TimerCancellation {
  import opened Options
  import opened TimerSpec
  import opened TimerRuns

  predicate Cancelled(s: Sys, id: EventId) {
    id in s.timers.events && s.timers.events[id].cancelled
  }

  /** The condition under which a cancelled event is still put back. */
  predicate ComesBack(s: Sys, id: EventId) {
    s.phase.PuttingBack? && id in s.phase.batch && id in s.timers.events && s.timers.events[id].repeated
  }

  predicate PendingAfter(s: Sys, ops: seq<Op>, id: EventId)
    requires Valid(s)
  {
    IsPending(Run(s, ops).timers, id)
  }

  // ---------- collecting ----------

  /** A cancelled event is never collected again, even when it was put back. */
  lemma {:induction false} CancelledIsNotCollectedAgain(s: Sys, ops: seq<Op>, id: EventId)
    requires Valid(s) && Cancelled(s, id)
    ensures Cancelled(Run(s, ops), id) && Collections(Run(s, ops), id) == Collections(s, id)
    decreases |ops|
  {
    if ops != [] {
      StepKeepsValid(s, ops[0]);
      CollectionsOfStep(s, ops[0], id);
      CancelledIsNotCollectedAgain(Step(s, ops[0]), ops[1..], id);
    }
  }

  lemma StepKeepsTasks(s: Sys, op: Op)
    requires Valid(s)
    ensures var next := Step(s, op); s.log + s.tasks <= next.log + next.tasks && s.log <= next.log
  {
    if op.RunTask? && s.phase.Settled? && s.tasks != [] {
      assert s.log + s.tasks == s.log + [s.tasks[0]] + s.tasks[1..];
    }
  }

  /**
   Callbacks run in the order in which they were collected, and what was collected
   runs: once no task is left, all of them have run, whatever was cancelled meanwhile.
   */
  lemma {:induction false} CollectedRunsAnyway(s: Sys, ops: seq<Op>)
    requires Valid(s)
    ensures var r := Run(s, ops);
      s.log + s.tasks <= r.log + r.tasks && s.log <= r.log && (r.tasks == [] ==> s.log + s.tasks <= r.log)
    decreases |ops|
  {
    if ops != [] {
      StepKeepsValid(s, ops[0]);
      StepKeepsTasks(s, ops[0]);
      CollectedRunsAnyway(Step(s, ops[0]), ops[1..]);
    }
    var r := Run(s, ops);
    assert r.tasks == [] ==> r.log + r.tasks == r.log;
  }

  // ---------- continuations ----------

  /** Whatever the loop thread is doing, it can finish putting back and arming, without running a task. */
  lemma {:induction false} Settling(s: Sys) returns (ops: seq<Op>)
    requires Valid(s)
    ensures var r := Run(s, ops); r.phase.Settled? && r.tasks == s.tasks && r.log == s.log
    decreases if s.phase.Settled? then 0 else 1 + 2 * |s.phase.batch| + (if s.phase.restarted then 0 else 1)
  {
    ops := [];
    if !s.phase.Settled? {
      var op := NextOf(s);
      StepKeepsValid(s, op);
      var rest := Settling(Step(s, op));
      ops := [op] + rest;
      assert ops[1..] == rest;
    }
  }

  /** The next step of `onTimer` behind its locked region. */
  function NextOf(s: Sys): Op
    requires s.phase.PuttingBack?
  {
    if s.phase.batch == [] then Arm(s.clock) else if s.phase.restarted then PutBack(s.clock) else Restart(s.clock)
  }

  /** The tasks at hand can be run one after the other. */
  lemma {:induction false} RunningAll(s: Sys) returns (ops: seq<Op>)
    requires Valid(s) && s.phase.Settled?
    ensures Run(s, ops).log == s.log + s.tasks
    decreases |s.tasks|
  {
    ops := [];
    if s.tasks != [] {
      StepKeepsValid(s, RunTask);
      var rest := RunningAll(Step(s, RunTask));
      ops := [RunTask] + rest;
      assert ops[1..] == rest;
      assert [s.tasks[0]] + s.tasks[1..] == s.tasks;
    }
  }

  /** A repeating event of the batch can be put back, cancelled or not. */
  lemma {:induction false} PuttingItBack(s: Sys, id: EventId) returns (ops: seq<Op>)
    requires Valid(s) && ComesBack(s, id)
    ensures IsPending(Run(s, ops).timers, id)
    decreases |s.phase.batch|, !s.phase.restarted
  {
    var op := NextOf(s);
    StepKeepsValid(s, op);
    var next := Step(s, op);
    if s.phase.restarted {
      AddedFacts(s.timers, s.phase.batch[0], s.clock);
    }
    if IsPending(next.timers, id) {
      ops := [op];
      assert ops[1..] == [] && Run(next, []) == next;
    } else {
      assert s.phase.batch == [s.phase.batch[0]] + s.phase.batch[1..];
      var rest := PuttingItBack(next, id);
      ops := [op] + rest;
      assert ops[1..] == rest;
    }
  }

  // ---------- running ----------

  /** A cancelled event never runs again if and only if none of its callbacks is waiting to run. */
  lemma CancelledRunsNoMore(s: Sys, id: EventId)
    requires Valid(s) && Cancelled(s, id)
    ensures (forall ops :: Count(Run(s, ops).log, id) == Count(s.log, id)) <==> Count(s.tasks, id) == 0
  {
    if Count(s.tasks, id) == 0 {
      forall ops ensures Count(Run(s, ops).log, id) == Count(s.log, id) {
        var r := Run(s, ops);
        CancelledIsNotCollectedAgain(s, ops, id);
        CollectedRunsAnyway(s, ops);
        assert r.log == s.log + r.log[|s.log|..];
        CountOfAppended(s.log, r.log[|s.log|..], id);
      }
    } else {
      var settle := Settling(s);
      var run := RunningAll(Run(s, settle));
      RunOfAppended(s, settle, run);
      CountOfAppended(s.log, s.tasks, id);
      assert Count(Run(s, settle + run).log, id) != Count(s.log, id);
    }
  }

  // ---------- coming back ----------

  /** Cancelled, out of the queue, and not on the way back into it. */
  predicate Gone(s: Sys, id: EventId) {
    Cancelled(s, id) && !IsPending(s.timers, id) && !ComesBack(s, id)
  }

  lemma CollectingKeepsGone(s: Sys, now: int, id: EventId)
    requires Valid(s) && Gone(s, id)
    ensures Gone(StepCollect(s, now), id)
  {
    var t := Drained(s.timers, now);
    var b := Collected(t, now);
    CollectsExactlyTheDue(t, now);
    CollectedFacts(t, now);
    assert IsPending(t, id) <==> IsPending(s.timers, id);
    assert forall k :: 0 <= k < |b.fires| ==> Ids(b.fires)[k] == b.fires[k].id;
    assert !Fires(b.fires, id);
  }

  lemma StepKeepsGone(s: Sys, op: Op, id: EventId)
    requires Valid(s) && Gone(s, id)
    ensures Gone(Step(s, op), id)
  {
    match op
    case New(other, interval, repeated, now) =>
      if now >= s.clock && other !in s.timers.events {
        AddedFacts(Constructed(s.timers, other, interval, repeated, now), other, now);
      }
    case Erase(other) =>
      if other in s.timers.events { EraseKeepsOk(s.timers, other); }
    case Collect(now) => CollectingKeepsGone(s, now, id);
    case PutBack(now) =>
      if now >= s.clock && s.phase.PuttingBack? && s.phase.batch != [] && s.phase.restarted {
        AddedFacts(s.timers, s.phase.batch[0], now);
      }
    case _ =>
  }

  lemma {:induction false} GoneForGood(s: Sys, ops: seq<Op>, id: EventId)
    requires Valid(s) && Gone(s, id)
    ensures Gone(Run(s, ops), id)
    decreases |ops|
  {
    if ops != [] {
      StepKeepsValid(s, ops[0]);
      StepKeepsGone(s, ops[0], id);
      GoneForGood(Step(s, ops[0]), ops[1..], id);
    }
  }

  /**
   An event that is cancelled and out of the queue stays out of it if and only if
   it is not a repeating event of a batch being put back.
   */
  lemma CancelledStaysOut(s: Sys, id: EventId)
    requires Valid(s) && Cancelled(s, id) && !IsPending(s.timers, id)
    ensures (forall ops :: !PendingAfter(s, ops, id)) <==> !ComesBack(s, id)
  {
    if ComesBack(s, id) {
      var ops := PuttingItBack(s, id);
      assert PendingAfter(s, ops, id);
    } else {
      forall ops ensures !PendingAfter(s, ops, id) {
        GoneForGood(s, ops, id);
      }
    }
  }

  // ---------- deleteTimerEvent ----------

  /** What `deleteTimerEvent` leaves. */
  function Deleted(s: Sys, id: EventId): (r: Sys)
    requires Valid(s) && id in s.timers.events
    ensures Valid(r) && Cancelled(r, id) && !IsPending(r.timers, id)
    ensures r.tasks == s.tasks && r.log == s.log && r.phase == s.phase && (ComesBack(r, id) <==> ComesBack(s, id))
    ensures r == Run(s, [Cancel(id), Erase(id)])
  {
    StepKeepsValid(s, Cancel(id));
    var marked := Step(s, Cancel(id));
    StepKeepsValid(marked, Erase(id));
    EraseKeepsOk(marked.timers, id);
    assert [Cancel(id), Erase(id)][1..] == [Erase(id)] && [Erase(id)][1..] == [];
    assert Run(marked, [Erase(id)]) == Run(Step(marked, Erase(id)), []);
    Step(marked, Erase(id))
  }

  /**
   Deleted timer work cannot run or re-arm, in any continuation, if and only if
   at the call no callback of the event is collected and not yet run, and the event
   is not a repeating one that is being put back.
   */
  lemma DeletingStopsTheEvent(s: Sys, id: EventId)
    requires Valid(s) && id in s.timers.events
    ensures (forall ops :: Count(Run(Deleted(s, id), ops).log, id) == Count(s.log, id)) <==> Count(s.tasks, id) == 0
    ensures (forall ops :: !PendingAfter(Deleted(s, id), ops, id)) <==> !ComesBack(s, id)
  {
    CancelledRunsNoMore(Deleted(s, id), id);
    CancelledStaysOut(Deleted(s, id), id);
  }

  /** The failing case: deleted between getting its new deadline and being added, the event is pending again, cancelled. */
  lemma DeletedWhilePutBackIsPending(s: Sys, id: EventId, now: int)
    requires Valid(s) && s.phase.PuttingBack? && s.phase.restarted && s.phase.batch[0] == id && now >= s.clock
    ensures var r := Run(s, [Cancel(id), Erase(id), PutBack(now)]); Cancelled(r, id) && IsPending(r.timers, id)
  {
    var d := Deleted(s, id);
    RunOfAppended(s, [Cancel(id), Erase(id)], [PutBack(now)]);
    assert [Cancel(id), Erase(id)] + [PutBack(now)] == [Cancel(id), Erase(id), PutBack(now)];
    StepKeepsValid(d, PutBack(now));
    assert [PutBack(now)][1..] == [];
    assert Run(d, [PutBack(now)]) == Run(Step(d, PutBack(now)), []);
    AddedFacts(d.timers, id, now);
  }
}
