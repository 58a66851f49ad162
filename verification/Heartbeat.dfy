/** Heartbeats against the TTL of the service center: how often they are sent, and why that keeps a service visible. */
module Heartbeat {
  import opened Options
  import opened RegistrySpec
  import opened RegistryHistory

  const DEFAULT_SERVICE_TTL_MS: int := 10000
  const MIN_HEARTBEAT_INTERVAL_MS: int := 100

  /** The configured TTL, if it is there and positive, else the default: never zero or negative. */
  function ServiceTTL(configured: Option<int>): (ttl: int)
    ensures ttl > 0
    ensures configured == Some(ttl) || (ttl == 10000 && (configured.Some? ==> configured.value <= 0))
  {
    if configured.Some? && configured.value > 0 then configured.value else DEFAULT_SERVICE_TTL_MS
  }

  /** Half the TTL, but not more often than every 100 ms. */
  function Interval(ttl: int): int
    requires ttl > 0
  {
    if ttl / 2 > MIN_HEARTBEAT_INTERVAL_MS then ttl / 2 else MIN_HEARTBEAT_INTERVAL_MS
  }

  /** The commands that reach the center, in the order of their arrival. */
  predicate InOrder(clock: int, input: seq<Timed>) {
    forall i :: 0 <= i < |input| ==> TimeBefore(clock, input, i) <= input[i].now
  }

  /** The reading of the clock before request `i`. */
  function TimeBefore(clock: int, input: seq<Timed>, i: nat): int
    requires i <= |input|
  {
    if i == 0 then clock else input[i - 1].now
  }

  function CommandOf(t: Timed): Command {
    if t.request.Query? || t.request.raw == "" then Unknown else ParseCommand(Received(t.request.raw))
  }

  /** From request `first` on, nobody deletes `name`, or registers it somewhere else. */
  predicate Undisturbed(input: seq<Timed>, first: nat, name: string, addr: string) {
    forall i :: first <= i < |input| ==> Harmless(CommandOf(input[i]), name, addr)
  }

  predicate Harmless(c: Command, name: string, addr: string) {
    match c
    case Put(_, n, a) => n == name ==> a == addr
    case Modify(n, a) => n == name ==> a == addr
    case Delete(n) => n != name
    case _ => true
  }

  // ---------- the history of a run ----------

  lemma {:induction false} RunOfAppended(s: Center, ttl: int, input: seq<Timed>, more: seq<Timed>)
    ensures Run(s, ttl, input + more) == Run(Run(s, ttl, input), ttl, more)
    decreases |input|
  {
    if input == [] {
      assert input + more == more;
    } else {
      assert (input + more)[1..] == input[1..] + more;
      RunOfAppended(Step(s, ttl, input[0].request, input[0].now), ttl, input[1..], more);
    }
  }

  lemma {:induction false} HistoryGrows(s: Center, ttl: int, input: seq<Timed>)
    ensures s.history <= Run(s, ttl, input).history
    decreases |input|
  {
    if input != [] {
      HistoryGrows(Step(s, ttl, input[0].request, input[0].now), ttl, input[1..]);
    }
  }

  /** `e` records that `t` was handled at its time, on some services. */
  ghost predicate IsRecord(e: Record, t: Timed, ttl: int) {
    e.request == t.request && e.now == t.now && exists m :: e.reply == Handle(m, ttl, t.request, t.now).reply
  }

  /** `s` has handled the requests, each at its time. */
  ghost predicate Handled(s: Center, ttl: int, input: seq<Timed>, time: int) {
    s.clock == time && |s.history| == |input| && forall i :: 0 <= i < |input| ==> IsRecord(s.history[i], input[i], ttl)
  }

  lemma OneMoreHandled(s: Center, ttl: int, input: seq<Timed>, time: int, t: Timed)
    requires Handled(s, ttl, input, time) && t.now >= time
    ensures Handled(Step(s, ttl, t.request, t.now), ttl, input + [t], t.now)
  {
    var e := Record(t.request, t.now, Handle(s.services, ttl, t.request, t.now).reply);
    assert IsRecord(e, t, ttl);
    assert Step(s, ttl, t.request, t.now).history == s.history + [e];
  }

  lemma InOrderRest(time: int, input: seq<Timed>)
    requires InOrder(time, input) && input != []
    ensures time <= input[0].now && InOrder(input[0].now, input[1..])
    ensures TimeBefore(input[0].now, input[1..], |input| - 1) == TimeBefore(time, input, |input|)
  {
    assert TimeBefore(time, input, 0) <= input[0].now;
    forall i | 0 <= i < |input| - 1 ensures TimeBefore(input[0].now, input[1..], i) <= input[1..][i].now {
      assert TimeBefore(time, input, i + 1) <= input[i + 1].now;
    }
  }

  lemma InOrderPrefix(clock: int, input: seq<Timed>, n: nat)
    requires InOrder(clock, input) && n <= |input|
    ensures InOrder(clock, input[..n]) && TimeBefore(clock, input[..n], n) == TimeBefore(clock, input, n)
  {
    forall i | 0 <= i < n ensures TimeBefore(clock, input[..n], i) <= input[..n][i].now {
      assert TimeBefore(clock, input, i) <= input[i].now;
    }
  }

  /** With arrivals in order, every request is handled at its time. */
  lemma {:induction false} HandlingAll(s: Center, ttl: int, sofar: seq<Timed>, time: int, input: seq<Timed>)
    requires Handled(s, ttl, sofar, time) && InOrder(time, input)
    ensures Handled(Run(s, ttl, input), ttl, sofar + input, TimeBefore(time, input, |input|))
    decreases |input|
  {
    if input == [] {
      assert sofar + input == sofar;
    } else {
      var t := input[0];
      InOrderRest(time, input);
      OneMoreHandled(s, ttl, sofar, time, t);
      HandlingAll(Step(s, ttl, t.request, t.now), ttl, sofar + [t], t.now, input[1..]);
      assert sofar + [t] + input[1..] == sofar + input;
    }
  }

  lemma HistoryFollowsInput(clock: int, ttl: int, input: seq<Timed>, n: nat)
    requires InOrder(clock, input) && n <= |input|
    ensures Handled(Run(Empty(clock), ttl, input[..n]), ttl, input[..n], TimeBefore(clock, input, n))
  {
    InOrderPrefix(clock, input, n);
    HandlingAll(Empty(clock), ttl, [], clock, input[..n]);
    assert [] + input[..n] == input[..n];
  }

  /** The history of the first requests is the beginning of the whole history. */
  lemma HistoryOfPrefix(clock: int, ttl: int, input: seq<Timed>, n: nat)
    requires InOrder(clock, input) && n <= |input|
    ensures |History(clock, ttl, input)| == |input| && History(clock, ttl, input[..n]) == History(clock, ttl, input)[..n]
  {
    HistoryFollowsInput(clock, ttl, input, n);
    HistoryFollowsInput(clock, ttl, input, |input|);
    assert input[..|input|] == input && input == input[..n] + input[n..];
    RunOfAppended(Empty(clock), ttl, input[..n], input[n..]);
    HistoryGrows(Run(Empty(clock), ttl, input[..n]), ttl, input[n..]);
  }

  function History(clock: int, ttl: int, input: seq<Timed>): seq<Record> {
    Run(Empty(clock), ttl, input).history
  }

  // ---------- registrations ----------

  /** `h[last]` is the latest that was done to `name`, and registered it. */
  predicate RegisteredLast(h: seq<Record>, name: string, last: nat) {
    last < |h| && MarkOf(h[last], name).Registered? && forall k :: last < k < |h| ==> MarkOf(h[k], name) == Nothing
  }

  /** The latest registration is the last one marked. */
  lemma {:induction false} LatestIsTheLastMark(marks: seq<Mark>, i: nat, node: Node)
    requires i < |marks| && marks[i] == Registered(node)
    requires forall k :: i < k < |marks| ==> marks[k] == Nothing
    ensures LatestMark(marks) == Some(node)
  {
    if i < |marks| - 1 {
      LatestIsTheLastMark(marks[..|marks| - 1], i, node);
    }
  }

  /** Which requests registered `name` at `addr`: an add, a heartbeat, or a modify that found it. */
  function Registrations(clock: int, ttl: int, input: seq<Timed>, name: string, addr: string): (m: seq<bool>)
    ensures |m| == |input|
  {
    var h := History(clock, ttl, input);
    seq(|input|, i requires 0 <= i < |input| => i < |h| && MarkOf(h[i], name) == Registered(Node(addr, h[i].now)))
  }

  /** An add or a heartbeat always registers. */
  lemma PutsRegister(clock: int, ttl: int, input: seq<Timed>, i: nat)
    requires InOrder(clock, input) && i < |input| && CommandOf(input[i]).Put?
    ensures var c := CommandOf(input[i]); Registrations(clock, ttl, input, c.name, c.addr)[i]
  {
    HistoryFollowsInput(clock, ttl, input, |input|);
    assert input[..|input|] == input;
    var e := History(clock, ttl, input)[i];
    assert IsRecord(e, input[i], ttl);
    var m :| e.reply == Handle(m, ttl, input[i].request, input[i].now).reply;
  }

  /** Position `last` is the last mark before `n`. */
  predicate IsLast(marks: seq<bool>, last: nat, n: nat) {
    last < n <= |marks| && marks[last] && forall k :: last < k < n ==> !marks[k]
  }

  /** An undisturbed request that did not register the name did nothing to it. */
  lemma LastIsRegisteredLast(clock: int, ttl: int, input: seq<Timed>, n: nat, name: string, addr: string, last: nat)
    requires InOrder(clock, input) && n <= |input|
    requires IsLast(Registrations(clock, ttl, input, name, addr), last, n) && Undisturbed(input[..n], last, name, addr)
    ensures var h := History(clock, ttl, input[..n]);
      RegisteredLast(h, name, last) && MarkOf(h[last], name) == Registered(Node(addr, input[last].now))
  {
    HistoryOfPrefix(clock, ttl, input, n);
    HistoryFollowsInput(clock, ttl, input, n);
    var h, marks := History(clock, ttl, input[..n]), Registrations(clock, ttl, input, name, addr);
    assert IsRecord(h[last], input[..n][last], ttl);
    forall k | last < k < n ensures MarkOf(h[k], name) == Nothing {
      assert !marks[k] && IsRecord(h[k], input[..n][k], ttl) && Harmless(CommandOf(input[..n][k]), name, addr);
      HarmlessMark(h[k], input[k], name, addr);
    }
  }

  lemma HarmlessMark(e: Record, t: Timed, name: string, addr: string)
    requires e.request == t.request && e.now == t.now && Harmless(CommandOf(t), name, addr)
    ensures MarkOf(e, name) == Nothing || MarkOf(e, name) == Registered(Node(addr, t.now))
  {
  }

  /** A registration is recorded with the time of its request. */
  lemma MarkedAtItsTime(e: Record, name: string)
    requires MarkOf(e, name).Registered?
    ensures MarkOf(e, name).node.lastSeen == e.now
  {
  }

  /**
   A query is answered by the age of the last registration alone, be it an add, a
   heartbeat or a modify: with its address up to the TTL, with "unknown host" after it.
   */
  lemma VisibleWhileYoung(clock: int, ttl: int, input: seq<Timed>, name: string, last: nat, raw: string, now: int)
    requires InOrder(clock, input) && RegisteredLast(History(clock, ttl, input), name, last)
    requires raw != "" && Received(raw) == name && now >= TimeBefore(clock, input, |input|)
    ensures last < |input|
    ensures Handle(Run(Empty(clock), ttl, input).services, ttl, Query(raw), now).reply
         == if now - input[last].now <= ttl then Address(MarkOf(History(clock, ttl, input)[last], name).node.addr) else UnknownHost
  {
    HistoryFollowsInput(clock, ttl, input, |input|);
    assert input[..|input|] == input;
    var h := History(clock, ttl, input);
    assert IsRecord(h[last], input[last], ttl);
    MarkedAtItsTime(h[last], name);
    LatestIsTheLastMark(MarksOf(h, name), last, MarkOf(h[last], name).node);
    QueriesAgreeWithHistory(clock, ttl, input, raw, now);
  }

  /** Consecutive marks are at most `gap` apart in time. */
  predicate AtMostApart(marks: seq<bool>, input: seq<Timed>, gap: int)
    requires |marks| == |input|
  {
    forall i, j :: 0 <= i < j < |marks| && marks[j] && IsLast(marks, i, j) ==> input[j].now - input[i].now <= gap
  }

  lemma LastTrue(marks: seq<bool>, first: nat, n: nat) returns (last: nat)
    requires first < n <= |marks| && marks[first]
    ensures IsLast(marks, last, n)
  {
    last := n - 1;
    while !marks[last]
      invariant first <= last < n && forall k :: last < k < n ==> !marks[k]
      decreases last
    {
      last := last - 1;
    }
  }

  lemma NextTrue(marks: seq<bool>, n: nat, later: nat) returns (next: nat)
    requires n <= later < |marks| && marks[later]
    ensures n <= next <= later && marks[next]
    ensures forall k :: n <= k < next ==> !marks[k]
  {
    next := n;
    while !marks[next]
      invariant n <= next <= later && forall k :: n <= k < next ==> !marks[k]
      decreases later - next
    {
      next := next + 1;
    }
  }

  lemma {:induction false} TimesInOrder(clock: int, input: seq<Timed>, i: nat, j: nat)
    requires InOrder(clock, input) && i <= j < |input|
    ensures input[i].now <= input[j].now
    decreases j - i
  {
    if i < j {
      TimesInOrder(clock, input, i, j - 1);
      assert TimeBefore(clock, input, j) <= input[j].now;
    }
  }

  /** Between two marks, the time since the last one is at most the gap. */
  lemma YoungBetweenMarks(clock: int, marks: seq<bool>, input: seq<Timed>, gap: int, first: nat, n: nat, later: nat, now: int)
    returns (last: nat)
    requires |marks| == |input| && InOrder(clock, input) && AtMostApart(marks, input, gap)
    requires first < n <= later < |marks| && marks[first] && marks[later]
    requires input[n - 1].now <= now <= input[n].now
    ensures IsLast(marks, last, n) && now - input[last].now <= gap
  {
    last := LastTrue(marks, first, n);
    var next := NextTrue(marks, n, later);
    assert IsLast(marks, last, next);
    TimesInOrder(clock, input, n, next);
  }

  /**
   Heartbeats keep a service visible: if consecutive registrations take place at most
   the heartbeat interval plus a delay apart, and that is within the TTL, every
   query between the first registration and some later one gets the address,
   whatever else the center is asked meanwhile, and whatever happened before.
   */
  lemma HeartbeatsKeepTheServiceVisible(
    clock: int, ttl: int, delay: int, input: seq<Timed>, n: nat, name: string, addr: string,
    first: nat, later: nat, raw: string, now: int)
    requires ttl > 0 && Interval(ttl) + delay <= ttl
    requires InOrder(clock, input) && n <= |input| && Undisturbed(input[..n], first, name, addr)
    requires var marks := Registrations(clock, ttl, input, name, addr);
      AtMostApart(marks, input, Interval(ttl) + delay) && first < n <= later < |input| && marks[first] && marks[later]
    requires raw != "" && Received(raw) == name && input[n - 1].now <= now <= input[n].now
    ensures Handle(Run(Empty(clock), ttl, input[..n]).services, ttl, Query(raw), now).reply == Address(addr)
  {
    var marks := Registrations(clock, ttl, input, name, addr);
    var last := YoungBetweenMarks(clock, marks, input, Interval(ttl) + delay, first, n, later, now);
    LastIsRegisteredLast(clock, ttl, input, n, name, addr, last);
    InOrderPrefix(clock, input, n);
    VisibleWhileYoung(clock, ttl, input[..n], name, last, raw, now);
  }

  /** The interval leaves room inside the TTL exactly for TTLs of at least 100 ms. */
  lemma IntervalFitsFromOneHundred(ttl: int)
    requires ttl > 0
    ensures Interval(ttl) <= ttl <==> ttl >= 100
  {
  }

  /** It is half the TTL, rounded down, from 200 ms on, and 100 ms below. */
  lemma IntervalIsHalfTheTTL(ttl: int)
    requires ttl > 0
    ensures ttl >= 200 ==> 2 * Interval(ttl) <= ttl <= 2 * Interval(ttl) + 1
    ensures ttl < 200 ==> Interval(ttl) == 100
  {
  }

  /**
   So one missed heartbeat is survived from 200 ms on if the next one is at most the
   rounding late, that is not at all for an even TTL, and never below: after a gap of
   two intervals and a delay the query gets the address exactly then.
   */
  lemma OneMissedHeartbeat(clock: int, ttl: int, delay: nat, input: seq<Timed>, name: string, last: nat, raw: string)
    requires ttl > 0 && InOrder(clock, input) && RegisteredLast(History(clock, ttl, input), name, last) && last < |input|
    requires var now := input[last].now + 2 * Interval(ttl) + delay;
      raw != "" && Received(raw) == name && TimeBefore(clock, input, |input|) <= now
    ensures var now := input[last].now + 2 * Interval(ttl) + delay;
      var reply := Handle(Run(Empty(clock), ttl, input).services, ttl, Query(raw), now).reply;
      if ttl >= 200 && delay <= ttl % 2 then reply == Address(MarkOf(History(clock, ttl, input)[last], name).node.addr)
      else reply == UnknownHost
  {
    IntervalIsHalfTheTTL(ttl);
    VisibleWhileYoung(clock, ttl, input, name, last, raw, input[last].now + 2 * Interval(ttl) + delay);
  }

  /** Below that, a service is invisible at the end of every interval even when its heartbeats are punctual. */
  lemma ShortTTLsBlinkOut(clock: int, ttl: int, input: seq<Timed>, name: string, last: nat, raw: string)
    requires 0 < ttl < 100
    requires InOrder(clock, input) && RegisteredLast(History(clock, ttl, input), name, last) && last < |input|
    requires raw != "" && Received(raw) == name && TimeBefore(clock, input, |input|) <= input[last].now + Interval(ttl)
    ensures Handle(Run(Empty(clock), ttl, input).services, ttl, Query(raw), input[last].now + Interval(ttl)).reply
         == UnknownHost
  {
    VisibleWhileYoung(clock, ttl, input, name, last, raw, input[last].now + Interval(ttl));
  }
}
