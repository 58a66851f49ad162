/**
 The timer queue as a value: events, the deadline-ordered queue of pending ones,
 and the expiry the timerfd is armed for. All times are milliseconds of one clock.
 */
module TimerSpec {
  import opened Options

  /** Identity of a TimerEvent object. */
  type EventId = nat

  datatype Event = Event(arrive: int, interval: int, repeated: bool, cancelled: bool)

  /** An element of the multimap; `stamp` numbers insertions. */
  datatype Entry = Entry(key: int, stamp: nat, id: EventId)

  /** `fd` is when the timerfd expires or has expired unread; `rearmed` when it was last armed. */
  datatype Timers = Timers(pending: seq<Entry>, events: map<EventId, Event>, fd: Option<int>, rearmed: int, inserted: nat)

  const MIN_DELAY: int := 100

  // ---------- the timerfd ----------

  datatype TimeSpec = TimeSpec(sec: int, nsec: int)

  function Split(interval: int): TimeSpec {
    TimeSpec(interval / 1000, interval % 1000 * 1000000)
  }

  /** The split is exact and, for the positive intervals used, never the zero that would disarm the timerfd. */
  lemma SplitIsExact(interval: int)
    requires interval > 0
    ensures var ts := Split(interval);
      ts.sec * 1000000000 + ts.nsec == interval * 1000000 && 0 <= ts.sec && 0 <= ts.nsec < 1000000000
      && ts != TimeSpec(0, 0)
  {
  }

  /** How long from `now` until the first deadline, or the minimal delay when it has passed. */
  function Delay(arrive: int, now: int): (d: int)
    ensures d > 0
  {
    if arrive > now then arrive - now else MIN_DELAY
  }

  // ---------- the queue ----------

  /** Entries refer to known events, and their key is the event's deadline. */
  predicate Keyed(t: Timers) {
    forall i :: 0 <= i < |t.pending| ==> t.pending[i].id in t.events && t.pending[i].key == t.events[t.pending[i].id].arrive
  }

  predicate Before(a: Entry, b: Entry) {
    a.key < b.key || (a.key == b.key && a.stamp < b.stamp)
  }

  /** Deadline order, and insertion order among equal deadlines. */
  predicate Sorted(p: seq<Entry>) {
    forall i, j :: 0 <= i < j < |p| ==> Before(p[i], p[j])
  }

  predicate Distinct(p: seq<Entry>) {
    forall i, j :: 0 <= i < j < |p| ==> p[i].id != p[j].id
  }

  predicate Stamped(t: Timers) {
    forall i :: 0 <= i < |t.pending| ==> t.pending[i].stamp < t.inserted
  }

  predicate Ok(t: Timers) {
    Keyed(t) && Sorted(t.pending) && Distinct(t.pending) && Stamped(t)
  }

  predicate IsPending(t: Timers, id: EventId) {
    exists i :: 0 <= i < |t.pending| && t.pending[i].id == id
  }

  /** Position behind all entries whose key is at most `key`: where multimap::emplace inserts. */
  function UpperBound(p: seq<Entry>, key: int): (n: nat)
    ensures n <= |p|
    ensures forall i :: 0 <= i < n ==> p[i].key <= key
    ensures n < |p| ==> p[n].key > key
  {
    if p == [] || p[0].key > key then 0 else 1 + UpperBound(p[1..], key)
  }

  function Insert(p: seq<Entry>, e: Entry): (r: seq<Entry>)
    ensures |r| == |p| + 1
  {
    var n := UpperBound(p, e.key);
    p[..n] + [e] + p[n..]
  }

  /** `resetArriveTime` of the timer: arm for the first pending event, if there is one. */
  function Armed(t: Timers, now: int): Timers
    requires Keyed(t)
  {
    if t.pending == [] then t
    else t.(fd := Some(now + Delay(t.events[t.pending[0].id].arrive, now)), rearmed := now)
  }

  /** `addTimerEvent`: arm only when the new event is the first. */
  function Added(t: Timers, id: EventId, now: int): Timers
    requires Ok(t) && id in t.events && !IsPending(t, id)
  {
    var first := t.pending == [] || t.events[t.pending[0].id].arrive > t.events[id].arrive;
    var e := Entry(t.events[id].arrive, t.inserted, id);
    InsertKeepsOk(t, e);
    var r := t.(pending := Insert(t.pending, e), inserted := t.inserted + 1);
    if first then Armed(r, now) else r
  }

  /** Position of the entry of `id` among those with its deadline, or the length. */
  function Find(p: seq<Entry>, key: int, id: EventId): (n: nat)
    ensures n <= |p|
    ensures n < |p| ==> p[n].key == key && p[n].id == id
    ensures forall i :: 0 <= i < n ==> !(p[i].key == key && p[i].id == id)
  {
    if p == [] || (p[0].key == key && p[0].id == id) then 0 else 1 + Find(p[1..], key, id)
  }

  function WithCancelled(t: Timers, id: EventId): Timers
    requires id in t.events
  {
    t.(events := t.events[id := t.events[id].(cancelled := true)])
  }

  /** The locked part of `deleteTimerEvent`. */
  function Erased(t: Timers, id: EventId): Timers
    requires id in t.events
  {
    var n := Find(t.pending, t.events[id].arrive, id);
    if n < |t.pending| then t.(pending := t.pending[..n] + t.pending[n + 1..]) else t
  }

  /** Reading the timerfd at `now` clears an expiry that has happened. */
  function Drained(t: Timers, now: int): Timers {
    if t.fd.Some? && t.fd.value <= now then t.(fd := None) else t
  }

  datatype Fire = Fire(id: EventId, deadline: int, at: int)

  /** The uncancelled entries of `p`, to be run with the deadline they had. */
  function Uncancelled(t: Timers, p: seq<Entry>, now: int): seq<Fire>
    requires forall i :: 0 <= i < |p| ==> p[i].id in t.events
  {
    if p == [] then []
    else (if t.events[p[0].id].cancelled then [] else [Fire(p[0].id, t.events[p[0].id].arrive, now)]) + Uncancelled(t, p[1..], now)
  }

  datatype Batch = Batch(timers: Timers, fires: seq<Fire>)

  /** Take everything due at `now` off the queue. */
  function Collected(t: Timers, now: int): Batch
    requires Keyed(t)
  {
    var n := UpperBound(t.pending, now);
    Batch(t.(pending := t.pending[n..]), Uncancelled(t, t.pending[..n], now))
  }

  /** `TimerEvent::resetArriveTime`. */
  function Restarted(t: Timers, id: EventId, now: int): Timers
    requires id in t.events
  {
    t.(events := t.events[id := t.events[id].(arrive := now + t.events[id].interval)])
  }

  // ---------- what the timerfd is armed for ----------

  /** Expiry of a timerfd armed at `now` for `deadline`: the deadline itself, or 100 ms ahead once it has passed. */
  function Expiry(deadline: int, now: int): int {
    if deadline > now then deadline else now + 100
  }

  lemma ArmedForTheFirst(t: Timers, now: int)
    requires Ok(t)
    ensures Armed(t, now).fd == if t.pending == [] then t.fd else Some(Expiry(t.pending[0].key, now))
    ensures t.pending != [] ==> Armed(t, now).rearmed == now
  {
  }

  /** An event that becomes the first arms the timerfd for itself; any other leaves it as it is. */
  lemma AddedArmsForTheFirst(t: Timers, id: EventId, now: int)
    requires Ok(t) && id in t.events && !IsPending(t, id)
    ensures var arrive := t.events[id].arrive;
      var first := t.pending == [] || t.pending[0].key > arrive;
      && Added(t, id, now).fd == (if first then Some(Expiry(arrive, now)) else t.fd)
      && Added(t, id, now).rearmed == (if first then now else t.rearmed)
      && Added(t, id, now).pending[0].id == (if first then id else t.pending[0].id)
      && Added(t, id, now).pending[0].key == (if first then arrive else t.pending[0].key)
  {
    var e := Entry(t.events[id].arrive, t.inserted, id);
    InsertedAt(t.pending, e);
    InsertKeepsOk(t, e);
  }

  // ---------- the queue stays in order ----------

  /** Where the entries of `p` and the new one are afterwards. */
  lemma InsertedAt(p: seq<Entry>, e: Entry)
    ensures var n, q := UpperBound(p, e.key), Insert(p, e);
      && (forall i :: 0 <= i < n ==> q[i] == p[i]) && q[n] == e && (forall i :: n < i < |q| ==> q[i] == p[i - 1])
  {
  }

  lemma InsertKeepsSorted(p: seq<Entry>, e: Entry)
    requires Sorted(p) && forall i :: 0 <= i < |p| ==> p[i].stamp < e.stamp
    ensures Sorted(Insert(p, e))
  {
    InsertedAt(p, e);
    var n, q := UpperBound(p, e.key), Insert(p, e);
    forall i | n <= i < |p| ensures p[i].key > e.key {
      if i > n { assert Before(p[n], p[i]); }
    }
    forall i, j | 0 <= i < j < |q| ensures Before(q[i], q[j]) {
      if i != n && j != n { assert Before(p[if i < n then i else i - 1], p[if j < n then j else j - 1]); }
    }
  }

  lemma InsertKeepsDistinct(p: seq<Entry>, e: Entry)
    requires Distinct(p) && forall i :: 0 <= i < |p| ==> p[i].id != e.id
    ensures Distinct(Insert(p, e))
  {
    InsertedAt(p, e);
    var n, q := UpperBound(p, e.key), Insert(p, e);
    forall i, j | 0 <= i < j < |q| ensures q[i].id != q[j].id {
      if i != n && j != n { assert p[if i < n then i else i - 1].id != p[if j < n then j else j - 1].id; }
    }
  }

  lemma InsertKeepsOk(t: Timers, e: Entry)
    requires Ok(t) && e.id in t.events && e.key == t.events[e.id].arrive && e.stamp == t.inserted && !IsPending(t, e.id)
    ensures Ok(t.(pending := Insert(t.pending, e), inserted := t.inserted + 1))
  {
    InsertedAt(t.pending, e);
    InsertKeepsSorted(t.pending, e);
    InsertKeepsDistinct(t.pending, e);
  }

  lemma RemovingKeepsOk(t: Timers, n: nat)
    requires Ok(t) && n < |t.pending|
    ensures Ok(t.(pending := t.pending[..n] + t.pending[n + 1..]))
  {
    var p, q := t.pending, t.pending[..n] + t.pending[n + 1..];
    assert forall i :: 0 <= i < |q| ==> q[i] == p[if i < n then i else i + 1];
  }

  lemma RemovedIsNotPending(t: Timers, n: nat)
    requires Distinct(t.pending) && n < |t.pending|
    ensures var r := t.(pending := t.pending[..n] + t.pending[n + 1..]);
      forall other :: IsPending(r, other) <==> other != t.pending[n].id && IsPending(t, other)
  {
    var p, q := t.pending, t.pending[..n] + t.pending[n + 1..];
    assert forall i :: 0 <= i < |q| ==> q[i] == p[if i < n then i else i + 1];
    forall other | other != p[n].id && IsPending(t, other)
      ensures IsPending(t.(pending := q), other)
    {
      var i :| 0 <= i < |p| && p[i].id == other;
      assert q[if i < n then i else i - 1].id == other;
    }
  }

  lemma EraseKeepsOk(t: Timers, id: EventId)
    requires Ok(t) && id in t.events
    ensures Ok(Erased(t, id)) && !IsPending(Erased(t, id), id)
    ensures forall other :: other != id ==> (IsPending(Erased(t, id), other) <==> IsPending(t, other))
  {
    var n := Find(t.pending, t.events[id].arrive, id);
    if n < |t.pending| {
      RemovingKeepsOk(t, n);
      RemovedIsNotPending(t, n);
    }
  }
}
