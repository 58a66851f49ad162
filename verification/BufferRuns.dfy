/** Whole runs of buffer operations: the byte queue they amount to, and the memory they may cost. */
module BufferRuns {
  import opened Bytes
  import opened TcpBuffers

  /** `Write` is writeToBuffer, `Take` is readFromBuffer, `Drop` is moveReadIndex, `Receive` is one read of onRead. */
  datatype Op = Write(data: bytes) | Take(size: nat) | Drop(amount: int) | Receive(data: bytes)

  /** A buffer with everything ever put into it and taken out of it, and its largest contents. */
  datatype Trace = Trace(shape: Shape, contents: bytes, given: bytes, taken: bytes, peak: nat) {
    predicate Ok() {
      shape.Ok() && |contents| == shape.Readable() && |contents| <= peak
    }

    function With(shape': Shape, contents': bytes, more: bytes, gone: bytes): Trace {
      Trace(shape', contents', given + more, taken + gone, if |contents'| > peak then |contents'| else peak)
    }
  }

  function Start(capacity: nat): Trace {
    Trace(Shape(capacity, 0, 0), [], [], [], 0)
  }

  function Apply(t: Trace, op: Op): (r: Trace)
    requires t.Ok()
    ensures r.Ok()
  {
    match op
    case Write(data) => t.With(Appended(t.shape, |data|), t.contents + data, data, [])
    case Take(size) =>
      if t.contents == [] then t else Removed(t, Min(size, |t.contents|))
    case Drop(size) =>
      if 0 <= size <= |t.contents| then Removed(t, size) else t
    case Receive(data) =>
      var b := Doubled(t.shape);
      var n := Min(|data|, b.Writable());
      t.With(Produced(b, n), t.contents + data[..n], data[..n], [])
  }

  function Removed(t: Trace, n: nat): (r: Trace)
    requires t.Ok() && n <= |t.contents|
    ensures r.Ok()
  {
    t.With(Consumed(t.shape, n), t.contents[n..], [], t.contents[..n])
  }

  function Run(t: Trace, ops: seq<Op>): (r: Trace)
    requires t.Ok()
    ensures r.Ok()
    decreases |ops|
  {
    if ops == [] then t else Run(Apply(t, ops[0]), ops[1..])
  }

  /** Capacity is covered by `num/den` times the peak, or was there from the start. */
  predicate Covered(t: Trace, initial: nat, num: nat, den: nat) {
    t.shape.capacity <= initial || den * t.shape.capacity <= num * t.peak
  }

  lemma ApplyIsFifo(t: Trace, op: Op)
    requires t.Ok() && t.taken + t.contents == t.given
    ensures var r := Apply(t, op); r.taken + r.contents == r.given && t.taken <= r.taken && t.given <= r.given
  {
    match op
    case Write(data) =>
      assert t.taken + [] + (t.contents + data) == t.given + data;
    case Take(size) =>
      if t.contents != [] { RemovedIsFifo(t, Min(size, |t.contents|)); }
    case Drop(size) =>
      if 0 <= size <= |t.contents| { RemovedIsFifo(t, size); }
    case Receive(data) =>
      var more := data[..Min(|data|, Doubled(t.shape).Writable())];
      assert t.taken + [] + (t.contents + more) == t.given + more;
  }

  lemma RemovedIsFifo(t: Trace, n: nat)
    requires t.Ok() && t.taken + t.contents == t.given && n <= |t.contents|
    ensures var r := Removed(t, n); r.taken + r.contents == r.given && t.taken <= r.taken && t.given <= r.given
  {
    assert t.taken + t.contents[..n] + t.contents[n..] == t.given + [];
  }

  /** One operation keeps the capacity within three times the peak; without reads from the socket, within 9/4. */
  lemma ApplyIsCovered(t: Trace, op: Op, initial: nat)
    requires t.Ok()
    ensures Covered(t, initial, 3, 1) ==> Covered(Apply(t, op), initial, 3, 1)
    ensures Covered(t, initial, 9, 4) && !op.Receive? ==> Covered(Apply(t, op), initial, 9, 4)
  {
  }

  /**
   FIFO: in every run, the bytes taken followed by the bytes still readable are
   the bytes put in, in order; and what was taken is never taken back.
   */
  lemma {:induction false} RunIsFifo(t: Trace, ops: seq<Op>)
    requires t.Ok() && t.taken + t.contents == t.given
    ensures var r := Run(t, ops); r.taken + r.contents == r.given && t.taken <= r.taken
    decreases |ops|
  {
    if ops != [] {
      ApplyIsFifo(t, ops[0]);
      RunIsFifo(Apply(t, ops[0]), ops[1..]);
    }
  }

  lemma {:induction false} RunIsCovered(t: Trace, ops: seq<Op>, initial: nat)
    requires t.Ok() && Covered(t, initial, 3, 1)
    ensures Covered(Run(t, ops), initial, 3, 1)
    ensures Covered(t, initial, 9, 4) && (forall i :: 0 <= i < |ops| ==> !ops[i].Receive?) ==>
      Covered(Run(t, ops), initial, 9, 4)
    decreases |ops|
  {
    if ops != [] {
      ApplyIsCovered(t, ops[0], initial);
      RunIsCovered(Apply(t, ops[0]), ops[1..], initial);
    }
  }

  /**
   Every run from a fresh buffer is a FIFO queue, keeps its dead prefix under a
   third of the array, and never owns more than the initial size or three times
   its largest contents (9/4 times when nothing is read from the socket).
   */
  lemma BufferTheorem(capacity: nat, ops: seq<Op>)
    ensures var r := Run(Start(capacity), ops);
      && r.taken + r.contents == r.given
      && (r.shape.read == 0 || r.shape.read < r.shape.capacity / 3)
      && r.shape.capacity <= (if capacity > 3 * r.peak then capacity else 3 * r.peak)
      && ((forall i :: 0 <= i < |ops| ==> !ops[i].Receive?) ==>
          r.shape.capacity <= capacity || 4 * r.shape.capacity <= 9 * r.peak)
  {
    RunIsFifo(Start(capacity), ops);
    RunIsCovered(Start(capacity), ops, capacity);
  }
}
