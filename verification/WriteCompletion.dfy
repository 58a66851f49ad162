/**
 The write callbacks of a client connection over whole runs: when they run, in
 which order, and what has been sent by then. A callback that has run means "sent"
 exactly if its message was queued while the out buffer was empty.
 */
module WriteCompletion {
  import opened Bytes
  import opened TinyPB
  import opened Framing
  import opened TinyPBStream
  import opened ConnectionSpec
  import opened SenderStream

  /**
   A client connection with its history: everything queued, whether the out buffer
   was empty at the time, the messages that were encoded and their numbers in
   `pushed`, the callbacks run, and the bytes the socket accepted.
   */
  datatype Session = Session(
    conn: Conn, pushed: seq<Pending>, onTime: seq<bool>, encoded: seq<Message>, numbers: seq<nat>, ran: seq<Call>, accepted: bytes)

  datatype Event = Push(pending: Pending) | Write(script: seq<WriteResult>) | Clear | SetState

  function Step(s: Session, e: Event): Session {
    match e
    case Push(p) => s.(conn := Pushed(s.conn, p), pushed := s.pushed + [p], onTime := s.onTime + [s.conn.out == []])
    case Clear => s.(conn := Cleared(s.conn))
    case SetState => s.(conn := s.conn.(state := Connected))
    case Write(script) =>
      var w := OnWrite(s.conn, script);
      s.(conn := w.conn, ran := s.ran + w.ran, accepted := s.accepted + w.accepted,
         encoded := AskedBy(s.conn, s.encoded), numbers := NumbersBy(s))
  }

  /** The numbers of the encoded messages by the end of an `onWrite`: the queue holds the latest of `pushed`. */
  function NumbersBy(s: Session): seq<nat> {
    var n := |s.conn.writeDones|;
    if EncodesQueue(s.conn) && n <= |s.pushed| then s.numbers + Interval(|s.pushed| - n, |s.pushed|) else s.numbers
  }

  function Interval(lo: nat, hi: nat): (r: seq<nat>)
    requires lo <= hi
    ensures |r| == hi - lo && forall i :: 0 <= i < hi - lo ==> r[i] == lo + i
  {
    seq(hi - lo, i requires 0 <= i => lo + i)
  }

  function Run(s: Session, events: seq<Event>): Session
    decreases |events|
  {
    if events == [] then s else Run(Step(s, events[0]), events[1..])
  }

  /** A connected client that has sent nothing. */
  predicate Fresh(s: Session) {
    && s.conn.kind == ByClient && s.conn.Live() && s.conn.out == [] && s.conn.writeDones == []
    && s.pushed == [] && s.onTime == [] && s.encoded == [] && s.numbers == [] && s.ran == [] && s.accepted == []
  }

  function Dones(ps: seq<Pending>): (r: seq<Callback>)
    ensures |r| == |ps|
  {
    seq(|ps|, i requires 0 <= i < |ps| => ps[i].done)
  }

  function Ran(cs: seq<Call>): (r: seq<Callback>)
    ensures |r| == |cs|
  {
    seq(|cs|, i requires 0 <= i < |cs| => cs[i].done)
  }

  // ---------- every run ----------

  /** Sent and buffered bytes are the encodings; callbacks run in queue order, each at most once. */
  predicate Ok(s: Session) {
    && s.conn.kind == ByClient
    && s.accepted + s.conn.out == EncodeAll(s.encoded)
    && |s.ran| <= |s.pushed| && Ran(s.ran) <= Dones(s.pushed)
    && (s.conn.fd >= 0 ==> Ran(s.ran) + Dones(s.conn.writeDones) == Dones(s.pushed))
  }

  /** What one `onWrite` does to the queue of a live client, and which callbacks it runs. */
  lemma WriteEffects(c: Conn, script: seq<WriteResult>)
    requires c.Live() && c.kind == ByClient
    ensures var w := OnWrite(c, script);
      && w.conn.kind == ByClient
      && (w.conn.fd >= 0 ==> w.conn.writeDones == if w.conn.out == [] then [] else Loaded(c).writeDones)
      && w.ran == (if w.conn.fd >= 0 && w.conn.out == [] then CallsOf(Loaded(c).writeDones) else [])
  {
  }

  lemma WriteKeepsOrder(s: Session, script: seq<WriteResult>)
    requires Ok(s)
    ensures var r := Step(s, Write(script));
      Ran(r.ran) <= Dones(r.pushed) && (r.conn.fd >= 0 ==> Ran(r.ran) + Dones(r.conn.writeDones) == Dones(r.pushed))
  {
    if s.conn.Live() {
      WriteEffects(s.conn, script);
      var queue := Loaded(s.conn).writeDones;
      assert Dones(queue) == Dones(s.conn.writeDones);
      assert Ran(CallsOf(queue)) == Dones(queue);
      assert Ran(s.ran + CallsOf(queue)) == Ran(s.ran) + Ran(CallsOf(queue));
      assert Ran(s.ran + []) == Ran(s.ran);
      assert Ran(s.ran) + Dones(queue) + Dones([]) == Ran(s.ran) + Dones(queue);
    } else {
      assert s.ran + [] == s.ran;
    }
  }

  lemma StepKeepsOk(s: Session, e: Event)
    requires Ok(s)
    ensures Ok(Step(s, e))
  {
    match e
    case Push(p) =>
      assert Dones(s.pushed + [p]) == Dones(s.pushed) + [p.done];
      assert Dones(s.conn.writeDones + [p]) == Dones(s.conn.writeDones) + [p.done];
      assert Ran(s.ran) + (Dones(s.conn.writeDones) + [p.done]) == Ran(s.ran) + Dones(s.conn.writeDones) + [p.done];
    case Clear =>
    case SetState =>
    case Write(script) =>
      WriteKeepsStream(s.accepted, s.conn, script, s.encoded);
      WriteKeepsOrder(s, script);
  }

  /**
   Every run of a client: bytes accepted by the socket followed by bytes still
   buffered are the encodings so far, and write callbacks run in the order their
   messages were queued, each at most once.
   */
  lemma {:induction false} BytesAndCallbacks(s: Session, events: seq<Event>)
    requires Ok(s)
    ensures Ok(Run(s, events))
    decreases |events|
  {
    if events != [] {
      StepKeepsOk(s, events[0]);
      BytesAndCallbacks(Step(s, events[0]), events[1..]);
    }
  }

  /** After a fatal error or a close, no byte is sent and no write callback runs, whatever is queued. */
  lemma {:induction false} DeadConnectionIsSilent(s: Session, events: seq<Event>)
    requires s.conn.fd < 0
    ensures var r := Run(s, events); r.conn.fd < 0 && r.ran == s.ran && r.accepted == s.accepted
    decreases |events|
  {
    if events != [] {
      assert s.ran + [] == s.ran && s.accepted + [] == s.accepted;
      DeadConnectionIsSilent(Step(s, events[0]), events[1..]);
    }
  }

  // ---------- what a callback means ----------

  /** `encoded` are the messages with these numbers, in the order they were queued. */
  predicate Numbered(s: Session) {
    && |s.onTime| == |s.pushed| && |s.numbers| == |s.encoded|
    && (forall i :: 0 <= i < |s.numbers| ==> s.numbers[i] < |s.pushed| && s.encoded[i] == s.pushed[s.numbers[i]].message)
    && (forall i, j :: 0 <= i < j < |s.numbers| ==> s.numbers[i] < s.numbers[j])
  }

  /** The numbers below `n` that were encoded are exactly those queued on time. */
  predicate Exact(s: Session, n: nat)
    requires n <= |s.onTime|
  {
    forall k :: 0 <= k < n ==> (s.onTime[k] <==> k in s.numbers)
  }

  /** All bytes up to the end of the `i`-th encoded message were accepted. */
  predicate AcceptedThrough(s: Session, i: nat) {
    i < |s.encoded| && EncodeAll(s.encoded[..i + 1]) <= s.accepted
  }

  /** Of the messages whose callback has run, those encoded were accepted to the last byte. */
  predicate SentInFull(s: Session) {
    forall i :: 0 <= i < |s.numbers| && s.numbers[i] < |s.ran| ==> AcceptedThrough(s, i)
  }

  /** With an empty out buffer all that is queued is on time and still to be encoded; otherwise all that was on time is encoded. */
  predicate QueueOk(s: Session)
    requires |s.onTime| == |s.pushed|
  {
    if s.conn.out == [] then
      && |s.ran| <= |s.pushed|
      && Messages(s.conn.writeDones) == Messages(s.pushed[|s.ran|..])
      && (forall k :: |s.ran| <= k < |s.pushed| ==> s.onTime[k])
      && (forall i :: 0 <= i < |s.numbers| ==> s.numbers[i] < |s.ran|)
    else Exact(s, |s.pushed|)
  }

  predicate Honest(s: Session) {
    && Numbered(s)
    && |s.ran| <= |s.pushed| && Exact(s, |s.ran|)
    && SentInFull(s)
    && (s.conn.fd >= 0 ==> QueueOk(s))
  }

  lemma PushKeepsHonest(s: Session, p: Pending)
    requires Ok(s) && Honest(s)
    ensures Honest(Step(s, Push(p)))
  {
    var r := Step(s, Push(p));
    if s.conn.fd >= 0 && s.conn.out == [] {
      assert r.pushed[|s.ran|..] == s.pushed[|s.ran|..] + [p];
      MessagesOfAppended(s.pushed[|s.ran|..], [p]);
      MessagesOfAppended(s.conn.writeDones, [p]);
    }
  }

  lemma MessagesOfAppended(a: seq<Pending>, b: seq<Pending>)
    ensures Messages(a + b) == Messages(a) + Messages(b)
  {
  }

  /** The queue goes to the encoder: everything on time has been encoded then. */
  function Encoding(s: Session): Session {
    s.(encoded := AskedBy(s.conn, s.encoded), numbers := NumbersBy(s))
  }

  lemma EncodingIsExact(s: Session)
    requires Honest(s) && s.conn.Live() && s.conn.kind == ByClient
    ensures var r := Encoding(s); Numbered(r) && Exact(r, |r.pushed|) && SentInFull(r)
  {
    if EncodesQueue(s.conn) {
      var r, queue := Encoding(s), s.pushed[|s.ran|..];
      assert |Messages(s.conn.writeDones)| == |queue|;
      assert r.numbers == s.numbers + Interval(|s.ran|, |s.pushed|);
      NumberingTheQueue(s, r, |s.ran|);
      forall i: nat | i < |r.numbers| && r.numbers[i] < |s.ran| ensures AcceptedThrough(r, i) {
        assert i < |s.numbers| && AcceptedThrough(s, i);
        assert r.encoded[..i + 1] == s.encoded[..i + 1];
      }
    }
  }

  lemma NumberingTheQueue(s: Session, r: Session, n: nat)
    requires Numbered(s) && n <= |s.pushed| && Exact(s, n)
    requires forall k :: n <= k < |s.pushed| ==> s.onTime[k]
    requires forall i :: 0 <= i < |s.numbers| ==> s.numbers[i] < n
    requires r.onTime == s.onTime && r.pushed == s.pushed
    requires r.numbers == s.numbers + Interval(n, |s.pushed|) && r.encoded == s.encoded + Messages(s.pushed[n..])
    ensures Numbered(r) && Exact(r, |r.pushed|)
  {
    forall k: nat | k < |s.pushed| ensures s.onTime[k] <==> k in r.numbers {
      if k >= n { assert r.numbers[|s.numbers| + (k - n)] == k; }
    }
  }

  lemma WriteKeepsHonest(s: Session, script: seq<WriteResult>)
    requires Ok(s) && Honest(s)
    ensures Honest(Step(s, Write(script)))
  {
    if !s.conn.Live() {
      assert s.ran + [] == s.ran && s.accepted + [] == s.accepted;
      return;
    }
    var r := Step(s, Write(script));
    EncodingIsExact(s);
    StepKeepsOk(s, Write(script));
    WriteEffects(s.conn, script);
    if r.conn.fd >= 0 && r.conn.out == [] {
      assert Exact(r, |r.pushed|) && Numbered(r);
      DrainedIsHonest(r);
    } else {
      PartlySentIsHonest(s, r);
    }
  }

  /** With bytes left over, all that was on time has been encoded, and no callback has run. */
  lemma PartlySentIsHonest(s: Session, r: Session)
    requires Honest(s) && Numbered(r) && Exact(r, |r.pushed|) && SentInFull(Encoding(s))
    requires r.pushed == s.pushed && r.ran == s.ran && s.accepted <= r.accepted
    requires r.encoded == Encoding(s).encoded && r.numbers == Encoding(s).numbers
    requires r.conn.fd >= 0 ==> r.conn.out != []
    ensures Honest(r)
  {
    forall i: nat | i < |r.numbers| && r.numbers[i] < |r.ran| ensures AcceptedThrough(r, i) {
      assert AcceptedThrough(Encoding(s), i);
    }
  }

  /** With everything drained, all bytes of the encoded messages were accepted and all callbacks ran. */
  lemma DrainedIsHonest(s: Session)
    requires Ok(s) && Numbered(s) && Exact(s, |s.pushed|)
    requires s.conn.fd >= 0 && s.conn.out == [] && s.conn.writeDones == []
    ensures Honest(s)
  {
    assert |Ran(s.ran)| + |Dones([])| == |Dones(s.pushed)|;
    assert s.accepted + [] == s.accepted;
    forall i: nat | i < |s.encoded| ensures AcceptedThrough(s, i) {
      EncodeAllOfPrefix(s.encoded, i + 1);
    }
    assert s.pushed[|s.ran|..] == [];
  }

  lemma EncodeAllOfPrefix(ms: seq<Message>, n: nat)
    requires n <= |ms|
    ensures EncodeAll(ms[..n]) <= EncodeAll(ms)
  {
    assert ms == ms[..n] + ms[n..];
    EncodeAllGrows(ms[..n], ms[n..]);
  }

  lemma StepKeepsHonest(s: Session, e: Event)
    requires Ok(s) && Honest(s)
    ensures Honest(Step(s, e))
  {
    match e
    case Push(p) => PushKeepsHonest(s, p);
    case Write(script) => WriteKeepsHonest(s, script);
    case Clear =>
    case SetState =>
  }

  /**
   In every run, a callback that has run belongs to a message that was encoded if
   and only if the message was queued while the out buffer was empty, and then all
   its bytes were accepted first. One queued later is passed over for good.
   */
  lemma {:induction false} CallbackMeansSentIfOnTime(s: Session, events: seq<Event>)
    requires Ok(s) && Honest(s)
    ensures var r := Run(s, events); Ok(r) && Honest(r)
    decreases |events|
  {
    if events != [] {
      StepKeepsOk(s, events[0]);
      StepKeepsHonest(s, events[0]);
      CallbackMeansSentIfOnTime(Step(s, events[0]), events[1..]);
    }
  }

  /** The `i`-th encoded message is `m`, and all its bytes were accepted. */
  predicate SentAt(s: Session, i: nat, m: Message) {
    AcceptedThrough(s, i) && s.encoded[i] == m
  }

  /** The same for a new client, message by message. */
  lemma LatePushIsPassedOver(s: Session, events: seq<Event>, k: nat)
    requires Fresh(s) && k < |Run(s, events).ran|
    ensures var r := Run(s, events);
      && k < |r.pushed| == |r.onTime| && r.ran[k].done == r.pushed[k].done
      && (r.onTime[k] <==> k in r.numbers)
      && (r.onTime[k] ==> exists i :: 0 <= i < |r.numbers| && r.numbers[i] == k && SentAt(r, i, r.pushed[k].message))
  {
    CallbackMeansSentIfOnTime(s, events);
    var r := Run(s, events);
    assert Ran(r.ran)[k] == Dones(r.pushed)[k];
    if r.onTime[k] {
      var i :| 0 <= i < |r.numbers| && r.numbers[i] == k;
      assert SentAt(r, i, r.pushed[k].message);
    }
  }

  /** A write that drains the out buffer runs every callback that is left, that of a message passed over as well. */
  lemma DrainingRunsAllCallbacks(s: Session, script: seq<WriteResult>)
    requires Ok(s) && s.conn.Live()
    requires var r := Step(s, Write(script)); r.conn.fd >= 0 && r.conn.out == []
    ensures var r := Step(s, Write(script)); Ran(r.ran) == Dones(r.pushed)
  {
    StepKeepsOk(s, Write(script));
    WriteEffects(s.conn, script);
    var r := Step(s, Write(script));
    assert Ran(r.ran) + Dones([]) == Ran(r.ran);
  }

  /**
   The failing case: a message queued behind a partly sent one. Its callback runs
   when the first one is through, and none of its bytes was sent.
   */
  lemma LatePushIsCalledBackUnsent(s: Session, a: Pending, b: Pending)
    requires Fresh(s) && Encodable(a.message)
    ensures var r := Run(s, [Push(a), Write([Wrote(1)]), Push(b), Write([Wrote(|Encode(a.message)|)])]);
      && r.onTime == [true, false] && Ran(r.ran) == [a.done, b.done]
      && r.encoded == [a.message] && r.accepted == Encode(a.message) && r.conn.out == [] && r.conn.Live()
  {
    var f := Encode(a.message);
    var s1 := Step(s, Push(a));
    OneMessage(a);
    assert s1.conn.writeDones == [a] && Messages([a]) == [a.message];
    assert Loaded(s1.conn).out == f;
    var s2 := Step(s1, Write([Wrote(1)]));
    WritingPart(f);
    assert s2.accepted == f[..1] && s2.conn.out == f[1..] && s2.ran == [] && s2.encoded == [a.message];
    var s3 := Step(s2, Push(b));
    WritingRest(f);
    assert f[..1] + f[1..] == f;
    var s4 := Step(s3, Write([Wrote(|f|)]));
    StepKeepsOk(s, Push(a));
    StepKeepsOk(s1, Write([Wrote(1)]));
    StepKeepsOk(s2, Push(b));
    DrainingRunsAllCallbacks(s3, [Wrote(|f|)]);
    assert s4.accepted == f && s4.pushed == [a, b] && Dones([a, b]) == [a.done, b.done];
    FourSteps(s, Push(a), Write([Wrote(1)]), Push(b), Write([Wrote(|f|)]));
  }

  lemma WritingPart(f: bytes)
    requires |f| > 1
    ensures WriteLoop(f, [Wrote(1)]) == Written(f[..1], f[1..], Stalled)
  {
    assert [Wrote(1)][1..] == [];
    assert WriteLoop(f[1..], []) == Written([], f[1..], Stalled);
    assert f[..1] + [] == f[..1];
  }

  lemma WritingRest(f: bytes)
    requires |f| > 1
    ensures WriteLoop(f[1..], [Wrote(|f|)]) == Written(f[1..], [], Drained)
  {
    var g := f[1..];
    assert g[..|g|] == g && g[|g|..] == [];
    assert g + [] == g;
  }

  lemma FourSteps(s: Session, e1: Event, e2: Event, e3: Event, e4: Event)
    ensures Run(s, [e1, e2, e3, e4]) == Step(Step(Step(Step(s, e1), e2), e3), e4)
  {
    var s1, s2, s3 := Step(s, e1), Step(Step(s, e1), e2), Step(Step(Step(s, e1), e2), e3);
    assert [e1, e2, e3, e4][1..] == [e2, e3, e4] && [e2, e3, e4][1..] == [e3, e4] && [e3, e4][1..] == [e4] && [e4][1..] == [];
    assert Run(s3, [e4]) == Step(s3, e4);
    assert Run(s2, [e3, e4]) == Run(s3, [e4]);
    assert Run(s1, [e2, e3, e4]) == Run(s2, [e3, e4]);
  }

  lemma OneMessage(p: Pending)
    requires Encodable(p.message)
    ensures EncodeAll(Messages([p])) == Encode(p.message) && |Encode(p.message)| > 1
  {
    var f := Encode(p.message);
    assert |f| == Size(PostEncode(p.message));
    assert Messages([p]) == [p.message] && [p.message][1..] == [];
    assert FlatMap(Encode, [p.message]) == f + FlatMap(Encode, []);
    assert f + [] == f;
  }

  // ---------- what a callback is handed ----------

  /** The record of the `k`-th message as its callback gets it: as the encoder left it, if it came to the encoder. */
  function Record(s: Session, k: nat): Message
    requires k < |s.pushed| && k < |s.onTime|
  {
    if s.onTime[k] then PostEncode(s.pushed[k].message) else s.pushed[k].message
  }

  /** Callbacks that ran got their records; in the queue, messages are raw until they come to the encoder. */
  predicate Handed(s: Session) {
    && |s.onTime| == |s.pushed| && |s.ran| <= |s.pushed|
    && (forall k :: 0 <= k < |s.ran| ==> s.ran[k].message == Record(s, k))
    && (s.conn.fd >= 0 ==>
          && |s.ran| + |s.conn.writeDones| == |s.pushed|
          && (forall i :: 0 <= i < |s.conn.writeDones| ==> s.conn.writeDones[i].message == Queued(s, |s.ran| + i)))
  }

  /** The `k`-th message as it is in the queue. */
  function Queued(s: Session, k: nat): Message
    requires k < |s.pushed| && k < |s.onTime|
  {
    if s.conn.out == [] then s.pushed[k].message else Record(s, k)
  }

  lemma PushKeepsHanded(s: Session, p: Pending)
    requires Handed(s)
    ensures Handed(Step(s, Push(p)))
  {
    var r := Step(s, Push(p));
    assert forall k :: 0 <= k < |s.pushed| ==> Record(r, k) == Record(s, k) && Queued(r, k) == Queued(s, k);
  }

  /** Loading the queue brings every message in it to its record. */
  lemma LoadingMakesRecords(s: Session)
    requires Ok(s) && Honest(s) && Handed(s) && s.conn.Live()
    ensures var q := Loaded(s.conn).writeDones;
      |s.ran| + |q| == |s.pushed| && forall i :: 0 <= i < |q| ==> q[i].message == Record(s, |s.ran| + i)
  {
  }

  lemma WriteKeepsHanded(s: Session, script: seq<WriteResult>)
    requires Ok(s) && Honest(s) && Handed(s)
    ensures Handed(Step(s, Write(script)))
  {
    if s.conn.Live() {
      var q, r := Loaded(s.conn).writeDones, Step(s, Write(script));
      LoadingMakesRecords(s);
      WriteEffects(s.conn, script);
      assert r.pushed == s.pushed && r.onTime == s.onTime;
      RanRecords(s, r, q);
    } else {
      assert s.ran + [] == s.ran;
    }
  }

  lemma RanRecords(s: Session, r: Session, q: seq<Pending>)
    requires Handed(s) && r.pushed == s.pushed && r.onTime == s.onTime
    requires |s.ran| + |q| == |s.pushed| && forall i :: 0 <= i < |q| ==> q[i].message == Record(s, |s.ran| + i)
    requires r.conn.fd >= 0 ==> r.conn.writeDones == if r.conn.out == [] then [] else q
    requires r.ran == s.ran + (if r.conn.fd >= 0 && r.conn.out == [] then CallsOf(q) else [])
    ensures Handed(r)
  {
    forall k | 0 <= k < |r.ran| ensures r.ran[k].message == Record(r, k) {
      assert Record(r, k) == Record(s, k);
      if k >= |s.ran| { CallCarries(q, k - |s.ran|); }
    }
  }

  lemma CallCarries(q: seq<Pending>, i: nat)
    requires i < |q|
    ensures CallsOf(q)[i] == Call(q[i].done, q[i].message)
  {
  }

  lemma StepKeepsHanded(s: Session, e: Event)
    requires Ok(s) && Honest(s) && Handed(s)
    ensures Handed(Step(s, e))
  {
    match e
    case Push(p) => PushKeepsHanded(s, p);
    case Write(script) => WriteKeepsHanded(s, script);
    case _ =>
  }

  /**
   In every run each write callback gets its own message: as the encoder left it, with
   default id, lengths and checksum filled in, if the message was queued on time, and
   as it was queued otherwise.
   */
  lemma {:induction false} CallbackGetsItsMessage(s: Session, events: seq<Event>)
    requires Ok(s) && Honest(s) && Handed(s)
    ensures Ok(Run(s, events)) && Honest(Run(s, events)) && Handed(Run(s, events))
    decreases |events|
  {
    if events != [] {
      StepKeepsOk(s, events[0]);
      StepKeepsHonest(s, events[0]);
      StepKeepsHanded(s, events[0]);
      CallbackGetsItsMessage(Step(s, events[0]), events[1..]);
    }
  }

  /** If all messages whose callback ran were queued on time, exactly these were accepted first, in order. */
  lemma CallbackMeansSent(s: Session)
    requires Ok(s) && Honest(s) && forall k :: 0 <= k < |s.ran| ==> s.onTime[k]
    ensures EncodeAll(Messages(s.pushed[..|s.ran|])) <= s.accepted
  {
    var n := |s.ran|;
    CountingUp(s.numbers, n);
    assert s.encoded[..n] == Messages(s.pushed[..n]);
    if n > 0 {
      assert s.numbers[n - 1] < n;
    }
  }

  /** Increasing numbers among which all those below `n` occur start with them. */
  lemma {:induction false} CountingUp(numbers: seq<nat>, n: nat)
    requires forall i, j :: 0 <= i < j < |numbers| ==> numbers[i] < numbers[j]
    requires forall k :: 0 <= k < n ==> k in numbers
    ensures n <= |numbers| && forall k :: 0 <= k < n ==> numbers[k] == k
  {
    if n > 0 {
      CountingUp(numbers, n - 1);
      assert n - 1 in numbers;
      var i :| 0 <= i < |numbers| && numbers[i] == n - 1;
      assert i >= n - 1;
      assert numbers[n - 1] <= numbers[i];
      assert n > 1 ==> numbers[n - 2] == n - 2;
    }
  }

  /**
   Every run of a fresh client that queues only while the out buffer is empty: a
   callback that has run means its message was sent.
   */
  lemma FreshClientIsHonest(s: Session, events: seq<Event>)
    requires Fresh(s) && forall k :: 0 <= k < |Run(s, events).onTime| ==> Run(s, events).onTime[k]
    ensures var r := Run(s, events);
      && |r.ran| <= |r.pushed| && Ran(r.ran) <= Dones(r.pushed)
      && EncodeAll(Messages(r.pushed[..|r.ran|])) <= r.accepted
      && r.accepted + r.conn.out == EncodeAll(r.encoded)
  {
    CallbackMeansSentIfOnTime(s, events);
    CallbackMeansSent(Run(s, events));
  }
}
