/**
 The TinyPB stream: what the encoder appends to an output buffer for a list of
 messages, and what the resynchronising decoder makes of any byte string. The
 decoder is shown to be independent of how the stream is cut, to leave only a
 bounded unfinished packet behind, to skip damage, and to invert the encoder.
 */
module TinyPBStream {
  import opened Bytes
  import opened TinyPB
  import opened Framing

  // ---------- encoding ----------

  /** `m` as the encoder sees it once an empty id was replaced. */
  function Named(m: Message): Message {
    if m.msgId == [] then m.(msgId := DEFAULT_MSG_ID) else m
  }

  predicate Encodable(m: Message) {
    Size(Named(m)) <= MAX_PACKAGE_SIZE
  }

  /** The record the encoder leaves behind; an oversized message only gets its id. */
  function PostEncode(m: Message): (r: Message)
    ensures Encodable(m) ==> Consistent(r)
  {
    var n := Named(m);
    if !Encodable(m) then n
    else n.(pkLen := Size(n), msgIdLen := |n.msgId|, methodNameLen := |n.methodName|, errInfoLen := |n.errInfo|,
            checkSum := 1, parseSuccess := true)
  }

  /** The bytes of one message; an oversized one produces none. */
  function Encode(m: Message): bytes {
    if Encodable(m) then FrameOf(PostEncode(m)) else []
  }

  /** What the encoder appends to the output buffer for a list of messages. */
  function EncodeAll(ms: seq<Message>): bytes {
    FlatMap(Encode, ms)
  }

  lemma EncodeAllGrows(ms: seq<Message>, more: seq<Message>)
    ensures EncodeAll(ms + more) == EncodeAll(ms) + EncodeAll(more)
  {
    FlatMapOfAppended(Encode, ms, more);
  }

  function SentOne(m: Message): seq<Message> {
    if Encodable(m) then [PostEncode(m)] else []
  }

  /** The messages a receiver is meant to see, in order. */
  function Sent(ms: seq<Message>): seq<Message> {
    FlatMap(SentOne, ms)
  }

  // ---------- decoding ----------

  /** The message one complete packet contributes, or none if its fields are bad. */
  function Emitted(f: bytes): seq<Message>
    requires Delimited(f)
  {
    match ParseFrame(f)
    case Parsed(m) => [m]
    case Rejected(_) => []
  }

  /**
   One decision of the decoder on the readable bytes: drop a byte that cannot
   start a packet, wait for the rest of a packet, or take a whole packet.
   */
  function Next(s: bytes): (a: Action<Message>)
    ensures s != [] && a.Take? ==> 0 < a.count <= |s|
  {
    if s == [] then Wait
    else if s[0] != PB_START then Take(1, [])
    else if |s| < 5 then Wait
    else AtHeader(s, Int32At(s, 1))
  }

  function AtHeader(s: bytes, pkLen: int): (a: Action<Message>)
    requires |s| >= 5 && s[0] == PB_START && pkLen == Int32At(s, 1)
    ensures a.Take? ==> 0 < a.count <= |s|
  {
    if pkLen < MIN_PACKAGE_SIZE || pkLen > MAX_PACKAGE_SIZE then Take(1, [])
    else if pkLen > |s| then Wait
    else if s[pkLen - 1] != PB_END then Take(1, [])
    else
      ReadInSlice(s, 0, pkLen, 1);
      Take(pkLen, Emitted(s[..pkLen]))
  }

  /** The messages found in `s`, and the bytes the decoder leaves in the buffer. */
  function Decode(s: bytes): Decoded<Message> {
    Run(Next, s)
  }

  // ---------- independence of the cutting ----------

  lemma NextOfAppended(s: bytes, t: bytes)
    requires Takes(Next, s)
    ensures Next(s + t) == Next(s)
  {
    if s[0] == PB_START {
      var u := s + t;
      assert u[0..|s|] == s;
      ReadInSlice(u, 0, |s|, 1);
      var n := Next(s).count;
      assert u[..n] == s[..n];
    }
  }

  lemma NextIsSteady()
    ensures Steady(Next)
  {
    forall s: bytes, t: bytes {:trigger Next(s + t)} | Takes(Next, s) ensures Next(s + t) == Next(s) {
      NextOfAppended(s, t);
    }
  }

  /** Decoding `s`, then going on when `t` arrives, is decoding `s + t` at once. */
  lemma DecodeOfAppended(s: bytes, t: bytes)
    ensures Decode(s + t) == Continue(Next, Decode(s), t)
  {
    NextIsSteady();
    RunOfAppended(Next, s, t);
  }

  /**
   Chunk independence: for every byte stream, valid or not, and every way of
   cutting it, calling the decoder after each chunk gives the messages and the
   leftover of one decode of the whole stream.
   */
  lemma CuttingDoesNotMatter(chunks: seq<bytes>)
    ensures RunChunks(Next, Decoded([], []), chunks) == Decode(Concat(chunks))
  {
    NextIsSteady();
    RunOfChunks(Next, [], Decoded([], []), chunks, Concat(chunks));
  }

  /** What was decoded from a stream is never taken back when the stream grows. */
  lemma DecodedIsPrefix(s: bytes, t: bytes)
    ensures Decode(s).messages <= Decode(s + t).messages
  {
    DecodeOfAppended(s, t);
  }

  // ---------- what is left over ----------

  /** The beginning of a packet whose end has not arrived. */
  predicate Unfinished(r: bytes) {
    r == [] ||
    (r[0] == PB_START &&
     (|r| < 5 || (MIN_PACKAGE_SIZE <= Int32At(r, 1) <= MAX_PACKAGE_SIZE && |r| < Int32At(r, 1))))
  }

  lemma TakesUnlessUnfinished(s: bytes)
    ensures Takes(Next, s) <==> !Unfinished(s)
  {
  }

  /** The decoder leaves its input untouched exactly when it is an unfinished packet. */
  lemma FixedPoints(s: bytes)
    ensures Decode(s) == Decoded([], s) <==> Unfinished(s)
  {
    TakesUnlessUnfinished(s);
    RestIsStuck(Next, s);
  }

  /** What decode leaves is a suffix of its input, unfinished, under 10 MiB, and a fixed point of decode. */
  lemma LeftoverIsUnfinished(s: bytes)
    ensures var r := Decode(s).rest;
      Unfinished(r) && |r| < MAX_PACKAGE_SIZE && Decode(r) == Decoded([], r) && r == s[|s| - |r|..]
  {
    RestIsStuck(Next, s);
    TakesUnlessUnfinished(Decode(s).rest);
  }

  // ---------- damage ----------

  lemma OtherBytesAreDull(b: byte)
    requires b != PB_START
    ensures Dull(Next, b)
  {
  }

  /** Bytes without a start flag in front of a stream change nothing. */
  lemma GarbageIsSkipped(g: bytes, t: bytes)
    requires PB_START !in g
    ensures Decode(g + t) == Decode(t)
  {
    forall i | 0 <= i < |g| ensures Dull(Next, g[i]) {
      OtherBytesAreDull(g[i]);
    }
    RunOfDull(Next, g, t);
  }

  lemma DelimitedIsFrame(f: bytes)
    requires Delimited(f)
    ensures IsFrame(Next, f, Emitted(f))
  {
    forall t: bytes ensures Next(f + t) == Take(|f|, Emitted(f)) {
      var s := f + t;
      assert s[0..|f|] == f;
      ReadInSlice(s, 0, |f|, 1);
      assert s[..|f|] == f;
    }
  }

  /** A complete packet with the right length and flags contributes its message, if any, whatever follows. */
  lemma PacketInFront(f: bytes, t: bytes)
    requires Delimited(f)
    ensures Decode(f + t) == Prepend(Emitted(f), Decode(t))
  {
    DelimitedIsFrame(f);
    RunOfFrame(Next, f, Emitted(f), t);
  }

  /** A complete packet whose inner lengths do not fit changes nothing. */
  lemma BadPacketIsSkipped(f: bytes, t: bytes)
    requires Delimited(f) && ParseFrame(f).Rejected?
    ensures Decode(f + t) == Decode(t)
  {
    DelimitedIsFrame(f);
    RunOfFrame(Next, f, Emitted(f), t);
    assert [] + Run(Next, t).messages == Run(Next, t).messages;
  }

  // ---------- round trip ----------

  /** A proper prefix of an encoded packet is unfinished. */
  lemma PrefixOfEncodedIsUnfinished(m: Message, p: bytes)
    requires Encodable(m) && p < Encode(m)
    ensures Unfinished(p)
  {
    var f := Encode(m);
    FrameIsDelimited(PostEncode(m));
    assert p == f[0..|p|];
    if |p| >= 5 {
      ReadInSlice(f, 0, |p|, 1);
    }
  }

  lemma EncodedIsFrame(m: Message)
    requires Encodable(m)
    ensures IsFrame(Next, Encode(m), [PostEncode(m)])
  {
    FrameIsDelimited(PostEncode(m));
    ParseOfPrinted(PostEncode(m));
    DelimitedIsFrame(Encode(m));
  }

  /** Encoded messages in front of any stream are decoded first, in order, and leave the rest as it is. */
  lemma DecodeOfEncodedThen(ms: seq<Message>, t: bytes)
    ensures Decode(EncodeAll(ms) + t) == Prepend(Sent(ms), Decode(t))
  {
    forall i | 0 <= i < |ms|
      ensures IsFrame(Next, Encode(ms[i]), SentOne(ms[i])) || (Encode(ms[i]) == [] && SentOne(ms[i]) == [])
    {
      if Encodable(ms[i]) {
        EncodedIsFrame(ms[i]);
      }
    }
    RunOfPrinted(Next, Encode, SentOne, ms, t, Run(Next, t), EncodeAll(ms) + t);
  }

  /**
   Round trip: for every list of messages and every proper prefix `p` of one more
   packet, decoding gives the post-encode records in order and leaves exactly `p`.
   */
  lemma RoundTrip(ms: seq<Message>, following: Message, p: bytes)
    requires Encodable(following) && p < Encode(following)
    ensures Decode(EncodeAll(ms) + p) == Decoded(Sent(ms), p)
  {
    DecodeOfEncodedThen(ms, p);
    PrefixOfEncodedIsUnfinished(following, p);
    FixedPoints(p);
  }

  /** Canonical packets: re-encoding a decoded message gives its packet up to the checksum and the default id. */
  lemma ReencodingRestoresThePacket(f: bytes, m: Message)
    requires Delimited(f) && ParseFrame(f) == Parsed(m)
    ensures |f| == MIN_PACKAGE_SIZE + m.msgIdLen + m.methodNameLen + m.errInfoLen + |m.pbData|
    ensures f == FrameOf(m)
    ensures m.msgId != [] ==> Encode(m) == f[..|f| - 5] + (NetBytes(1) + [PB_END])
    ensures m.msgId == [] && Encodable(m) ==> Encode(m) == FrameOf(m.(msgId := DEFAULT_MSG_ID, checkSum := 1))
  {
    PrintOfParsed(f);
    ReencodingConsistent(m);
  }

  lemma ReencodingConsistent(m: Message)
    requires Consistent(m)
    ensures m.msgId != [] ==> Encode(m) == FrameOf(m)[..Size(m) - 5] + (NetBytes(1) + [PB_END])
    ensures m.msgId == [] && Encodable(m) ==> Encode(m) == FrameOf(m.(msgId := DEFAULT_MSG_ID, checkSum := 1))
  {
    if m.msgId != [] {
      assert PostEncode(m) == m.(checkSum := 1);
      OnlyTheChecksumDiffers(m, 1);
    }
  }

  /** Two byte strings that end in a checksum and agree before it still do behind a common prefix. */
  lemma BehindAPrefix(x: bytes, a: bytes, b: bytes, tail: bytes)
    requires |a| >= 5 && b == a[..|a| - 5] + tail
    ensures x + b == (x + a)[..|x| + |a| - 5] + tail
  {
    assert (x + a)[..|x| + |a| - 5] == x + a[..|a| - 5];
  }

  lemma OnlyTheChecksumDiffers(m: Message, c: int32)
    requires Size(m) <= MAX_PACKAGE_SIZE
    ensures FrameOf(m.(checkSum := c)) == FrameOf(m)[..Size(m) - 5] + (NetBytes(c) + [PB_END])
  {
    var n, tail := m.(checkSum := c), NetBytes(c) + [PB_END];
    assert FromBody(m)[..|m.pbData|] == m.pbData;
    BehindAPrefix(Block(m.errInfo), FromBody(m), FromBody(n), tail);
    BehindAPrefix(NetBytes(m.errCode), FromErrInfo(m), FromErrInfo(n), tail);
    BehindAPrefix(Block(m.methodName), FromErrCode(m), FromErrCode(n), tail);
    BehindAPrefix(Block(m.msgId), FromMethodName(m), FromMethodName(n), tail);
    BehindAPrefix(NetBytes(Size(m)), FromMsgId(m), FromMsgId(n), tail);
    BehindAPrefix([PB_START], NetBytes(Size(m)) + FromMsgId(m), NetBytes(Size(m)) + FromMsgId(n), tail);
  }
}
