/** The encoder as it runs: a pointer moving over a packet, packets appended to the output buffer. */
module TinyPBEncoder {
  import opened Bytes
  import opened TinyPB
  import opened Framing
  import opened TinyPBStream
  import opened TcpBuffers

  /** Put `x` at the write pointer `at`; `rest` is what remains to be written of `f`. */
  method Put(buf: array<byte>, at: nat, x: bytes, ghost rest: bytes, ghost f: bytes) returns (next: nat)
    requires at <= buf.Length == |f| && buf[..at] + (x + rest) == f
    modifies buf
    ensures next == at + |x| <= buf.Length && buf[..next] + rest == f
  {
    Fill(buf, at, x);
    next := at + |x|;
    assert buf[..next] == old(buf[..at]) + x;
    assert buf[..next] + rest == old(buf[..at]) + (x + rest);
  }

  /** Print one message with a moving pointer; an oversized message gives no packet and keeps its other fields. */
  method EncodeTinyPB(m: Message) returns (packet: bytes, message: Message)
    ensures packet == Encode(m) && message == PostEncode(m)
  {
    message := m;
    if message.msgId == [] {
      message := message.(msgId := DEFAULT_MSG_ID);
    }
    var pkLen := MIN_PACKAGE_SIZE + |message.msgId| + |message.methodName| + |message.errInfo| + |message.pbData|;
    if pkLen > MAX_PACKAGE_SIZE {
      return [], message;
    }
    packet, message := WritePacket(message, pkLen);
  }

  method WritePacket(m: Message, pkLen: nat) returns (packet: bytes, message: Message)
    requires m.msgId != [] && pkLen == Size(m) <= MAX_PACKAGE_SIZE
    ensures packet == Encode(m) && message == PostEncode(m)
  {
    message := m.(pkLen := pkLen, msgIdLen := |m.msgId|, methodNameLen := |m.methodName|, errInfoLen := |m.errInfo|,
                  checkSum := 1, parseSuccess := true);
    var buf := new byte[pkLen](_ => 0);
    ghost var f := FrameOf(message);
    var tmp := Put(buf, 0, [PB_START], NetBytes(pkLen) + FromMsgId(message), f);
    tmp := Put(buf, tmp, NetBytes(pkLen), FromMsgId(message), f);
    tmp := PutText(buf, tmp, message.msgId, FromMethodName(message), f);
    tmp := PutText(buf, tmp, message.methodName, FromErrCode(message), f);
    PutErrorAndBody(buf, tmp, message, f);
    packet := buf[..];
  }

  method PutErrorAndBody(buf: array<byte>, at: nat, m: Message, ghost f: bytes)
    requires Size(m) <= MAX_PACKAGE_SIZE
    requires at <= buf.Length == |f| && buf[..at] + FromErrCode(m) == f
    modifies buf
    ensures buf[..] == f
  {
    var tmp := Put(buf, at, NetBytes(m.errCode), FromErrInfo(m), f);
    tmp := PutText(buf, tmp, m.errInfo, FromBody(m), f);
    tmp := Put(buf, tmp, m.pbData, NetBytes(m.checkSum) + [PB_END], f);
    tmp := Put(buf, tmp, NetBytes(m.checkSum), [PB_END], f);
    assert [PB_END] + [] == [PB_END];
    tmp := Put(buf, tmp, [PB_END], [], f);
    assert buf[..] == buf[..tmp] + [];
  }

  /** A length and, unless it is empty, the text. */
  method PutText(buf: array<byte>, at: nat, x: bytes, ghost rest: bytes, ghost f: bytes) returns (next: nat)
    requires |x| <= MAX_PACKAGE_SIZE
    requires at <= buf.Length == |f| && buf[..at] + (Block(x) + rest) == f
    modifies buf
    ensures next == at + 4 + |x| <= buf.Length && buf[..next] + rest == f
  {
    assert Block(x) + rest == NetBytes(|x|) + (x + rest);
    next := Put(buf, at, NetBytes(|x|), x + rest, f);
    if |x| > 0 {
      next := Put(buf, next, x, rest, f);
    } else {
      assert x + rest == rest;
    }
  }

  /** `printed` and `posted` name what each message prints as and turns into. */
  ghost predicate Names(printed: Message -> bytes, posted: Message -> seq<Message>) {
    (forall m {:trigger Encode(m)} :: printed(m) == Encode(m)) && (forall m {:trigger PostEncode(m)} :: posted(m) == [PostEncode(m)])
  }

  method AppendPacket(m: Message, out: TcpBuffer, ghost printed: Message -> bytes, ghost posted: Message -> seq<Message>)
    returns (message: Message)
    requires out.Valid() && Names(printed, posted)
    modifies out, out.data
    ensures out.Valid() && (out.data == old(out.data) || fresh(out.data))
    ensures out.Contents() == old(out.Contents()) + printed(m) && posted(m) == [message]
  {
    var packet: bytes;
    packet, message := EncodeTinyPB(m);
    if |packet| != 0 {
      out.WriteToBuffer(packet);
    }
  }

  /** Append the packets of all messages to the buffer, in order; the messages keep the fields the encoder filled in. */
  method EncodeBuffer(messages: seq<Message>, out: TcpBuffer) returns (encoded: seq<Message>)
    requires out.Valid()
    modifies out, out.data
    ensures out.Valid() && (out.data == old(out.data) || fresh(out.data))
    ensures out.Contents() == old(out.Contents()) + EncodeAll(messages)
    ensures encoded == FlatMap(Posted, messages)
  {
    encoded := EncodeEach(messages, out, Encode, Posted);
  }

  function Posted(m: Message): seq<Message> {
    [PostEncode(m)]
  }

  /** The loop of the encoder, for any names of what one message prints as and turns into. */
  method EncodeEach(messages: seq<Message>, out: TcpBuffer, ghost printed: Message -> bytes, ghost posted: Message -> seq<Message>)
    returns (encoded: seq<Message>)
    requires out.Valid() && Names(printed, posted)
    modifies out, out.data
    ensures out.Valid() && (out.data == old(out.data) || fresh(out.data))
    ensures out.Contents() == old(out.Contents()) + FlatMap(printed, messages)
    ensures encoded == FlatMap(posted, messages)
  {
    encoded := [];
    ghost var before := out.Contents();
    for i := 0 to |messages|
      invariant out.Valid() && (out.data == old(out.data) || fresh(out.data))
      invariant out.Contents() == before + FlatMap(printed, messages[..i])
      invariant encoded == FlatMap(posted, messages[..i])
    {
      var message := AppendPacket(messages[i], out, printed, posted);
      encoded := encoded + [message];
      FlatMapOfOneMore(printed, messages, i);
      FlatMapOfOneMore(posted, messages, i);
    }
    assert messages[..|messages|] == messages;
  }
}
