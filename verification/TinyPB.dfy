/**
 The TinyPB wire format: the message record, the bytes of one packet, and the
 parser of one packet. The printer and the parser are proved inverse to each other.
 */
module TinyPB {
  import opened Bytes

  const PB_START: byte := 2
  const PB_END: byte := 3
  const MIN_PACKAGE_SIZE: int := 26
  const MAX_PACKAGE_SIZE: int := 10 * 1024 * 1024
  const DEFAULT_MSG_ID: bytes := [49, 50, 51, 52, 53, 54, 55, 56, 57]

  datatype Message = Message(
    pkLen: int32, msgIdLen: int32, msgId: bytes, methodNameLen: int32, methodName: bytes,
    errCode: int32, errInfoLen: int32, errInfo: bytes, pbData: bytes, checkSum: int32, parseSuccess: bool)

  /** Which check of the decoder rejected a packet. */
  datatype ParseError =
    | MsgIdLenIncomplete | MsgIdInvalid | MethodLenIncomplete | MethodInvalid | ErrCodeIncomplete
    | ErrInfoLenIncomplete | ErrInfoInvalid | BodyLengthInvalid | ChecksumIncomplete

  datatype ParseResult = Parsed(message: Message) | Rejected(error: ParseError)

  /** Length of the packet that carries `m`. */
  function Size(m: Message): nat {
    MIN_PACKAGE_SIZE + |m.msgId| + |m.methodName| + |m.errInfo| + |m.pbData|
  }

  /** The length fields of `m` describe its contents: true of every decoded or encoded message. */
  predicate Consistent(m: Message) {
    && Size(m) <= MAX_PACKAGE_SIZE
    && m.pkLen == Size(m) && m.msgIdLen == |m.msgId| && m.methodNameLen == |m.methodName|
    && m.errInfoLen == |m.errInfo| && m.parseSuccess
  }

  // ---------- printing ----------

  /** A length-prefixed string. */
  function Block(x: bytes): (b: bytes)
    requires |x| <= MAX_PACKAGE_SIZE
    ensures |b| == 4 + |x|
  {
    NetBytes(|x|) + x
  }

  /** The packet of `m`, field by field, each with everything that follows it. */
  function FrameOf(m: Message): (f: bytes)
    requires Size(m) <= MAX_PACKAGE_SIZE
    ensures |f| == Size(m)
  {
    [PB_START] + (NetBytes(Size(m)) + FromMsgId(m))
  }

  function FromMsgId(m: Message): (f: bytes)
    requires Size(m) <= MAX_PACKAGE_SIZE
    ensures |f| == Size(m) - 5
  {
    Block(m.msgId) + FromMethodName(m)
  }

  function FromMethodName(m: Message): (f: bytes)
    requires Size(m) <= MAX_PACKAGE_SIZE
    ensures |f| == Size(m) - 9 - |m.msgId|
  {
    Block(m.methodName) + FromErrCode(m)
  }

  function FromErrCode(m: Message): (f: bytes)
    requires Size(m) <= MAX_PACKAGE_SIZE
    ensures |f| == 13 + |m.errInfo| + |m.pbData|
  {
    NetBytes(m.errCode) + FromErrInfo(m)
  }

  function FromErrInfo(m: Message): (f: bytes)
    requires Size(m) <= MAX_PACKAGE_SIZE
    ensures |f| == 9 + |m.errInfo| + |m.pbData|
  {
    Block(m.errInfo) + FromBody(m)
  }

  function FromBody(m: Message): (f: bytes)
    ensures |f| == 5 + |m.pbData|
  {
    m.pbData + (NetBytes(m.checkSum) + [PB_END])
  }

  // ---------- parsing ----------

  predicate CanReadInt32(index: int, limit: int) {
    index >= 0 && index + 4 <= limit
  }

  predicate CanReadField(index: int, len: int, limit: int) {
    len >= 0 && index >= 0 && index + len <= limit
  }

  datatype BlockResult = NoLength | BadLength | Got(text: bytes, next: nat)

  /** Read a length-prefixed string at `cursor`, staying below `limit`. */
  function ReadBlock(f: bytes, cursor: nat, limit: nat): BlockResult
    requires limit <= |f|
  {
    if !CanReadInt32(cursor, limit) then NoLength
    else
      var len := Int32At(f, cursor);
      if !CanReadField(cursor + 4, len, limit) then BadLength
      else Got(f[cursor + 4..cursor + 4 + len], cursor + 4 + len)
  }

  /** `f` has a valid declared length, which is its own length, and carries both flags. */
  predicate Delimited(f: bytes) {
    && MIN_PACKAGE_SIZE <= |f| <= MAX_PACKAGE_SIZE
    && f[0] == PB_START && Int32At(f, 1) == |f| && f[|f| - 1] == PB_END
  }

  /**
   The fields of a packet, or the first check that fails. Three of the nine
   checks of the decoder can never be the one that fails.
   */
  function ParseFrame(f: bytes): (r: ParseResult)
    requires MIN_PACKAGE_SIZE <= |f| <= MAX_PACKAGE_SIZE
    ensures r.Rejected? ==> r.error !in {MsgIdLenIncomplete, BodyLengthInvalid, ChecksumIncomplete}
  {
    match ReadBlock(f, 5, |f| - 5)
    case NoLength => Rejected(MsgIdLenIncomplete)
    case BadLength => Rejected(MsgIdInvalid)
    case Got(msgId, cursor) => ParseFromMethodName(f, msgId, cursor)
  }

  function ParseFromMethodName(f: bytes, msgId: bytes, cursor: nat): (r: ParseResult)
    requires MIN_PACKAGE_SIZE <= |f| <= MAX_PACKAGE_SIZE
    requires |msgId| <= |f|
    ensures r.Rejected? ==> r.error !in {MsgIdLenIncomplete, BodyLengthInvalid, ChecksumIncomplete}
  {
    match ReadBlock(f, cursor, |f| - 5)
    case NoLength => Rejected(MethodLenIncomplete)
    case BadLength => Rejected(MethodInvalid)
    case Got(name, next) => ParseFromErrCode(f, msgId, name, next)
  }

  function ParseFromErrCode(f: bytes, msgId: bytes, name: bytes, cursor: nat): (r: ParseResult)
    requires MIN_PACKAGE_SIZE <= |f| <= MAX_PACKAGE_SIZE
    requires |msgId| <= |f| && |name| <= |f|
    ensures r.Rejected? ==> r.error !in {MsgIdLenIncomplete, BodyLengthInvalid, ChecksumIncomplete}
  {
    if !CanReadInt32(cursor, |f| - 5) then Rejected(ErrCodeIncomplete)
    else
      match ReadBlock(f, cursor + 4, |f| - 5)
      case NoLength => Rejected(ErrInfoLenIncomplete)
      case BadLength => Rejected(ErrInfoInvalid)
      case Got(info, next) => ParseFromBody(f, msgId, name, Int32At(f, cursor), info, next)
  }

  /** The body and the checksum, once the other fields are known. */
  function ParseFromBody(f: bytes, msgId: bytes, name: bytes, errCode: int32, info: bytes, cursor: nat): ParseResult
    requires MIN_PACKAGE_SIZE <= |f| <= MAX_PACKAGE_SIZE
    requires |msgId| <= |f| && |name| <= |f| && |info| <= |f|
  {
    var limit := |f| - 5;
    if limit - cursor < 0 then Rejected(BodyLengthInvalid)
    else if !CanReadInt32(limit, |f| - 1) then Rejected(ChecksumIncomplete)
    else Parsed(Message(|f|, |msgId|, msgId, |name|, name, errCode, |info|, info,
                        f[cursor..limit], Int32At(f, limit), true))
  }

  // ---------- the printer and the parser are inverse ----------

  lemma IntReadsBack(f: bytes, cursor: nat, v: int32, post: bytes)
    requires cursor <= |f| && f[cursor..] == NetBytes(v) + post
    ensures cursor + 4 <= |f| && Int32At(f, cursor) == v && f[cursor + 4..] == post
  {
    ReadOfWritten(v);
    assert f[cursor..cursor + 4] == f[cursor..][..4] == NetBytes(v)[0..4];
    assert f[cursor + 4..] == f[cursor..][4..];
  }

  lemma BlockReadsBack(f: bytes, cursor: nat, x: bytes, post: bytes, limit: nat)
    requires |x| <= MAX_PACKAGE_SIZE
    requires cursor <= |f| && f[cursor..] == Block(x) + post
    requires cursor + 4 + |x| <= limit <= |f|
    ensures ReadBlock(f, cursor, limit) == Got(x, cursor + 4 + |x|)
    ensures f[cursor + 4 + |x|..] == post
  {
    assert f[cursor..] == NetBytes(|x|) + (x + post);
    IntReadsBack(f, cursor, |x|, x + post);
    assert f[cursor + 4..cursor + 4 + |x|] == f[cursor + 4..][..|x|];
    assert f[cursor + 4 + |x|..] == f[cursor + 4..][|x|..];
  }

  lemma IntPrintsBack(f: bytes, cursor: nat)
    requires cursor + 4 <= |f|
    ensures f[cursor..] == NetBytes(Int32At(f, cursor)) + f[cursor + 4..]
  {
    WrittenOfRead(f, cursor);
    assert f[cursor..] == f[cursor..cursor + 4] + f[cursor + 4..];
  }

  lemma BlockPrintsBack(f: bytes, cursor: nat, limit: nat)
    requires limit <= |f| <= MAX_PACKAGE_SIZE
    requires ReadBlock(f, cursor, limit).Got?
    ensures var r := ReadBlock(f, cursor, limit);
      r.next == cursor + 4 + |r.text| <= limit && f[cursor..] == Block(r.text) + f[r.next..]
  {
    var r := ReadBlock(f, cursor, limit);
    IntPrintsBack(f, cursor);
    assert f[cursor + 4..] == r.text + f[r.next..];
  }

  /** Every printed packet is delimited. */
  lemma FrameIsDelimited(m: Message)
    requires Size(m) <= MAX_PACKAGE_SIZE
    ensures Delimited(FrameOf(m)) && FrameOf(m)[5..] == FromMsgId(m)
  {
    var f := FrameOf(m);
    assert f[1..] == NetBytes(Size(m)) + FromMsgId(m);
    IntReadsBack(f, 1, Size(m), FromMsgId(m));
    assert f[|f| - 1] == FromMsgId(m)[|FromMsgId(m)| - 1] == FromMethodName(m)[|FromMethodName(m)| - 1] == PB_END;
  }

  /** The layout of a packet: flag, lengths, fields and checksum in this order, 26 bytes more than the texts, at most 10 MiB. */
  lemma WireLayout(m: Message)
    requires Size(m) <= MAX_PACKAGE_SIZE
    ensures var n := 26 + |m.msgId| + |m.methodName| + |m.errInfo| + |m.pbData|;
      && |FrameOf(m)| == n <= 10485760
      && FrameOf(m) == [2] + NetBytes(n) + NetBytes(|m.msgId|) + m.msgId + NetBytes(|m.methodName|) + m.methodName
                       + NetBytes(m.errCode) + NetBytes(|m.errInfo|) + m.errInfo + m.pbData + NetBytes(m.checkSum) + [3]
  {
  }

  /** A packet as the decoder takes it off the stream. */
  lemma DelimitedPackets(f: bytes)
    ensures Delimited(f) <==> 26 <= |f| <= 10485760 && f[0] == 2 && Int32At(f, 1) == |f| && f[|f| - 1] == 3
  {
  }

  /** Parsing what was printed gives the message, for every content of the fields. */
  lemma ParseOfPrinted(m: Message)
    requires Consistent(m)
    ensures ParseFrame(FrameOf(m)) == Parsed(m)
  {
    var f := FrameOf(m);
    FrameIsDelimited(m);
    BlockReadsBack(f, 5, m.msgId, FromMethodName(m), |f| - 5);
    MethodNameReadsBack(f, 9 + |m.msgId|, m);
  }

  lemma MethodNameReadsBack(f: bytes, cursor: nat, m: Message)
    requires Consistent(m) && |f| == Size(m)
    requires cursor == 9 + |m.msgId| && f[cursor..] == FromMethodName(m)
    ensures ParseFromMethodName(f, m.msgId, cursor) == Parsed(m)
  {
    BlockReadsBack(f, cursor, m.methodName, FromErrCode(m), |f| - 5);
    ErrCodeReadsBack(f, cursor + 4 + |m.methodName|, m);
  }

  lemma ErrCodeReadsBack(f: bytes, cursor: nat, m: Message)
    requires Consistent(m) && |f| == Size(m)
    requires cursor == 13 + |m.msgId| + |m.methodName| && f[cursor..] == FromErrCode(m)
    ensures ParseFromErrCode(f, m.msgId, m.methodName, cursor) == Parsed(m)
  {
    IntReadsBack(f, cursor, m.errCode, FromErrInfo(m));
    BlockReadsBack(f, cursor + 4, m.errInfo, FromBody(m), |f| - 5);
    BodyReadsBack(f, cursor + 8 + |m.errInfo|, m);
  }

  lemma BodyReadsBack(f: bytes, cursor: nat, m: Message)
    requires Consistent(m) && |f| == Size(m)
    requires cursor == |f| - 5 - |m.pbData| && f[cursor..] == FromBody(m)
    ensures ParseFromBody(f, m.msgId, m.methodName, m.errCode, m.errInfo, cursor) == Parsed(m)
  {
    var limit := |f| - 5;
    assert f[cursor..limit] == f[cursor..][..|m.pbData|] == m.pbData;
    assert f[limit..] == f[cursor..][|m.pbData|..] == NetBytes(m.checkSum) + [PB_END];
    IntReadsBack(f, limit, m.checkSum, [PB_END]);
  }

  /** Printing what was parsed gives the packet back, byte for byte. */
  lemma PrintOfParsed(f: bytes)
    requires Delimited(f)
    requires ParseFrame(f).Parsed?
    ensures Consistent(ParseFrame(f).message)
    ensures FrameOf(ParseFrame(f).message) == f
  {
    var m := ParseFrame(f).message;
    BlockPrintsBack(f, 5, |f| - 5);
    var r := ReadBlock(f, 5, |f| - 5);
    MethodNamePrintsBack(f, r.text, r.next);
    IntPrintsBack(f, 1);
    assert f == [PB_START] + f[1..];
  }

  lemma MethodNamePrintsBack(f: bytes, msgId: bytes, cursor: nat)
    requires Delimited(f) && cursor == 9 + |msgId| && |msgId| <= |f|
    requires ParseFromMethodName(f, msgId, cursor).Parsed?
    ensures var m := ParseFromMethodName(f, msgId, cursor).message;
      m.msgId == msgId && Consistent(m) && Size(m) == |f| && f[cursor..] == FromMethodName(m)
  {
    BlockPrintsBack(f, cursor, |f| - 5);
    var r := ReadBlock(f, cursor, |f| - 5);
    ErrCodePrintsBack(f, msgId, r.text, r.next);
  }

  lemma ErrCodePrintsBack(f: bytes, msgId: bytes, name: bytes, cursor: nat)
    requires Delimited(f) && cursor == 13 + |msgId| + |name| && cursor <= |f|
    requires ParseFromErrCode(f, msgId, name, cursor).Parsed?
    ensures var m := ParseFromErrCode(f, msgId, name, cursor).message;
      m.msgId == msgId && m.methodName == name && Consistent(m) && Size(m) == |f| && f[cursor..] == FromErrCode(m)
  {
    IntPrintsBack(f, cursor);
    BlockPrintsBack(f, cursor + 4, |f| - 5);
    var r := ReadBlock(f, cursor + 4, |f| - 5);
    BodyPrintsBack(f, ParseFromErrCode(f, msgId, name, cursor).message, r.next);
  }

  lemma BodyPrintsBack(f: bytes, m: Message, cursor: nat)
    requires Delimited(f) && cursor <= |f| - 5
    requires |m.msgId| <= |f| && |m.methodName| <= |f| && |m.errInfo| <= |f|
    requires ParseFromBody(f, m.msgId, m.methodName, m.errCode, m.errInfo, cursor) == Parsed(m)
    ensures f[cursor..] == FromBody(m)
  {
    var limit := |f| - 5;
    IntPrintsBack(f, limit);
    assert f[cursor..] == m.pbData + f[limit..];
    assert f[limit + 4..] == [PB_END];
  }

  /**
   The packets the decoder accepts are exactly the printed ones: the only freedom
   a sender has is the checksum.
   */
  lemma AcceptedFramesAreThePrintedOnes(f: bytes)
    requires Delimited(f)
    ensures ParseFrame(f).Parsed? <==> exists m :: Consistent(m) && FrameOf(m) == f
  {
    if ParseFrame(f).Parsed? {
      PrintOfParsed(f);
    }
    forall m | Consistent(m) && FrameOf(m) == f ensures ParseFrame(f).Parsed? {
      ParseOfPrinted(m);
    }
  }
}
