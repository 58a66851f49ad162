/** The decoder as it runs: cursors over the connection buffer, proved to compute what the stream decoder says. */
module TinyPBDecoder {
  import opened Bytes
  import opened TinyPB
  import opened Framing
  import opened TinyPBStream
  import opened TcpBuffers

  // ---------- how one turn of the loop relates to the stream ----------

  lemma ScanSkips(s: bytes, k: nat)
    requires k <= |s| && PB_START !in s[..k]
    ensures Decode(s) == Decode(s[k..])
  {
    assert s == s[..k] + s[k..];
    GarbageIsSkipped(s[..k], s[k..]);
  }

  lemma HeaderSkips(s: bytes)
    requires |s| >= 5 && s[0] == PB_START
    requires var n := Int32At(s, 1);
      !(MIN_PACKAGE_SIZE <= n <= MAX_PACKAGE_SIZE) || (n <= |s| && s[n - 1] != PB_END)
    ensures Decode(s) == Decode(s[1..])
  {
    assert Next(s) == Take(1, []);
    assert [] + Run(Next, s[1..]).messages == Run(Next, s[1..]).messages;
  }

  lemma PacketTaken(s: bytes, n: nat)
    requires n <= |s| && Delimited(s[..n])
    ensures Decode(s) == Prepend(Emitted(s[..n]), Decode(s[n..]))
  {
    assert s == s[..n] + s[n..];
    PacketInFront(s[..n], s[n..]);
  }

  lemma PrependTwice(a: seq<Message>, b: seq<Message>, d: Decoded<Message>)
    ensures Prepend(a, Prepend(b, d)) == Prepend(a + b, d)
  {
    assert a + (b + d.messages) == a + b + d.messages;
  }

  function ReadStringField(data: bytes, index: nat, len: int): bytes
    requires 0 <= len && index + len <= |data|
  {
    if len == 0 then [] else data[index..index + len]
  }

  // ---------- decoding ----------

  /** One length-prefixed field of the packet `tmp[start..end]`, read at `cursor` and staying below its checksum. */
  method ReadTextField(tmp: bytes, start: nat, end: nat, cursor: nat)
    returns (ok: bool, len: int32, text: bytes, next: nat)
    requires start <= cursor && start + 5 <= end <= |tmp|
    ensures ok <==> ReadBlock(tmp[start..end], cursor - start, end - start - 5).Got?
    ensures ok ==> len == |text| && start <= next
    ensures ok ==> ReadBlock(tmp[start..end], cursor - start, end - start - 5) == Got(text, next - start)
  {
    var checksumIndex := end - 5;
    ok, len, text, next := true, 0, [], cursor;
    if !CanReadInt32(next, checksumIndex) {
      ok := false;
    } else {
      len := Int32At(tmp, next);
      ReadInSlice(tmp, start, end, cursor - start);
      next := next + 4;
    }
    if ok && !CanReadField(next, len, checksumIndex) {
      ok := false;
    } else if ok {
      text := ReadStringField(tmp, next, len);
      SliceOfSlice(tmp, start, end, next - start, next - start + len);
      next := next + len;
    }
  }

  /**
   Read the fields of the packet `tmp[start..end]` with a moving cursor, stopping
   at the first field that does not fit.
   */
  method ParsePacket(tmp: bytes, start: nat, end: nat) returns (ok: bool, message: Message)
    requires start <= end <= |tmp| && MIN_PACKAGE_SIZE <= end - start <= MAX_PACKAGE_SIZE
    ensures ok <==> ParseFrame(tmp[start..end]).Parsed?
    ensures ok ==> ParseFrame(tmp[start..end]) == Parsed(message)
  {
    message := Message(end - start, 0, [], 0, [], 0, 0, [], [], 0, false);
    var len: int32, text: bytes, cursor: nat;
    ok, len, text, cursor := ReadTextField(tmp, start, end, start + 5);
    if !ok { return; }
    ok, message := ParseMethodName(tmp, start, end, cursor, message.(msgIdLen := len, msgId := text));
  }

  /** The method name and what follows it, once the id is read. */
  method ParseMethodName(tmp: bytes, start: nat, end: nat, at: nat, partial: Message) returns (ok: bool, message: Message)
    requires start <= at && start <= end <= |tmp| && MIN_PACKAGE_SIZE <= end - start <= MAX_PACKAGE_SIZE
    requires partial.pkLen == end - start
    requires partial.msgIdLen == |partial.msgId| <= end - start
    ensures var r := ParseFromMethodName(tmp[start..end], partial.msgId, at - start);
      (ok <==> r.Parsed?) && (ok ==> r == Parsed(message))
  {
    var len: int32, text: bytes, cursor: nat;
    message := partial;
    ok, len, text, cursor := ReadTextField(tmp, start, end, at);
    if !ok { return; }
    ok, message := ParseErrorAndBody(tmp, start, end, cursor, message.(methodNameLen := len, methodName := text));
  }

  /** The error fields, the body and the checksum of the packet, once the id and the method name are read. */
  method ParseErrorAndBody(tmp: bytes, start: nat, end: nat, at: nat, partial: Message)
    returns (ok: bool, message: Message)
    requires start <= at && start <= end <= |tmp| && MIN_PACKAGE_SIZE <= end - start <= MAX_PACKAGE_SIZE
    requires partial.pkLen == end - start
    requires partial.msgIdLen == |partial.msgId| <= end - start
    requires partial.methodNameLen == |partial.methodName| <= end - start
    ensures var r := ParseFromErrCode(tmp[start..end], partial.msgId, partial.methodName, at - start);
      (ok <==> r.Parsed?) && (ok ==> r == Parsed(message))
  {
    var checksumIndex := end - 5;
    var cursor := at;
    message := partial;
    if !CanReadInt32(cursor, checksumIndex) {
      return false, message;
    }
    ReadInSlice(tmp, start, end, cursor - start);
    message := message.(errCode := Int32At(tmp, cursor));
    var len: int32, text: bytes;
    ok, len, text, cursor := ReadTextField(tmp, start, end, cursor + 4);
    if !ok { return; }
    message := message.(errInfoLen := len, errInfo := text);
    ok, message := ParseBody(tmp, start, end, cursor, message);
  }

  /** The body, whose length is whatever is left before the checksum, and the checksum. */
  method ParseBody(tmp: bytes, start: nat, end: nat, at: nat, partial: Message) returns (ok: bool, message: Message)
    requires start <= at && start <= end <= |tmp| && MIN_PACKAGE_SIZE <= end - start <= MAX_PACKAGE_SIZE
    requires partial.pkLen == end - start
    requires partial.msgIdLen == |partial.msgId| <= end - start
    requires partial.methodNameLen == |partial.methodName| <= end - start
    requires partial.errInfoLen == |partial.errInfo| <= end - start
    ensures var r := ParseFromBody(tmp[start..end], partial.msgId, partial.methodName, partial.errCode, partial.errInfo, at - start);
      (ok <==> r.Parsed?) && (ok ==> r == Parsed(message))
  {
    var endFlagIndex := end - 1;
    var checksumIndex := endFlagIndex - 4;
    var cursor := at;
    message := partial;
    var bodyLen := checksumIndex - cursor;
    if bodyLen < 0 {
      return false, message;
    }
    message := message.(pbData := ReadStringField(tmp, cursor, bodyLen));
    SliceOfSlice(tmp, start, end, cursor - start, checksumIndex - start);
    cursor := cursor + bodyLen;
    if !CanReadInt32(cursor, endFlagIndex) {
      return false, message;
    }
    ReadInSlice(tmp, start, end, cursor - start);
    message := message.(checkSum := Int32At(tmp, cursor), parseSuccess := true);
    ok := true;
  }

  /** What one turn of the decode loop may do: wait (`amount` 0), or move on by `amount` with what it found. */
  ghost predicate IsTurn(s: bytes, amount: nat, found: seq<Message>) {
    amount <= |s| &&
    if amount == 0 then found == [] && Decode(s) == Decoded([], s)
    else Decode(s) == Prepend(found, Decode(s[amount..]))
  }

  lemma PacketTurn(s: bytes, n: nat, found: seq<Message>)
    requires MIN_PACKAGE_SIZE <= n <= |s| && s[0] == PB_START && Int32At(s, 1) == n && s[n - 1] == PB_END
    requires n <= MAX_PACKAGE_SIZE
    requires match ParseFrame(s[0..n]) case Parsed(m) => found == [m] case Rejected(_) => found == []
    ensures IsTurn(s, n, found)
  {
    ReadInSlice(s, 0, n, 1);
    assert s[..n] == s[0..n];
    PacketTaken(s, n);
  }

  /** The part of a turn that looks for a start flag. */
  method Scan(tmp: bytes, readIndex: nat, writeIndex: nat) returns (startIndex: nat)
    requires readIndex <= writeIndex <= |tmp|
    ensures readIndex <= startIndex <= writeIndex
    ensures startIndex < writeIndex ==> tmp[startIndex] == PB_START
    ensures startIndex > readIndex ==> IsTurn(tmp[readIndex..writeIndex], startIndex - readIndex, [])
  {
    startIndex := readIndex;
    while startIndex < writeIndex && tmp[startIndex] != PB_START
      invariant readIndex <= startIndex <= writeIndex
      invariant PB_START !in tmp[readIndex..startIndex]
    {
      assert tmp[readIndex..startIndex + 1] == tmp[readIndex..startIndex] + [tmp[startIndex]];
      startIndex := startIndex + 1;
    }
    ghost var s, n := tmp[readIndex..writeIndex], startIndex - readIndex;
    assert s[..n] == tmp[readIndex..startIndex];
    SkippingTurn(s, n);
  }

  /** Bytes in front of the first start flag are skipped without finding anything. */
  lemma SkippingTurn(s: bytes, n: nat)
    requires n <= |s| && PB_START !in s[..n]
    ensures n > 0 ==> IsTurn(s, n, [])
  {
    ScanSkips(s, n);
    ghost var rest := Decode(s[n..]);
    assert [] + rest.messages == rest.messages;
  }

  /** The part of a turn that follows when the first readable byte is a start flag. */
  method AtStartFlag(tmp: bytes, startIndex: nat, writeIndex: nat) returns (amount: nat, found: seq<Message>)
    requires startIndex < writeIndex <= |tmp| && tmp[startIndex] == PB_START
    ensures IsTurn(tmp[startIndex..writeIndex], amount, found)
  {
    ghost var s := tmp[startIndex..writeIndex];
    found := [];
    if !CanReadInt32(startIndex + 1, writeIndex) {
      FixedPoints(s);
      return 0, [];
    }
    var pkLen := Int32At(tmp, startIndex + 1);
    ReadInSlice(tmp, startIndex, writeIndex, 1);
    if pkLen < MIN_PACKAGE_SIZE || pkLen > MAX_PACKAGE_SIZE {
      HeaderSkips(s);
      return 1, [];
    }
    if startIndex + pkLen > writeIndex {
      FixedPoints(s);
      return 0, [];
    }
    if tmp[startIndex + pkLen - 1] != PB_END {
      HeaderSkips(s);
      return 1, [];
    }
    amount := pkLen;
    found := TakePacket(tmp, startIndex, writeIndex, pkLen);
  }

  /** Parse the packet at the start flag; a rejected one is dropped. */
  method TakePacket(tmp: bytes, startIndex: nat, writeIndex: nat, pkLen: nat) returns (found: seq<Message>)
    requires startIndex + pkLen <= writeIndex <= |tmp| && MIN_PACKAGE_SIZE <= pkLen <= MAX_PACKAGE_SIZE
    requires tmp[startIndex] == PB_START && tmp[startIndex + pkLen - 1] == PB_END && Int32At(tmp, startIndex + 1) == pkLen
    ensures IsTurn(tmp[startIndex..writeIndex], pkLen, found)
  {
    var ok, message := ParsePacket(tmp, startIndex, startIndex + pkLen);
    found := if ok then [message] else [];
    ghost var s := tmp[startIndex..writeIndex];
    assert s[0..pkLen] == tmp[startIndex..startIndex + pkLen] by { SliceOfSlice(tmp, startIndex, writeIndex, 0, pkLen); }
    assert Int32At(s, 1) == pkLen by { ReadInSlice(tmp, startIndex, writeIndex, 1); }
    PacketTurn(s, pkLen, found);
  }

  /**
   Take every complete packet off the buffer and drop what cannot start one.
   The messages and the remaining bytes are those of the stream decoder; every
   amount passed to MoveReadIndex is accepted, so each turn but the last shrinks
   the readable bytes.
   */
  method DecodeBuffer(buffer: TcpBuffer) returns (out: seq<Message>)
    requires buffer.Valid()
    modifies buffer
    ensures buffer.Valid() && (buffer.data == old(buffer.data) || fresh(buffer.data))
    ensures Decode(old(buffer.Contents())) == Decoded(out, buffer.Contents())
    ensures buffer.ShapeOf().capacity == old(buffer.ShapeOf()).capacity
  {
    out := [];
    ghost var all := Decode(buffer.Contents());
    while buffer.ReadAble() > 0
      invariant buffer.Valid() && (buffer.data == old(buffer.data) || fresh(buffer.data))
      invariant buffer.ShapeOf().capacity == old(buffer.ShapeOf()).capacity
      invariant all == Prepend(out, Decode(buffer.Contents()))
      decreases |buffer.Contents()|
    {
      var tmp, readIndex, writeIndex := buffer.data[..], buffer.readIndex, buffer.writeIndex;
      ghost var s := buffer.Contents();
      assert s == tmp[readIndex..writeIndex];
      var startIndex := Scan(tmp, readIndex, writeIndex);
      var amount: nat, found: seq<Message> := startIndex - readIndex, [];
      if startIndex == readIndex {
        amount, found := AtStartFlag(tmp, startIndex, writeIndex);
        if amount == 0 {
          return;
        }
      }
      PrependTwice(out, found, Decode(s[amount..]));
      buffer.MoveReadIndex(amount);
      out := out + found;
    }
  }
}
