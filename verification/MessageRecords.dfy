/** What becomes of the contents of a message on its way: the encoder keeps them, and they arrive. */
module MessageRecords {
  import opened Bytes
  import opened TinyPB
  import opened Framing
  import opened TinyPBStream

  /** `r` says what `m` says: same id, method, error and body; an empty id becomes "123456789". */
  predicate Carries(r: Message, m: Message) {
    && r.msgId == (if m.msgId == [] then [49, 50, 51, 52, 53, 54, 55, 56, 57] else m.msgId)
    && r.methodName == m.methodName && r.errCode == m.errCode && r.errInfo == m.errInfo && r.pbData == m.pbData
  }

  /** The encoder takes messages up to 10 MiB, and leaves what they say as it is. */
  lemma RecordIsKept(m: Message)
    ensures Carries(PostEncode(m), m)
    ensures Encodable(m) <==> 26 + |PostEncode(m).msgId| + |m.methodName| + |m.errInfo| + |m.pbData| <= 10485760
    ensures Encodable(m) ==> PostEncode(m).checkSum == 1 && PostEncode(m).parseSuccess
  {
  }

  /** What a message says arrives: an encodable one is decoded to one message that says the same. */
  lemma MessageArrives(m: Message)
    requires Encodable(m)
    ensures var d := Decode(Encode(m)); |d.messages| == 1 && Carries(d.messages[0], m) && d.rest == []
  {
    assert [m][1..] == [];
    assert EncodeAll([m]) == Encode(m) + EncodeAll([]) && Sent([m]) == [PostEncode(m)] + Sent([]);
    assert Encode(m) + [] == Encode(m) && EncodeAll([]) == [];
    DecodeOfEncodedThen([m], []);
    FixedPoints([]);
    assert [PostEncode(m)] + [] == [PostEncode(m)];
    RecordIsKept(m);
  }
}
