/** The sending side of a connection: what it has sent followed by what it still holds is the encoding of what was asked for. */
module SenderStream {
  import opened Bytes
  import opened TinyPB
  import opened Framing
  import opened TinyPBStream
  import opened ConnectionSpec

  /** The messages handed to the encoder by the end of an `onWrite`. */
  function AskedBy(c: Conn, asked: seq<Message>): seq<Message> {
    if EncodesQueue(c) then asked + Messages(c.writeDones) else asked
  }

  /** What is accepted comes off the front of the out buffer, as `Loaded` filled it. */
  lemma WriteAccepts(c: Conn, script: seq<WriteResult>)
    ensures var w := OnWrite(c, script);
      && (c.Live() ==> w.accepted + w.conn.out == Loaded(c).out)
      && (!c.Live() ==> w.conn == c && w.accepted == [])
      && (w.conn.fd >= 0 ==> c.fd >= 0)
  {
  }

  /** Loading the queue appends its encoding to the stream. */
  lemma LoadingKeepsStream(sofar: bytes, c: Conn, asked: seq<Message>)
    requires c.Live() && sofar + c.out == EncodeAll(asked)
    ensures sofar + Loaded(c).out == EncodeAll(AskedBy(c, asked))
  {
    if EncodesQueue(c) {
      assert sofar + [] == sofar;
      EncodeAllGrows(asked, Messages(c.writeDones));
    }
  }

  lemma Regroup(a: bytes, b: bytes, c: bytes, bc: bytes)
    requires b + c == bc
    ensures a + b + c == a + bc
  {
  }

  /** Whatever the socket does in one `onWrite`, nothing is lost, repeated or reordered. */
  lemma WriteKeepsStream(sofar: bytes, c: Conn, script: seq<WriteResult>, asked: seq<Message>)
    requires sofar + c.out == EncodeAll(asked)
    ensures var w := OnWrite(c, script); sofar + w.accepted + w.conn.out == EncodeAll(AskedBy(c, asked))
  {
    var w := OnWrite(c, script);
    WriteAccepts(c, script);
    if c.Live() {
      LoadingKeepsStream(sofar, c, asked);
      Regroup(sofar, w.accepted, w.conn.out, Loaded(c).out);
    } else {
      assert sofar + [] == sofar;
    }
  }
}
