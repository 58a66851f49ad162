/**
 The connection buffer: a byte array with a read and a write index, compacted
 when the dead prefix reaches a third of the array and grown on demand. It is
 proved to be a FIFO byte queue whose capacity is bounded by its peak contents.
 */
module TcpBuffers {
  import opened Bytes

  function Min(a: int, b: int): int {
    if a < b then a else b
  }

  /** Capacity and indices of a buffer; the contents are left out. */
  datatype Shape = Shape(capacity: nat, read: nat, write: nat) {
    /** Indices in range, and a dead prefix that is empty or under a third of the capacity. */
    predicate Ok() {
      read <= write <= capacity && (read == 0 || read < capacity / 3)
    }

    function Readable(): int {
      write - read
    }

    function Writable(): int {
      capacity - write
    }
  }

  /** The shapes a buffer can have. */
  type BufferShape = b: Shape | b.Ok() witness Shape(0, 0, 0)

  /** Copy the readable bytes to the front of an array of `size` bytes; what does not fit is lost. */
  function Resized(b: Shape, size: nat): Shape
    requires b.Ok()
  {
    Shape(size, 0, Min(size, b.Readable()))
  }

  /** Compact once the dead prefix is a third of the array. */
  function Adjusted(b: Shape): (r: Shape)
    requires b.read <= b.write <= b.capacity
    ensures r.Ok() && r.Readable() == b.Readable() && r.capacity == b.capacity
  {
    if b.read < b.capacity / 3 then b else Shape(b.capacity, 0, b.Readable())
  }

  /** Grown to half as much again as `n` more bytes need, when they do not fit. */
  function Roomy(b: Shape, n: nat): (r: Shape)
    requires b.Ok()
    ensures r.Ok() && r.Readable() == b.Readable() && n <= r.Writable()
  {
    if n > b.Writable() then Resized(b, 3 * (b.write + n) / 2) else b
  }

  /** After `n` more bytes were written. */
  function Appended(b: Shape, n: nat): (r: Shape)
    requires b.Ok()
    ensures r.Ok() && r.Readable() == b.Readable() + n
  {
    var c := Roomy(b, n);
    Shape(c.capacity, c.read, c.write + n)
  }

  function Consumed(b: Shape, n: int): (r: Shape)
    requires b.Ok()
    ensures r.Ok()
  {
    if n < 0 || n > b.Readable() then b else Adjusted(Shape(b.capacity, b.read + n, b.write))
  }

  function Produced(b: Shape, n: int): (r: Shape)
    requires b.Ok()
    ensures r.Ok()
  {
    if n < 0 || n > b.Writable() then b else Adjusted(Shape(b.capacity, b.read, b.write + n))
  }

  /** The doubling that precedes a read into a full buffer. */
  function Doubled(b: Shape): (r: Shape)
    requires b.Ok()
    ensures r.Ok() && r.Readable() == b.Readable()
  {
    if b.Writable() == 0 then Resized(b, 2 * b.capacity) else b
  }

  /**
   When the array changes, and how much: it is compacted once the dead prefix is a third
   of it or more, grows to one and a half times what is needed when `n` more bytes do not
   fit, and doubles when a read finds it full.
   */
  lemma ArrayChanges(b: Shape, n: nat)
    requires b.Ok()
    ensures var r := Appended(b, n);
      if b.write + n <= b.capacity then r == Shape(b.capacity, b.read, b.write + n)
      else r == Shape(3 * (b.write + n) / 2, 0, b.write - b.read + n)
    ensures n > b.write - b.read || Consumed(b, n) == (
      if b.read + n >= b.capacity / 3 then Shape(b.capacity, 0, b.write - b.read - n) else Shape(b.capacity, b.read + n, b.write))
    ensures Doubled(b) == if b.write == b.capacity then Shape(2 * b.capacity, 0, b.write - b.read) else b
  {
  }

  class TcpBuffer {
    var data: array<byte>
    var readIndex: nat
    var writeIndex: nat

    ghost predicate Valid()
      reads this
    {
      ShapeOf().Ok()
    }

    ghost function ShapeOf(): Shape
      reads this
    {
      Shape(data.Length, readIndex, writeIndex)
    }

    /** The readable bytes, oldest first. */
    ghost function Contents(): bytes
      requires Valid()
      reads this, data
    {
      data[readIndex..writeIndex]
    }

    constructor (size: nat)
      ensures Valid() && fresh(data)
      ensures ShapeOf() == Shape(size, 0, 0) && Contents() == []
    {
      data := new byte[size](_ => 0);
      readIndex, writeIndex := 0, 0;
    }

    function ReadAble(): (n: nat)
      requires Valid()
      reads this, data
      ensures n == |Contents()|
    {
      writeIndex - readIndex
    }

    function WriteAble(): (n: nat)
      requires Valid()
      reads this
      ensures n == ShapeOf().capacity - ShapeOf().write
    {
      data.Length - writeIndex
    }

    /** Replace the array by one of `newSize` bytes that starts with the readable bytes. */
    method ResizeBuffer(newSize: nat)
      requires Valid()
      modifies this
      ensures Valid() && fresh(data)
      ensures ShapeOf() == old(Resized(ShapeOf(), newSize))
      ensures Contents() == old(Contents()[..Min(newSize, |Contents()|)])
    {
      var count := Min(newSize, ReadAble());
      var tmp := new byte[newSize](_ => 0);
      Copy(data, readIndex, tmp, count);
      data := tmp;
      readIndex, writeIndex := 0, count;
    }

    method AdjustBuffer()
      requires readIndex <= writeIndex <= data.Length
      modifies this
      ensures Valid() && (data == old(data) || fresh(data))
      ensures ShapeOf() == old(Adjusted(ShapeOf()))
      ensures Contents() == old(data[readIndex..writeIndex])
    {
      if readIndex < data.Length / 3 {
        return;
      }
      var count := writeIndex - readIndex;
      var tmp := new byte[data.Length](_ => 0);
      Copy(data, readIndex, tmp, count);
      data := tmp;
      readIndex, writeIndex := 0, count;
    }

    method WriteToBuffer(buf: bytes)
      requires Valid()
      modifies this, data
      ensures Valid() && (data == old(data) || fresh(data))
      ensures ShapeOf() == old(Appended(ShapeOf(), |buf|))
      ensures Contents() == old(Contents()) + buf
    {
      MakeRoom(|buf|);
      Append(buf);
    }

    /** Grow the array to half as much again as `n` more bytes need, when they do not fit. */
    method MakeRoom(n: nat)
      requires Valid()
      modifies this
      ensures Valid() && (data == old(data) || fresh(data)) && n <= WriteAble()
      ensures ShapeOf() == old(Roomy(ShapeOf(), n)) && Contents() == old(Contents())
    {
      if n > WriteAble() {
        ResizeBuffer(3 * (writeIndex + n) / 2);
      }
    }

    /** Put the bytes behind the write index. */
    method Append(buf: bytes)
      requires Valid() && |buf| <= WriteAble()
      modifies this`writeIndex, data
      ensures Valid() && ShapeOf() == old(ShapeOf()).(write := old(writeIndex) + |buf|)
      ensures Contents() == old(Contents()) + buf
    {
      ghost var before := Contents();
      Fill(data, writeIndex, buf);
      assert data[readIndex..writeIndex] == before && data[writeIndex..writeIndex + |buf|] == buf;
      writeIndex := writeIndex + |buf|;
    }

    /** Move up to `size` bytes out; an empty buffer leaves `re` as it was. */
    method ReadFromBuffer(re: bytes, size: nat) returns (out: bytes)
      requires Valid()
      modifies this
      ensures Valid() && (data == old(data) || fresh(data))
      ensures old(Contents()) == [] ==> out == re && ShapeOf() == old(ShapeOf()) && Contents() == []
      ensures old(Contents()) != [] ==>
        |out| == Min(size, |old(Contents())|) && out + Contents() == old(Contents())
        && ShapeOf() == old(Consumed(ShapeOf(), |out|))
    {
      if ReadAble() == 0 {
        return re;
      }
      var readSize := Min(size, ReadAble());
      out := data[readIndex..readIndex + readSize];
      readIndex := readIndex + readSize;
      AdjustBuffer();
    }

    /** Drop `size` readable bytes; a size out of range changes nothing. */
    method MoveReadIndex(size: int)
      requires Valid()
      modifies this
      ensures Valid() && (data == old(data) || fresh(data))
      ensures ShapeOf() == old(Consumed(ShapeOf(), size))
      ensures Contents() == if 0 <= size <= |old(Contents())| then old(Contents())[size..] else old(Contents())
    {
      var j := readIndex + size;
      if size < 0 || j > writeIndex {
        return;
      }
      readIndex := j;
      AdjustBuffer();
    }

    /** Make `size` bytes that were put behind the write index readable. */
    method MoveWriteIndex(size: int)
      requires Valid()
      modifies this
      ensures Valid() && (data == old(data) || fresh(data))
      ensures ShapeOf() == old(Produced(ShapeOf(), size))
      ensures Contents() ==
        if 0 <= size <= old(WriteAble()) then old(Contents()) + old(data[writeIndex..writeIndex + size])
        else old(Contents())
    {
      if size < 0 || size > WriteAble() {
        return;
      }
      writeIndex := writeIndex + size;
      AdjustBuffer();
    }
  }

  /** `count` bytes of `src` from `at`, copied to the front of `dst`. */
  method Copy(src: array<byte>, at: nat, dst: array<byte>, count: nat)
    requires src != dst && at + count <= src.Length && count <= dst.Length
    modifies dst
    ensures dst[..count] == src[at..at + count]
  {
    for i := 0 to count
      invariant dst[..i] == src[at..at + i]
    {
      dst[i] := src[at + i];
      assert dst[..i + 1] == dst[..i] + [dst[i]];
    }
  }

  /** `buf` put into `dst` at `at`. */
  method Fill(dst: array<byte>, at: nat, buf: bytes)
    requires at + |buf| <= dst.Length
    modifies dst
    ensures dst[..] == old(dst[..at]) + buf + old(dst[at + |buf|..])
  {
    for i := 0 to |buf|
      invariant dst[..at] == old(dst[..at]) && dst[at + i..] == old(dst[at + i..])
      invariant dst[at..at + i] == buf[..i]
    {
      dst[at + i] := buf[i];
      assert dst[at..at + i + 1] == dst[at..at + i] + [dst[at + i]];
    }
    assert dst[..] == dst[..at] + dst[at..at + |buf|] + dst[at + |buf|..];
  }
}
