/** Byte strings and the 32-bit big-endian integers of the TinyPB wire format. */
module Bytes {

  type byte = x: int | 0 <= x < 256
  type bytes = seq<byte>
  type int32 = x: int | -0x8000_0000 <= x < 0x8000_0000

  /** The unsigned number whose base-256 digits, most significant first, are `s`. */
  function Value(s: bytes): nat {
    if s == [] then 0 else 256 * Value(s[..|s| - 1]) + s[|s| - 1]
  }

  /** The `k` lowest base-256 digits of `u`, most significant first. */
  function Digits(u: nat, k: nat): (s: bytes)
    ensures |s| == k
    decreases u, k
  {
    if k == 0 then [] else Digits(u / 256, k - 1) + [u % 256]
  }

  lemma {:induction false} DigitsOfValue(s: bytes)
    ensures Digits(Value(s), |s|) == s
  {
    if s != [] {
      DigitsOfValue(s[..|s| - 1]);
    }
  }

  /** Four digits stay below 2^32. */
  lemma FourDigits(s: bytes)
    requires |s| == 4
    ensures Value(s) < 0x1_0000_0000
  {
    var a, b, c := s[..3], s[..2], s[..1];
    assert Value(c) == 256 * Value([]) + c[0] by { assert c[..0] == []; }
    assert Value(b) == 256 * Value(c) + b[1] by { assert b[..1] == c; }
    assert Value(a) == 256 * Value(b) + a[2] by { assert a[..2] == b; }
    assert Value(s) == 256 * Value(a) + s[3];
  }

  lemma ValueOfLast(s: bytes, d: byte)
    ensures Value(s + [d]) == 256 * Value(s) + d
  {
    assert (s + [d])[..|s|] == s;
  }

  lemma ValueOfFourDigits(u: nat)
    requires u < 0x1_0000_0000
    ensures Value(Digits(u, 4)) == u
  {
    var a, b, c := u / 256, u / 256 / 256, u / 256 / 256 / 256;
    assert c < 256;
    ValueOfLast(Digits(c / 256, 0), c % 256);
    assert Value(Digits(c, 1)) == c;
    ValueOfLast(Digits(c, 1), b % 256);
    assert Value(Digits(b, 2)) == b;
    ValueOfLast(Digits(b, 2), a % 256);
    assert Value(Digits(a, 3)) == a;
    ValueOfLast(Digits(a, 3), u % 256);
  }

  /** Two's complement: the signed reading of a 32-bit pattern, and back. */
  function Signed(u: int): int {
    if u < 0x8000_0000 then u else u - 0x1_0000_0000
  }

  function Unsigned(v: int): int {
    if v < 0 then v + 0x1_0000_0000 else v
  }

  /** The signed 32-bit integer whose network-order bytes start at `s[i]`. */
  function Int32At(s: bytes, i: nat): int32
    requires i + 4 <= |s|
  {
    FourDigits(s[i..i + 4]);
    Signed(Value(s[i..i + 4]))
  }

  /** The four network-order bytes of `v`. */
  function NetBytes(v: int32): (b: bytes)
    ensures |b| == 4
  {
    Digits(Unsigned(v), 4)
  }

  /** Most significant byte first; negative integers in two's complement. */
  lemma NetworkOrder(v: int32)
    ensures var b := NetBytes(v);
      var b0: int, b1: int, b2: int, b3: int := b[0], b[1], b[2], b[3];
      b0 * 0x100_0000 + b1 * 0x1_0000 + b2 * 0x100 + b3 == if v < 0 then v + 0x1_0000_0000 else v
  {
    var b := NetBytes(v);
    var b0: int, b1: int := b[0], b[1];
    ValueOfFourDigits(Unsigned(v));
    assert b[..3][..2] == b[..2] && b[..2][..1] == b[..1] && b[..1][..0] == [];
    assert Value(b[..1]) == b0;
    assert Value(b[..2]) == 256 * b0 + b1;
    assert Value(b[..3]) == 256 * Value(b[..2]) + b[2];
    assert Value(b) == 256 * Value(b[..3]) + b[3];
  }

  /** Writing an integer and reading it back gives the integer. */
  lemma ReadOfWritten(v: int32)
    ensures Int32At(NetBytes(v), 0) == v
  {
    ValueOfFourDigits(Unsigned(v));
    assert NetBytes(v)[0..4] == NetBytes(v);
  }

  /** Reading an integer and writing it back gives the four bytes read. */
  lemma WrittenOfRead(s: bytes, i: nat)
    requires i + 4 <= |s|
    ensures NetBytes(Int32At(s, i)) == s[i..i + 4]
  {
    FourDigits(s[i..i + 4]);
    DigitsOfValue(s[i..i + 4]);
    assert Unsigned(Int32At(s, i)) == Value(s[i..i + 4]);
  }

  lemma SliceOfSlice(s: bytes, lo: nat, hi: nat, a: nat, b: nat)
    requires lo <= hi <= |s| && a <= b <= hi - lo
    ensures s[lo..hi][a..b] == s[lo + a..lo + b]
  {
    var t, x, y := s[lo..hi], s[lo..hi][a..b], s[lo + a..lo + b];
    forall k | 0 <= k < |x| ensures x[k] == y[k] {
      assert x[k] == t[a + k];
    }
  }

  /** An integer read inside a slice is the one read at the shifted position. */
  lemma ReadInSlice(s: bytes, lo: nat, hi: nat, i: nat)
    requires lo <= hi <= |s| && i + 4 <= hi - lo
    ensures Int32At(s[lo..hi], i) == Int32At(s, lo + i)
  {
    SliceOfSlice(s, lo, hi, i, i + 4);
  }
}
