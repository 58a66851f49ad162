/**
 Incremental decoders of a byte stream in general. A decoder is given by what
 it does with the bytes it can see: wait for more, or take some of them and
 produce some output. When a decision to take does not depend on bytes that
 have not arrived yet, the way the stream is cut makes no difference.
 */
module Framing {
  import opened Bytes

  datatype Action<+M> = Wait | Take(count: nat, output: seq<M>)

  datatype Decoded<+M> = Decoded(messages: seq<M>, rest: bytes)

  /** Take from the front until the decoder waits. */
  function Run<M>(next: bytes -> Action<M>, s: bytes): (d: Decoded<M>)
    ensures |d.rest| <= |s|
    decreases |s|
  {
    if s == [] then Decoded([], [])
    else
      match next(s)
      case Wait => Decoded([], s)
      case Take(n, out) =>
        if 0 < n <= |s| then Prepend(out, Run(next, s[n..])) else Decoded([], s)
  }

  function Prepend<M>(out: seq<M>, d: Decoded<M>): Decoded<M> {
    Decoded(out + d.messages, d.rest)
  }

  /** Decoding again when `t` arrived after what `d` left behind. */
  function Continue<M>(next: bytes -> Action<M>, d: Decoded<M>, t: bytes): Decoded<M> {
    Prepend(d.messages, Run(next, d.rest + t))
  }

  predicate Takes<M>(next: bytes -> Action<M>, s: bytes) {
    s != [] && next(s).Take? && 0 < next(s).count <= |s|
  }

  /** What is taken from `s` is also taken when more bytes follow. */
  ghost predicate Steady<M(!new)>(next: bytes -> Action<M>) {
    forall s: bytes, t: bytes {:trigger next(s + t)} :: Takes(next, s) ==> next(s + t) == next(s)
  }

  lemma {:induction false} RunOfAppended<M(!new)>(next: bytes -> Action<M>, s: bytes, t: bytes)
    requires Steady(next)
    ensures Run(next, s + t) == Continue(next, Run(next, s), t)
    decreases |s|
  {
    if Takes(next, s) {
      var Take(n, out) := next(s);
      assert next(s + t) == next(s);
      assert (s + t)[n..] == s[n..] + t;
      RunOfAppended(next, s[n..], t);
      var d := Run(next, s[n..]);
      assert out + (d.messages + Run(next, d.rest + t).messages) == out + d.messages + Run(next, d.rest + t).messages;
    } else {
      assert Run(next, s) == Decoded([], s);
      assert [] + Run(next, s + t).messages == Run(next, s + t).messages;
    }
  }

  function Concat(chunks: seq<bytes>): bytes {
    if chunks == [] then [] else chunks[0] + Concat(chunks[1..])
  }

  /** The decoder called after each arriving chunk, with what the earlier calls left. */
  function RunChunks<M>(next: bytes -> Action<M>, d: Decoded<M>, chunks: seq<bytes>): Decoded<M>
    decreases |chunks|
  {
    if chunks == [] then d else RunChunks(next, Continue(next, d, chunks[0]), chunks[1..])
  }

  lemma {:induction false} RunOfChunks<M(!new)>(
    next: bytes -> Action<M>, before: bytes, d: Decoded<M>, chunks: seq<bytes>, all: bytes)
    requires Steady(next)
    requires Run(next, before) == d && all == before + Concat(chunks)
    ensures RunChunks(next, d, chunks) == Run(next, all)
    decreases |chunks|
  {
    if chunks == [] {
      assert all == before;
    } else {
      var sofar := before + chunks[0];
      assert Run(next, sofar) == Continue(next, d, chunks[0]) by { RunOfAppended(next, before, chunks[0]); }
      assert all == sofar + Concat(chunks[1..]);
      RunOfChunks(next, sofar, Continue(next, d, chunks[0]), chunks[1..], all);
    }
  }

  /** What a run leaves is a suffix of its input from which nothing more can be taken. */
  lemma {:induction false} RestIsStuck<M>(next: bytes -> Action<M>, s: bytes)
    ensures var r := Run(next, s).rest; r == s[|s| - |r|..] && !Takes(next, r) && Run(next, r) == Decoded([], r)
    decreases |s|
  {
    if Takes(next, s) {
      var n := next(s).count;
      RestIsStuck(next, s[n..]);
      var r := Run(next, s).rest;
      assert s[n..][|s| - n - |r|..] == s[|s| - |r|..];
    }
  }

  /** The byte `b` in front is dropped, whatever follows it. */
  ghost predicate Dull<M(!new)>(next: bytes -> Action<M>, b: byte) {
    forall s: bytes :: s != [] && s[0] == b ==> next(s) == Take(1, [])
  }

  lemma {:induction false} RunOfDull<M(!new)>(next: bytes -> Action<M>, g: bytes, t: bytes)
    requires forall i :: 0 <= i < |g| ==> Dull(next, g[i])
    ensures Run(next, g + t) == Run(next, t)
  {
    if g == [] {
      assert g + t == t;
    } else {
      assert Dull(next, g[0]) && (g + t)[0] == g[0];
      RunOfDull(next, g[1..], t);
      assert (g + t)[1..] == g[1..] + t;
      assert [] + Run(next, t).messages == Run(next, t).messages;
    }
  }

  /** `f` is taken as a whole, with output `out`, whatever follows it. */
  ghost predicate IsFrame<M(!new)>(next: bytes -> Action<M>, f: bytes, out: seq<M>) {
    f != [] && forall t: bytes :: next(f + t) == Take(|f|, out)
  }

  lemma RunOfFrame<M(!new)>(next: bytes -> Action<M>, f: bytes, out: seq<M>, t: bytes)
    requires IsFrame(next, f, out)
    ensures Run(next, f + t) == Prepend(out, Run(next, t))
  {
    assert (f + t)[|f|..] == t;
  }

  /** What `f` gives for each item, one after the other. */
  function FlatMap<A, B>(f: A -> seq<B>, items: seq<A>): seq<B> {
    if items == [] then [] else f(items[0]) + FlatMap(f, items[1..])
  }

  lemma {:induction false} FlatMapOfAppended<A, B>(f: A -> seq<B>, xs: seq<A>, ys: seq<A>)
    ensures FlatMap(f, xs + ys) == FlatMap(f, xs) + FlatMap(f, ys)
  {
    if xs == [] {
      assert xs + ys == ys;
    } else {
      assert (xs + ys)[1..] == xs[1..] + ys;
      FlatMapOfAppended(f, xs[1..], ys);
    }
  }

  lemma FlatMapOfOneMore<A, B>(f: A -> seq<B>, xs: seq<A>, i: nat)
    requires i < |xs|
    ensures FlatMap(f, xs[..i + 1]) == FlatMap(f, xs[..i]) + f(xs[i])
  {
    assert xs[..i + 1] == xs[..i] + [xs[i]];
    FlatMapOfAppended(f, xs[..i], [xs[i]]);
    assert FlatMap(f, [xs[i]]) == f(xs[i]) + [];
  }

  /** Such a frame, or nothing at all, in front of a stream whose run is known. */
  lemma RunOfOneMore<M(!new)>(
    next: bytes -> Action<M>, f: bytes, out: seq<M>, u: bytes, more: seq<M>, d: Decoded<M>, all: bytes)
    requires IsFrame(next, f, out) || (f == [] && out == [])
    requires Run(next, u) == Prepend(more, d) && all == f + u
    ensures Run(next, all) == Prepend(out + more, d)
  {
    if f == [] {
      assert all == u && out + more == more;
    } else {
      RunOfFrame(next, f, out, u);
      assert out + (more + d.messages) == out + more + d.messages;
    }
  }

  lemma Associate(a: bytes, b: bytes, c: bytes)
    ensures a + b + c == a + (b + c)
  {
  }

  /** Items printed as frames are decoded to their outputs, in order, in front of anything. */
  lemma {:induction false} RunOfPrinted<A, M(!new)>(
    next: bytes -> Action<M>, printed: A -> bytes, out: A -> seq<M>, items: seq<A>, t: bytes, d: Decoded<M>, all: bytes)
    requires forall i :: 0 <= i < |items| ==>
      IsFrame(next, printed(items[i]), out(items[i])) || (printed(items[i]) == [] && out(items[i]) == [])
    requires Run(next, t) == d && all == FlatMap(printed, items) + t
    ensures Run(next, all) == Prepend(FlatMap(out, items), d)
    decreases |items|
  {
    if items == [] {
      assert all == t;
      assert [] + d.messages == d.messages;
    } else {
      var u := FlatMap(printed, items[1..]) + t;
      RunOfPrinted(next, printed, out, items[1..], t, d, u);
      Associate(printed(items[0]), FlatMap(printed, items[1..]), t);
      RunOfOneMore(next, printed(items[0]), out(items[0]), u, FlatMap(out, items[1..]), d, all);
    }
  }
}
