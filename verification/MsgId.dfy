/** Message ids: twenty decimal digits seeded at random and counted up with carry. */
module MsgIds {
  import opened Bytes
  import opened Options

  /** A digit character, as its distance from '0'. */
  type Digit = d: int | 0 <= d < 10

  const LENGTH: nat := 20

  /** What a call gives: an id, the empty string when the seed cannot be read, or an index that runs off the string. */
  datatype Outcome = Id(digits: seq<Digit>) | NoSeed | OutOfRange

  datatype State = State(no: seq<Digit>, max: seq<Digit>)

  function Number(s: seq<Digit>): nat {
    if s == [] then 0 else 10 * Number(s[..|s| - 1]) + s[|s| - 1]
  }

  function Nines(n: nat): (s: seq<Digit>)
    ensures |s| == n
  {
    seq(n, _ => 9)
  }

  predicate AllNines(s: seq<Digit>) {
    forall i :: 0 <= i < |s| ==> s[i] == 9
  }

  /** Digits of random bytes. */
  function Seed(random: bytes): (s: seq<Digit>)
    ensures |s| == |random|
  {
    seq(|random|, i requires 0 <= i < |random| => random[i] % 10)
  }

  /** Position of the last digit that is not 9, or -1. */
  function LastNonNine(s: seq<Digit>): (i: int)
    ensures -1 <= i < |s|
    ensures i >= 0 ==> s[i] != 9
    ensures forall k :: i < k < |s| ==> s[k] == 9
    ensures i < 0 <==> AllNines(s)
  {
    if s == [] then -1 else if s[|s| - 1] != 9 then |s| - 1 else LastNonNine(s[..|s| - 1])
  }

  function Zeros(n: nat): (s: seq<Digit>)
    ensures |s| == n
  {
    seq(n, _ => 0)
  }

  function Increment(s: seq<Digit>): (r: seq<Digit>)
    requires !AllNines(s)
    ensures |r| == |s|
  {
    var i := LastNonNine(s);
    s[..i] + [s[i] + 1] + Zeros(|s| - i - 1)
  }

  datatype Generated = Generated(state: State, outcome: Outcome)

  /** One call; `random` is what reading the seed would give. */
  function Gen(st: State, random: Option<bytes>): Generated {
    if st.no == [] || st.no == st.max then
      if random.None? || |random.value| != LENGTH then Generated(st, NoSeed)
      else
        var id := Seed(random.value);
        Generated(State(id, st.max + Nines(LENGTH)), Id(id))
    else if AllNines(st.no) then Generated(st, OutOfRange)
    else Generated(State(Increment(st.no), st.max), Id(Increment(st.no)))
  }

  class Generator {
    var no: seq<Digit>
    var max: seq<Digit>

    ghost function View(): State
      reads this
    {
      State(no, max)
    }

    constructor ()
      ensures View() == State([], [])
    {
      no, max := [], [];
    }

    method GenMsgID(random: Option<bytes>) returns (outcome: Outcome)
      modifies this
      ensures Generated(View(), outcome) == Gen(old(View()), random)
    {
      if no == [] || no == max {
        if random.None? || |random.value| != LENGTH {
          return NoSeed;
        }
        FromRandom(random.value);
        return Id(no);
      }
      var counted := CountUp();
      outcome := if counted then Id(no) else OutOfRange;
    }

    /** Raise the last digit that is not 9 and clear the nines behind it; false if there is no such digit. */
    method CountUp() returns (counted: bool)
      modifies this
      ensures max == old(max) && counted == !AllNines(old(no))
      ensures no == if counted then Increment(old(no)) else old(no)
    {
      var i := |no| - 1;
      while i >= 0 && no[i] == 9
        invariant -1 <= i < |no| && forall k :: i < k < |no| ==> no[k] == 9
      {
        i := i - 1;
      }
      if i < 0 {
        return false;
      }
      assert LastNonNine(no) == i;
      no := no[i := no[i] + 1];
      var j := i + 1;
      while j < |no|
        invariant i < j <= |no| == |old(no)| && max == old(max)
        invariant no[..i] == old(no)[..i] && no[i] == old(no)[i] + 1
        invariant forall k :: i < k < j ==> no[k] == 0
      {
        no := no[j := 0];
        j := j + 1;
      }
      assert no == Increment(old(no));
      counted := true;
    }

    method FromRandom(random: bytes)
      requires |random| == LENGTH
      modifies this
      ensures no == Seed(random) && max == old(max) + Nines(LENGTH)
    {
      var res: seq<Digit> := [];
      for i := 0 to LENGTH
        invariant |res| == i && forall k :: 0 <= k < i ==> res[k] == random[k] % 10
        invariant max == old(max) + Nines(i)
      {
        res := res + [random[i] % 10];
        max := max + [9];
        assert Nines(i + 1) == Nines(i) + [9];
      }
      no := res;
    }
  }

  // ---------- counting ----------

  lemma NumberOfLast(s: seq<Digit>, d: Digit)
    ensures Number(s + [d]) == 10 * Number(s) + d
  {
    assert (s + [d])[..|s|] == s;
  }

  /** The carry is right: incrementing adds one to the number. */
  lemma {:induction false} IncrementAddsOne(s: seq<Digit>)
    requires !AllNines(s)
    ensures Number(Increment(s)) == Number(s) + 1
  {
    var t, d := s[..|s| - 1], s[|s| - 1];
    if d != 9 {
      assert Increment(s) == t + [d + 1];
      NumberOfLast(t, d + 1);
    } else {
      assert !AllNines(t);
      IncrementAddsOne(t);
      var i := LastNonNine(t);
      assert Zeros(|t| - i - 1) + [0] == Zeros(|s| - i - 1);
      assert Increment(s) == Increment(t) + [0];
      NumberOfLast(Increment(t), 0);
    }
  }

  /** Before the first seeding, or after the `seeds`-th: twenty digits, and a sentinel of twenty nines per seeding. */
  predicate Ok(st: State, seeds: nat) {
    st.max == Nines(LENGTH * seeds) && |st.no| == (if seeds == 0 then 0 else LENGTH)
  }

  /** The carry loop runs off the string exactly on an all-nines id after more than one seeding. */
  lemma ExactlyWhenOutOfRange(st: State, seeds: nat, random: Option<bytes>)
    requires Ok(st, seeds)
    ensures var g := Gen(st, random);
      && (g.outcome == OutOfRange <==> seeds > 1 && AllNines(st.no))
      && (Ok(g.state, seeds) || Ok(g.state, seeds + 1))
  {
    if seeds > 0 {
      assert AllNines(st.no) ==> st.no == Nines(LENGTH);
      assert seeds > 1 ==> |st.max| > LENGTH;
    }
    assert Nines(LENGTH * seeds) + Nines(LENGTH) == Nines(LENGTH * (seeds + 1));
  }

  /** The generator after `k` more calls. */
  function After(st: State, k: nat): State
  {
    if k == 0 then st else Gen(After(st, k - 1), None).state
  }

  lemma NumberIsBounded(s: seq<Digit>)
    ensures Number(s) <= Number(Nines(|s|))
    ensures AllNines(s) ==> Number(s) == Number(Nines(|s|))
  {
    if s == [] {
    } else {
      var n := |s|;
      assert Nines(n)[..n - 1] == Nines(n - 1);
      NumberIsBounded(s[..n - 1]);
      assert AllNines(s) ==> AllNines(s[..n - 1]);
    }
  }

  /**
   From a seed on, the `k`-th further id is the seed plus `k`, for as long as that
   has twenty digits, whether or not it is the first seeding.
   */
  lemma {:induction false} IdsCountUp(st: State, seeds: nat, k: nat)
    requires Ok(st, seeds) && seeds > 0 && Number(st.no) + k <= Number(Nines(LENGTH))
    ensures Ok(After(st, k), seeds) && After(st, k).max == st.max
    ensures Number(After(st, k).no) == Number(st.no) + k
  {
    if k > 0 {
      IdsCountUp(st, seeds, k - 1);
      var prev := After(st, k - 1);
      NumberIsBounded(prev.no);
      assert !AllNines(prev.no) && AllNines(prev.max);
      IncrementAddsOne(prev.no);
    }
  }

  /** `outcome` is an id of twenty digits that, read as a number, is `n`. */
  predicate HandsOut(outcome: Outcome, n: nat) {
    outcome.Id? && |outcome.digits| == 20 && Number(outcome.digits) == n
  }

  /** The id handed out by the `k`-th call after a seeding is the seed plus `k + 1`, for as long as that has twenty digits. */
  lemma IdsHandedOut(st: State, seeds: nat, k: nat, random: Option<bytes>)
    requires Ok(st, seeds) && seeds > 0 && Number(st.no) + k + 1 <= Number(Nines(LENGTH))
    ensures HandsOut(Gen(After(st, k), random).outcome, Number(st.no) + k + 1)
  {
    IdsCountUp(st, seeds, k);
    var prev := After(st, k);
    NumberIsBounded(prev.no);
    assert !AllNines(prev.no) && AllNines(prev.max);
    IncrementAddsOne(prev.no);
  }

  /** A call seeds if nothing has been handed out yet or the sentinel is reached. */
  predicate Seeds(st: State) {
    st.no == [] || st.no == st.max
  }

  /** A seeding hands out the twenty random bytes modulo ten, and keeps that id; without twenty bytes it hands out nothing. */
  lemma SeedIsHandedOut(st: State, seeds: nat, random: Option<bytes>)
    requires Ok(st, seeds) && Seeds(st)
    ensures var g := Gen(st, random);
      if random.Some? && |random.value| == 20 then
        && g.outcome.Id? && |g.outcome.digits| == 20 && (forall i :: 0 <= i < 20 ==> g.outcome.digits[i] == random.value[i] % 10)
        && g.state.no == g.outcome.digits && Ok(g.state, seeds + 1)
      else g.outcome == NoSeed && g.state == st
  {
    assert Nines(LENGTH * seeds) + Nines(LENGTH) == Nines(LENGTH * (seeds + 1));
  }

  /** What the `k`-th call from a seeding on hands out, the seeding call being number 0. */
  function HandedOut(st: State, random: bytes, k: nat): Outcome {
    if k == 0 then Gen(st, Some(random)).outcome else Gen(After(Gen(st, Some(random)).state, k - 1), None).outcome
  }

  /** From a seeding on, the `k`-th id handed out is that of the seed plus `k`. */
  lemma IdsFromASeeding(st: State, seeds: nat, random: bytes, k: nat)
    requires Ok(st, seeds) && Seeds(st) && |random| == 20
    requires var seed := Gen(st, Some(random)).outcome; seed.Id? && Number(seed.digits) + k <= Number(Nines(LENGTH))
    ensures HandsOut(HandedOut(st, random, k), Number(Gen(st, Some(random)).outcome.digits) + k)
  {
    SeedIsHandedOut(st, seeds, Some(random));
    if k > 0 {
      IdsHandedOut(Gen(st, Some(random)).state, seeds + 1, k - 1, None);
    }
  }

  /** So all ids handed out from one seeding on, the seed included, are different. */
  lemma IdsAreDistinct(st: State, seeds: nat, random: bytes, i: nat, j: nat)
    requires Ok(st, seeds) && Seeds(st) && |random| == 20 && i < j
    requires var seed := Gen(st, Some(random)).outcome; seed.Id? && Number(seed.digits) + j <= Number(Nines(LENGTH))
    ensures HandedOut(st, random, i).Id? && HandedOut(st, random, j).Id?
    ensures HandedOut(st, random, i) != HandedOut(st, random, j)
  {
    IdsFromASeeding(st, seeds, random, i);
    IdsFromASeeding(st, seeds, random, j);
  }

  /**
   The sentinel grows with every seeding, so after the second one the wrap-around
   is not noticed: seeded with nines twice, the third call runs off the string.
   */
  lemma SecondWrapRunsOff(random: bytes, any: Option<bytes>)
    requires |random| == LENGTH && forall i :: 0 <= i < LENGTH ==> random[i] == 9
    ensures var s1 := Gen(State([], []), Some(random)).state;
      var s2 := Gen(s1, Some(random)).state;
      Gen(s2, any).outcome == OutOfRange
  {
    assert Seed(random) == Nines(LENGTH);
    var s1 := Gen(State([], []), Some(random)).state;
    assert [] + Nines(LENGTH) == Nines(LENGTH);
    assert s1 == State(Nines(LENGTH), Nines(LENGTH));
    var s2 := Gen(s1, Some(random)).state;
    assert |s2.max| == 2 * LENGTH;
  }
}
