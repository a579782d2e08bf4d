/** The random source: an arbitrary finite tape of draws. A generator that outlives its tape returns None. */
module Random {
  import opened Words

  datatype Option<+T> = None | Some(value: T) {
    predicate IsFailure() { None? }
    function PropagateFailure<U>(): Option<U>
      requires None?
    {
      None
    }
    function Extract(): T
      requires Some?
    {
      value
    }
  }

  /** A result and the rest of the tape, or nothing if the tape is too short. */
  type Drawn<+T> = Option<(T, seq<nat>)>

  /** A method with result r that left this tape did what the function d says. */
  ghost predicate Follows<T>(d: Drawn<T>, r: Option<T>, tape: seq<nat>) {
    if d.None? then r.None? && tape == [] else r == Some(d.value.0) && tape == d.value.1
  }

  function IntnFrom(t: seq<nat>, n: nat): (d: Drawn<nat>)
    requires n > 0
    ensures d.Some? ==> d.value.0 < n && |d.value.1| < |t|
  {
    if t == [] then None else Some((t[0] % n, t[1..]))
  }

  function RandIntFrom(t: seq<nat>): (d: Drawn<Word>)
    ensures d.Some? ==> |d.value.1| < |t|
  {
    var (v, u) :- IntnFrom(t, 0x1_0000_0000_0000_0000);
    Some((v, u))
  }

  function RandRangeFrom(t: seq<nat>, begin: nat, end: nat): (d: Drawn<nat>)
    requires begin <= end
    ensures d.Some? ==> begin <= d.value.0 <= end && |d.value.1| < |t|
  {
    var (v, u) :- IntnFrom(t, end - begin + 1);
    Some((begin + v, u))
  }

  function OneOfFrom(t: seq<nat>, n: nat): (d: Drawn<bool>)
    requires n > 0
    ensures d.Some? ==> |d.value.1| < |t|
  {
    var (v, u) :- IntnFrom(t, n);
    Some((v == 0, u))
  }

  /** What has been made already, in front of what is still to come. */
  function Behind<T>(front: seq<T>, d: Drawn<seq<T>>): Drawn<seq<T>> {
    match d
    case None => None
    case Some((rest, t)) => Some((front + rest, t))
  }

  lemma BehindNothing<T>(d: Drawn<seq<T>>)
    ensures Behind([], d) == d
  {
    if d.Some? {
      assert [] + d.value.0 == d.value.0;
    }
  }

  lemma BehindMore<T>(front: seq<T>, x: T, d: Drawn<seq<T>>)
    ensures Behind(front, Behind([x], d)) == Behind(front + [x], d)
  {
    if d.Some? {
      assert front + ([x] + d.value.0) == front + [x] + d.value.0;
    }
  }

  lemma BehindBoth<T>(front: seq<T>, more: seq<T>, d: Drawn<seq<T>>)
    ensures Behind(front, Behind(more, d)) == Behind(front + more, d)
  {
    if d.Some? {
      assert front + (more + d.value.0) == front + more + d.value.0;
    }
  }

  /** Every value of the range can be drawn. */
  lemma RangeReached(begin: nat, end: nat, d: nat, rest: seq<nat>)
    requires begin + d <= end
    ensures RandRangeFrom([d] + rest, begin, end) == Some((begin + d, rest))
  {
    assert ([d] + rest)[1..] == rest;
  }

  lemma IntReached(x: Word, rest: seq<nat>)
    ensures RandIntFrom([x] + rest) == Some((x, rest))
  {
    assert ([x] + rest)[1..] == rest;
  }

  lemma CoinReached(x: bool, rest: seq<nat>)
    ensures OneOfFrom([if x then 0 else 1] + rest, 2) == Some((x, rest))
  {
    assert ([if x then 0 else 1] + rest)[1..] == rest;
  }

  class Rng {
    var tape: seq<nat>

    constructor (draws: seq<nat>)
      ensures tape == draws
    {
      tape := draws;
    }

    /** `Intn(n)`: any value below n; panics unless n > 0. */
    method Intn(n: nat) returns (r: Option<nat>)
      requires n > 0
      modifies this
      ensures Follows(IntnFrom(old(tape), n), r, tape)
    {
      if tape == [] {
        return None;
      }
      r := Some(tape[0] % n);
      tape := tape[1..];
    }

    /** `RandInt`: any 64-bit value, in whatever distribution. */
    method RandInt() returns (r: Option<Word>)
      modifies this
      ensures Follows(RandIntFrom(old(tape)), r, tape)
    {
      var v :- Intn(0x1_0000_0000_0000_0000);
      r := Some(v);
    }

    /** `RandRange`: `Intn` panics on an empty range. */
    method RandRange(begin: nat, end: nat) returns (r: Option<nat>)
      requires begin <= end
      modifies this
      ensures Follows(RandRangeFrom(old(tape), begin, end), r, tape)
    {
      var v :- Intn(end - begin + 1);
      r := Some(begin + v);
    }

    /** True on one in n draws: on the multiples of n. */
    method OneOf(n: nat) returns (r: Option<bool>)
      requires n > 0
      modifies this
      ensures Follows(OneOfFrom(old(tape), n), r, tape)
    {
      var v :- Intn(n);
      r := Some(v == 0);
    }
  }
}
