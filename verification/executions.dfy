/** Executions of submitted bytes, and what user space reads from the map afterwards. */
module Executions {
  import opened Words
  import opened Instructions
  import opened Encoding
  import opened Machine
  import opened ControlFlow
  import opened Oracle

  /**
   * The platform and the machine state in which a program is run, the address of its map, and whether the run took place
   * at all: attaching or writing to the socket can fail, and the strategies do not look at that.
   */
  datatype PlatformRun = PlatformRun(w: World, base: int, s0: State, executed: bool)

  function Elements(m: map<Word, Byte>, base: int, n: nat): (s: seq<nat>)
    ensures |s| == n
  {
    seq(n, k requires 0 <= k < n => Element(m, base, k))
  }

  /** Lookups work, and the n elements of the map are zero and away from the stack. */
  ghost predicate Setting(run: PlatformRun, fd: int, n: nat) {
    && LookupWorks(run.w, fd, run.base, n) && MapAt(run.base, n, Get(run.s0, R10))
    && forall k: nat | k < n :: Element(run.s0.mem, run.base, k) == 0
  }

  /** The reply is the map as the run of the bytes left it, or as it was if there was no run. */
  ghost predicate ReadsBack(run: PlatformRun, code: seq<Byte>, fd: int, n: nat, reply: seq<nat>) {
    && Setting(run, fd, n)
    && if run.executed then exists j: nat :: Leaves(run, code, n, j, reply) else reply == Elements(run.s0.mem, run.base, n)
  }

  ghost predicate Leaves(run: PlatformRun, code: seq<Byte>, n: nat, j: nat, reply: seq<nat>) {
    var c := SlotRun(run.w, code, j, Running(0, run.s0));
    c.Halted? && reply == Elements(c.s.mem, run.base, n)
  }

  /** After j steps the run stands at the slot and the register has the value x. */
  ghost predicate ArrivesWith(run: PlatformRun, code: seq<Byte>, slot: nat, reg: nat, j: nat, x: Word) {
    var c := SlotRun(run.w, code, j, Running(0, run.s0));
    c.Running? && c.pc == slot && Get(c.s, reg) == x
  }

  ghost predicate Arrives(run: PlatformRun, code: seq<Byte>, slot: nat, reg: nat, x: Word) {
    exists j: nat :: ArrivesWith(run, code, slot, reg, j, x)
  }

  /** Read off the bytes: the run comes to the footer, so many instructions from the end, with x in the register it will add. */
  ghost predicate FooterSees(run: PlatformRun, code: seq<Byte>, footer: nat, x: Word) {
    Decode(code, 0).Ok? && 0 < footer &&
    var q := Decode(code, 0).value;
    footer <= |q| && Arrives(run, code, SlotOf(q, |q| - footer), q[|q| - footer].src, x)
  }

  /** A halted run leaves one memory, whenever one looks. */
  lemma HaltedOnce(w: World, b: seq<Byte>, j: nat, k: nat, c: Config)
    requires SlotRun(w, b, j, c).Halted? && SlotRun(w, b, k, c).Halted?
    ensures SlotRun(w, b, j, c) == SlotRun(w, b, k, c)
  {
    if j <= k {
      HaltedStays(w, b, j, k, c);
    } else {
      HaltedStays(w, b, k, j, c);
    }
  }

  /** A run of closed code comes to the footer once, so the footer sees one value. */
  lemma FooterSeesOne(run: PlatformRun, q: seq<Instruction>, footer: nat, k: nat, x: Word)
    requires 0 < footer <= |q| && Closed(q, |q| - footer) && AllSupported(q) && AllEncodable(q) && Decode(Encode(q, |q|), 0) == Ok(q)
    requires ArrivesWith(run, Encode(q, |q|), SlotOf(q, |q| - footer), q[|q| - footer].src, k, x)
    ensures forall y: Word :: FooterSees(run, Encode(q, |q|), footer, y) <==> y == x
  {
    hide Closed, AllSupported, AllEncodable, Encode, Decode, SlotRun, SlotOf;
    var code, slot, reg := Encode(q, |q|), SlotOf(q, |q| - footer), q[|q| - footer].src;
    forall y: Word, j: nat | ArrivesWith(run, code, slot, reg, j, y)
      ensures y == x
    {
      BarrierOnce(run.w, q, |q| - footer, j, k, run.s0);
    }
  }
}
