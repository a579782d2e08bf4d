/** What the head of a coverage program leaves in registers and on the stack. */
module CoverageHead {
  import opened Words
  import opened Instructions
  import opened Encoding
  import opened Machine
  import opened MemoryModel
  import opened ControlFlow
  import opened InstructionEffects
  import opened Oracle
  import opened CoveragePrograms
  import opened CoverageOracle
  import opened ControlUnit

  ghost predicate Constants(v: seq<int>) {
    |v| == 9 && forall k | 0 <= k < 9 :: IsI64(v[k])
  }

  // ---------------------------------------------------------------- the nine constants

  /** After j of the moves the first j registers from R1 on hold their constants; R0, R10 and memory are as they were. */
  lemma {:induction false} RunConstants(w: World, q: seq<Instruction>, v: seq<int>, j: nat, s: State) returns (t: State)
    requires Constants(v) && j <= 9 && |q| >= 17 && forall i | 8 <= i < 17 :: q[i] == HeadCode(v)[i]
    ensures IndexRun(w, q, j, Running(8, s)) == Running(8 + j, t)
    ensures t.mem == s.mem && Get(t, R0) == Get(s, R0) && Get(t, R10) == Get(s, R10)
    ensures forall i | 0 <= i < j :: Get(t, i + 1) == v[i] % 0x1_0000_0000_0000_0000
  {
    hide Execute, SlotOf, HeadCode, IndexStep;
    if j == 0 {
      return s;
    }
    var u := RunConstants(w, q, v, j - 1, s);
    HeadMoves(v, j);
    t := Set(u, j, v[j - 1] % 0x1_0000_0000_0000_0000);
    assert q[8 + (j - 1)] == HeadCode(v)[7 + j];
    ExecuteMovConstant(w, j, Int(v[j - 1]), SlotOf(q, 8 + (j - 1)), u);
    StepNext(w, q, 8, j - 1, Running(8, s), u, t);
  }

  lemma HeadMoves(v: seq<int>, j: nat)
    requires |v| == 9 && 1 <= j <= 9
    ensures HeadCode(v)[7 + j] == Mov64(j, Int(v[j - 1]))
  {
    hide Mov64;
  }

  // ---------------------------------------------------------------- the 63 stores

  /** Memory after the first n stores of x below sp - 8. */
  function StackFilled(m: map<Word, Byte>, sp: int, x: int, n: nat): map<Word, Byte> {
    if n == 0 then m else Store(StackFilled(m, sp, x, n - 1), sp - 8 - 8 * n, x, 8)
  }

  lemma ExecuteStoreReg(w: World, d: nat, r: nat, offset: int, slot: nat, s: State)
    ensures Execute(w, NewStore(SIZE_DW, d, Reg(r), offset), slot, s) == Next(s.(mem := Store(s.mem, Get(s, d) + offset, Get(s, r), 8)))
  {
    hide Store, Get;
  }

  lemma {:induction false} RunStores(w: World, q: seq<Instruction>, n: nat, s: State) returns (t: State)
    requires n <= 63 && |q| >= HEAD_SIZE && forall i | 0 <= i < 63 :: q[17 + i] == StackInit(63)[i]
    ensures IndexRun(w, q, n, Running(17, s)) == Running(17 + n, t)
    ensures t == s.(mem := StackFilled(s.mem, Get(s, R10), Get(s, R0), n))
  {
    hide Execute, SlotOf, Store, NewStore, IndexStep;
    if n == 0 {
      return s;
    }
    var u := RunStores(w, q, n - 1, s);
    assert q[17 + (n - 1)] == StackInit(63)[n - 1] == NewStore(SIZE_DW, R10, Reg(R0), -(16 + 8 * (n - 1)));
    ExecuteStoreReg(w, R10, R0, -(16 + 8 * (n - 1)), SlotOf(q, 17 + (n - 1)), u);
    t := u.(mem := Store(u.mem, Get(u, R10) + -(16 + 8 * (n - 1)), Get(u, R0), 8));
    StepNext(w, q, 17, n - 1, Running(17, s), u, t);
  }

  /** Each of the n double words holds x. */
  lemma {:induction false} FilledBytes(m: map<Word, Byte>, sp: int, x: int, n: nat, k: nat, j: nat)
    requires 1 <= k <= n <= 63 && j < 8
    ensures ByteAt(StackFilled(m, sp, x, n), sp - 8 - 8 * k + j) == LittleEndian(x, 8)[j]
  {
    hide Store, ByteAt, LittleEndian;
    var a := sp - 8 - 8 * n;
    StoreBytes(StackFilled(m, sp, x, n - 1), a, x, 8, sp - 8 - 8 * k + j);
    SmallDistance(a, 8 * (n - k) + j);
    if k < n {
      FilledBytes(m, sp, x, n - 1, k, j);
    }
  }

  lemma SmallDistance(a: int, d: nat)
    requires d < 0x1000
    ensures Distance(a + d, a) == d
  {
  }

  /** Nothing else is written. */
  lemma {:induction false} FilledFrame(m: map<Word, Byte>, sp: int, x: int, n: nat, y: int)
    requires n <= 63 && Distance(y, sp - 8 - 8 * n) >= 8 * n
    ensures ByteAt(StackFilled(m, sp, x, n), y) == ByteAt(m, y)
  {
    hide Store, ByteAt, LittleEndian;
    if n > 0 {
      var a := sp - 8 - 8 * n;
      StoreBytes(StackFilled(m, sp, x, n - 1), a, x, 8, y);
      FurtherDistance(y, a);
      FilledFrame(m, sp, x, n - 1, y);
    }
  }

  lemma FurtherDistance(y: int, a: int)
    requires Distance(y, a) >= 8
    ensures Distance(y, a + 8) == Distance(y, a) - 8
  {
  }

  // ---------------------------------------------------------------- the whole head

  /**
   * The stack frame below sp as the head leaves it: the double words from sp - 16 down to sp - 512 hold x, the key at
   * sp - 4 is zero, and the four bytes from sp - 8 to sp - 5 are what they were.
   */
  function FrameByte(before: map<Word, Byte>, sp: int, x: int, a: int): Byte {
    if a >= sp - 4 then 0
    else if a >= sp - 8 then ByteAt(before, a)
    else LittleEndian(x, 8)[(a - sp) % 8]
  }

  ghost predicate FrameSetUp(before: map<Word, Byte>, after: map<Word, Byte>, sp: int, x: int) {
    forall a: int | sp - 512 <= a < sp :: ByteAt(after, a) == FrameByte(before, sp, x, a)
  }

  lemma FrameOfHead(m: map<Word, Byte>, sp: int, x: int)
    ensures FrameSetUp(m, StackFilled(Store(m, sp - 4, 0, 4), sp, x, 63), sp, x)
  {
    hide Store, ByteAt, LittleEndian, StackFilled, Distance;
    var m1 := Store(m, sp - 4, 0, 4);
    var m2 := StackFilled(m1, sp, x, 63);
    forall a: int | sp - 512 <= a < sp
      ensures ByteAt(m2, a) == FrameByte(m, sp, x, a)
    {
      if a < sp - 8 {
        var j := (a - sp) % 8;
        var k := (sp - a + j) / 8 - 1;
        assert a == sp - 8 - 8 * k + j;
        FilledBytes(m1, sp, x, 63, k, j);
      } else {
        var j := a - (sp - 8);
        SmallDistance(sp - 8 - 8 * 63, 8 * 63 + j);
        FilledFrame(m1, sp, x, 63, a);
        StoreBytes(m, sp - 4, 0, 4, a);
        KeyDistance(sp, j);
        if j >= 4 {
          ZeroBytes(4, j - 4);
        }
      }
    }
  }

  lemma KeyDistance(sp: int, j: nat)
    requires j < 8
    ensures if j < 4 then Distance(sp - 8 + j, sp - 4) >= 4 else Distance(sp - 8 + j, sp - 4) == j - 4
  {
  }

  lemma HeadParts(p: seq<Instruction>, v: seq<int>, fd: int)
    requires |v| == 9 && CoverageProgram(p, v) && p[0] == LdMapByFd(R1, fd)
    ensures |p| >= HEAD_SIZE && forall i | 1 <= i < 17 :: p[i] == HeadCode(v)[i]
    ensures forall i | 0 <= i < 63 :: p[17 + i] == StackInit(63)[i]
  {
    hide LdMapByFd, GoodBody, HeadCode, StackInit;
    assert forall i | 1 <= i < HEAD_SIZE :: p[..HEAD_SIZE][i] == p[i];
  }

  lemma RunElementLoad(w: World, q: seq<Instruction>, v: seq<int>, base: int, s: State) returns (t: State)
    requires |v| == 9 && |q| >= 17 && q[7] == HeadCode(v)[7] && Get(s, R0) == base
    ensures IndexRun(w, q, 1, Running(7, s)) == Running(8, t)
    ensures t.mem == s.mem && Get(t, R0) == Element(s.mem, base, 0) % 0x1_0000_0000_0000_0000 && Get(t, R10) == Get(s, R10)
  {
    hide SlotOf, Load, HeadCode;
    HeadLoad(v);
    t := Set(s, R0, Load(s.mem, base, 8) % 0x1_0000_0000_0000_0000);
    StepNext(w, q, 7, 0, Running(7, s), s, t);
  }

  lemma HeadLoad(v: seq<int>)
    requires |v| == 9
    ensures HeadCode(v)[7] == NewLoad(SIZE_DW, R0, R0, 0)
  {
    hide Mov64;
  }

  lemma {:induction false} LoadBound(m: map<Word, Byte>, a: int)
    ensures Load(m, a, 8) < 0x1_0000_0000_0000_0000
  {
    hide ByteAt;
    assert Load(m, a + 8, 0) == 0;
    assert Load(m, a + 7, 1) < 0x100;
    assert Load(m, a + 6, 2) < 0x1_0000;
    assert Load(m, a + 5, 3) < 0x100_0000;
    assert Load(m, a + 4, 4) < 0x1_0000_0000;
    assert Load(m, a + 3, 5) < 0x100_0000_0000;
    assert Load(m, a + 2, 6) < 0x1_0000_0000_0000;
    assert Load(m, a + 1, 7) < 0x100_0000_0000_0000;
  }

  /** By index: any program that begins with the head is through it after 79 steps. */
  lemma HeadRuns(w: World, q: seq<Instruction>, p: seq<Instruction>, v: seq<int>, fd: int, base: int, s0: State) returns (t: State)
    requires Constants(v) && CoverageProgram(p, v) && p[0] == LdMapByFd(R1, fd)
    requires |q| >= HEAD_SIZE && q[..HEAD_SIZE] == p[..HEAD_SIZE]
    requires LookupWorks(w, fd, base, 1) && MapAt(base, 1, Get(s0, R10))
    ensures var x := Element(s0.mem, base, 0);
            && IndexRun(w, q, 79, Running(0, s0)) == Running(HEAD_SIZE, t)
            && (forall i | 0 <= i < 9 :: Get(t, i + 1) == v[i] % 0x1_0000_0000_0000_0000)
            && Get(t, R0) == x && Get(t, R10) == Get(s0, R10) && FrameSetUp(s0.mem, t.mem, Get(s0, R10), x)
  {
    hide CoverageProgram, IndexRun, Store, Load, LookupWorks, OutsideStackSame, InStack, LdMapByFd, HeadCode, StackInit, FrameSetUp, StackFilled;
    var sp, x := Get(s0, R10), Element(s0.mem, base, 0);
    HeadParts(p, v, fd);
    assert forall i | 0 <= i < HEAD_SIZE :: q[i] == q[..HEAD_SIZE][i] == p[i];
    var s1 := RunHeadLookup(w, q, v, fd, base, s0);
    StackStore(s0.mem, sp, -4, 0, 4);
    MapSurvives(s0.mem, s1.mem, base, 1, sp, 0);
    LoadBound(s0.mem, base);
    var s2 := RunElementLoad(w, q, v, base, s1);
    var s3 := RunConstants(w, q, v, 9, s2);
    t := RunStores(w, q, 63, s3);
    FrameOfHead(s0.mem, sp, x);
    RunAdds(w, q, 6, 1, Running(0, s0));
    RunAdds(w, q, 7, 9, Running(0, s0));
    RunAdds(w, q, 16, 63, Running(0, s0));
  }

  /** The head with nothing behind it but the footer. */
  lemma BareHead(p: seq<Instruction>, v: seq<int>, fd: int)
    requires |v| == 9 && CoverageProgram(p, v)
    ensures CoverageProgram(p[..HEAD_SIZE], v)
    ensures var q := p[..HEAD_SIZE] + Footer(0, fd); Closed(q, HEAD_SIZE) && AllSupported(q)
  {
    hide DefaultProg, Closed, AllSupported, Footer, LdMapByFd;
    var h := p[..HEAD_SIZE];
    assert h[..HEAD_SIZE] == h && h[HEAD_SIZE..] == [] && h[0] == p[0];
    EmittedIsClosed(h, v, 0, fd);
  }

  /** The head's one jump agrees in both units, whatever stands behind the head. */
  lemma HeadJumpAgrees(p: seq<Instruction>, v: seq<int>, q: seq<Instruction>, i: nat)
    requires |v| == 9 && CoverageProgram(p, v) && |q| >= HEAD_SIZE && q[..HEAD_SIZE] == p[..HEAD_SIZE] && i < HEAD_SIZE && IsJump(q[i])
    ensures JumpAgrees(q, i)
  {
    hide DefaultProg, GoodBody, LdMapByFd, WellFormed, Supported, IsJump, SlotOf;
    HeadIsSegment(v, p[0].imm);
    var h := p[..HEAD_SIZE];
    assert forall k | 0 <= k < HEAD_SIZE :: q[k] == q[..HEAD_SIZE][k] == h[k];
    assert SegmentAt(h, i, HEAD_SIZE);
    JumpAgreesExactly(q, i);
  }

  /**
   * Running the bytes of an emitted program of any length with working lookups: after 79 steps (the Exit is jumped over)
   * the head is done, R1..R9 hold their constants, R0 the map's element, and the stack frame is set up but for four bytes.
   */
  lemma HeadInitializes(w: World, p: seq<Instruction>, v: seq<int>, reg: nat, fd: int, base: int, s0: State) returns (t: State)
    requires Constants(v) && CoverageProgram(p, v) && reg <= 9
    requires p[0] == LdMapByFd(R1, fd) && AllEncodable(p + Footer(reg, fd))
    requires LookupWorks(w, fd, base, 1) && MapAt(base, 1, Get(s0, R10))
    ensures var q, x := p + Footer(reg, fd), Element(s0.mem, base, 0);
            && SlotRun(w, Encode(q, |q|), 79, Running(0, s0)) == Running(SlotOf(q, HEAD_SIZE), t)
            && (forall i | 0 <= i < 9 :: Get(t, i + 1) == v[i] % 0x1_0000_0000_0000_0000)
            && Get(t, R0) == x && Get(t, R10) == Get(s0, R10) && FrameSetUp(s0.mem, t.mem, Get(s0, R10), x)
  {
    hide CoverageProgram, Footer, Encode, AllEncodable, AllWellFormed, Closed, AllSupported, SlotRun, IndexRun, LookupWorks, MapAt, Element;
    hide LdMapByFd, FrameSetUp, JumpAgrees, IsJump;
    HeadParts(p, v, fd);
    var q, bare := p + Footer(reg, fd), p[..HEAD_SIZE] + Footer(0, fd);
    EmittedNamesMap(p, v, reg, fd);
    BareHead(p, v, fd);
    assert q[..HEAD_SIZE] == p[..HEAD_SIZE] == bare[..HEAD_SIZE];
    t := HeadRuns(w, bare, p, v, fd, base, s0);
    forall j: nat | j < 79
      ensures IndexRun(w, bare, j, Running(0, s0)).Running? && IndexRun(w, bare, j, Running(0, s0)).pc < HEAD_SIZE
    {
      CounterGrows(w, bare, HEAD_SIZE, j, 79, s0);
    }
    forall j: nat | j <= 79
      ensures IndexRun(w, q, j, Running(0, s0)) == IndexRun(w, bare, j, Running(0, s0))
    {
      SharedPrefixRuns(w, bare, q, HEAD_SIZE, j, Running(0, s0));
    }
    forall i | 0 <= i < HEAD_SIZE && IsJump(q[i])
      ensures JumpAgrees(q, i)
    {
      HeadJumpAgrees(p, v, q, i);
    }
    SlotExecutionSimulatesWithin(w, q, HEAD_SIZE, 79, Running(0, s0));
    AtStart(q);
  }

  /** Whenever the lookups fail, the bytes of an emitted program halt after 7 steps, with 0 in R0 and no map touched. */
  lemma FailedLookupStops(w: World, p: seq<Instruction>, v: seq<int>, reg: nat, fd: int, s0: State) returns (t: State)
    requires |v| == 9 && CoverageProgram(p, v) && reg <= 9
    requires p[0] == LdMapByFd(R1, fd) && AllEncodable(p + Footer(reg, fd)) && LookupFails(w, fd)
    ensures var q := p + Footer(reg, fd); SlotRun(w, Encode(q, |q|), 7, Running(0, s0)) == Halted(t)
    ensures Get(t, R0) == 0 && OutsideStackSame(s0.mem, t.mem, Get(s0, R10))
  {
    hide CoverageProgram, Footer, Encode, AllEncodable, AllWellFormed, Closed, AllSupported, SlotRun, IndexRun, Store, LookupFails;
    hide LdMapByFd, OutsideStackSame, JumpAgrees, IsJump;
    HeadParts(p, v, fd);
    var q, bare := p + Footer(reg, fd), p[..HEAD_SIZE] + Footer(0, fd);
    EmittedNamesMap(p, v, reg, fd);
    BareHead(p, v, fd);
    assert forall i | 0 <= i < 17 :: q[i] == p[i] == bare[i];
    assert q[..HEAD_SIZE] == p[..HEAD_SIZE] == bare[..HEAD_SIZE];
    t := RunFailedHead(w, bare, v, fd, s0);
    StackStore(s0.mem, Get(s0, R10), -4, 0, 4);
    forall j: nat | j < 7
      ensures IndexRun(w, bare, j, Running(0, s0)).Running? && IndexRun(w, bare, j, Running(0, s0)).pc < HEAD_SIZE
    {
      if j < 6 {
        CounterGrows(w, bare, HEAD_SIZE, j, 6, s0);
      }
    }
    forall j: nat | j <= 7
      ensures IndexRun(w, q, j, Running(0, s0)) == IndexRun(w, bare, j, Running(0, s0))
    {
      SharedPrefixRuns(w, bare, q, HEAD_SIZE, j, Running(0, s0));
    }
    forall i | 0 <= i < HEAD_SIZE && IsJump(q[i])
      ensures JumpAgrees(q, i)
    {
      HeadJumpAgrees(p, v, q, i);
    }
    SlotExecutionSimulatesWithin(w, q, HEAD_SIZE, 7, Running(0, s0));
    AtStart(q);
  }

  lemma AtStart(q: seq<Instruction>)
    ensures SlotOf(q, 0) == 0
  {
  }
}
