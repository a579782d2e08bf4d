/** The oracle theorem for whole programs of the coverage strategy. */
module CoverageOracle {
  import opened Words
  import opened Instructions
  import opened Encoding
  import opened Machine
  import opened MemoryModel
  import opened ControlFlow
  import opened InstructionEffects
  import opened Oracle
  import opened CoveragePrograms
  import Generators

  /** Up to the head's call: the map in R1, a zero key behind R2. */
  lemma RunToHeadCall(w: World, q: seq<Instruction>, v: seq<int>, fd: int, s: State) returns (t: State)
    requires |v| == 9 && |q| >= 17 && q[0] == LdMapByFd(R1, fd) && forall i | 1 <= i < 5 :: q[i] == HeadCode(v)[i]
    ensures IndexRun(w, q, 4, Running(0, s)) == Running(4, t) && q[4] == Call(MAP_LOOKUP)
    ensures t.mem == Store(s.mem, Get(s, R10) - 4, 0, 4) && Get(t, R10) == Get(s, R10)
    ensures Get(t, R1) == w.mapAddr(I32(fd)) && Load(t.mem, Get(t, R2), 4) == 0
  {
    hide Execute, SlotOf, Mov64, NewStore, Add64, Store, Load, JmpNE, IndexStep, Call, Exit, LdMapByFd;
    var c := Running(0, s);
    var sp: int := Get(s, R10);
    assert q[0 + 0] == q[0] && q[0 + 1] == q[1] && q[0 + 2] == q[2] && q[0 + 3] == q[3] && q[0 + 4] == q[4];
    var s1 := Set(s, R1, w.mapAddr(I32(fd)));
    ExecuteMapLoad(w, R1, fd, SlotOf(q, 0), s);
    StepNext(w, q, 0, 0, c, s, s1);
    var s2 := s1.(mem := Store(s1.mem, sp - 4, 0, 4));
    ExecuteStoreConstant(w, SIZE_W, R10, 0, -4, SlotOf(q, 1), s1);
    StepNext(w, q, 0, 1, c, s1, s2);
    var s3 := Set(s2, R2, sp);
    ExecuteMovReg(w, R2, R10, SlotOf(q, 2), s2);
    StepNext(w, q, 0, 2, c, s2, s3);
    t := Set(s3, R2, (sp - 4) % 0x1_0000_0000_0000_0000);
    ExecuteAddConstant(w, R2, -4, SlotOf(q, 3), s3);
    StepNext(w, q, 0, 3, c, s3, t);
    StoredWord(s1.mem, sp - 4, 0);
    LoadModulo(t.mem, Get(t, R2), sp - 4, 4);
  }

  /** The head's own lookup succeeds and jumps over the Exit. */
  lemma RunHeadLookup(w: World, q: seq<Instruction>, v: seq<int>, fd: int, base: int, s: State) returns (t: State)
    requires |v| == 9 && |q| >= 17 && q[0] == LdMapByFd(R1, fd) && forall i | 1 <= i < 6 :: q[i] == HeadCode(v)[i]
    requires LookupWorks(w, fd, base, 1) && base > 0
    ensures IndexRun(w, q, 6, Running(0, s)) == Running(7, t)
    ensures t.mem == Store(s.mem, Get(s, R10) - 4, 0, 4) && Get(t, R10) == Get(s, R10) && Get(t, R0) == base
  {
    hide Execute, SlotOf, Mov64, NewStore, Add64, Store, Load, JmpNE, IndexStep, IndexRun, Call, Exit, LdMapByFd;
    var u := RunToHeadCall(w, q, v, fd, s);
    t := w.call(u, MAP_LOOKUP);
    assert q[0 + 4] == q[4] && q[0 + 5] == q[5] == HeadCode(v)[5];
    ExecuteCall(w, MAP_LOOKUP, SlotOf(q, 4), u);
    StepNext(w, q, 0, 4, Running(0, s), u, t);
    ExecuteNullCheck(w, SlotOf(q, 5), t);
    StepOver(w, q, 0, 5, Running(0, s), t);
  }

  lemma ConstantIsQuiet(r: nat, x: int)
    requires r <= 9
    ensures Quiet(Mov64(r, Int(x)))
  {
  }

  lemma HeadIsQuiet(v: seq<int>, i: nat)
    requires |v| == 9 && 7 <= i < HEAD_SIZE
    ensures Quiet(DefaultProg(v)[i])
  {
    hide Mov64;
    if i == 7 {
      assert DefaultProg(v)[7] == NewLoad(SIZE_DW, R0, R0, 0);
    } else if i < 17 {
      assert DefaultProg(v)[i] == HeadCode(v)[i] == Mov64(i - 7, Int(v[i - 8]));
      ConstantIsQuiet(i - 7, v[i - 8]);
    } else {
      assert DefaultProg(v)[i] == NewStore(SIZE_DW, R10, Reg(R0), -(16 + 8 * (i - 17)));
    }
  }

  /** Between the head's lookup and the footer nothing calls, exits or stores outside the stack frame. */
  lemma ProgramIsQuiet(p: seq<Instruction>, v: seq<int>, i: nat)
    requires |v| == 9 && CoverageProgram(p, v) && 7 <= i < |p|
    ensures Quiet(p[i])
  {
    hide DefaultProg, Quiet, LdMapByFd;
    if i < HEAD_SIZE {
      HeadIsQuiet(v, i);
      assert p[i] == p[..HEAD_SIZE][i] == DefaultProg(v)[i];
    } else {
      var body := p[HEAD_SIZE..];
      assert Drawn(body[i - HEAD_SIZE]) && p[i] == body[i - HEAD_SIZE];
      var m: nat :| Generators.RandomInstruction(p[i], m);
      RandomIsQuiet(p[i], m);
    }
  }

  /** The footer is start, lookup of element 0, and tail. */
  lemma FooterParts(p: seq<Instruction>, reg: nat, fd: int)
    ensures var q, n := p + Footer(reg, fd), |p|;
            CodeAt(q, n, StartCode(reg, fd)) && CodeAt(q, n + 2, LookupCode(0)) && CodeAt(q, n + 9, TailCode())
  {
    hide Mov64, LdMapByFd, NewStore, Add64, Call, JmpNE, Exit;
    var f := Footer(reg, fd);
    PartAt(p, f, 0, StartCode(reg, fd));
    PartAt(p, f, 2, LookupCode(0));
    PartAt(p, f, 9, TailCode());
  }

  lemma RunFooter(w: World, p: seq<Instruction>, reg: nat, fd: int, base: int, s: State) returns (t: State)
    requires reg <= 9 && LookupWorks(w, fd, base, 1) && MapAt(base, 1, Get(s, R10)) && Element(s.mem, base, 0) == 0
    ensures IndexRun(w, p + Footer(reg, fd), 12, Running(|p|, s)) == Halted(t)
    ensures (Element(t.mem, base, 0) == 0xCAFE <==> Get(s, reg) == 0) && Get(t, R0) == 0
  {
    hide Footer, StartCode, LookupCode, TailCode, Store, Load, IndexRun, CodeAt, InStack;
    var q, n := p + Footer(reg, fd), |p|;
    FooterParts(p, reg, fd);
    var s1 := RunStart(w, q, n, reg, fd, s);
    var s2 := RunLookup(w, q, n + 2, 0, fd, base, 1, s1);
    t := RunTail(w, q, n + 9, s2);
    RunAdds(w, q, 2, 6, Running(n, s));
    RunAdds(w, q, 8, 4, Running(n, s));
    OneElementVerdict(s.mem, base, Get(s, R10), Get(s, reg));
  }

  /**
   * Every run of an emitted program on a zeroed one-element map, with working lookups, reaches the footer's first slot
   * after some k steps in a state s, halts 12 steps later, and what OnExecuteDone reads is the expected constant
   * exactly when the tested register was zero in s. The program returns 0.
   */
  lemma CoverageOracleIsExact(w: World, p: seq<Instruction>, v: seq<int>, reg: nat, fd: int, base: int, s0: State)
    returns (k: nat, s: State, t: State)
    requires |v| == 9 && CoverageProgram(p, v) && |p| - HEAD_SIZE <= 0x8000 && reg <= 9
    requires p[0] == LdMapByFd(R1, fd) && AllEncodable(p + Footer(reg, fd))
    requires LookupWorks(w, fd, base, 1) && MapAt(base, 1, Get(s0, R10)) && Element(s0.mem, base, 0) == 0
    ensures var q := p + Footer(reg, fd);
            var code := Encode(q, |q|);
            && SlotRun(w, code, k, Running(0, s0)) == Running(SlotOf(q, |p|), s)
            && SlotRun(w, code, k + 12, Running(0, s0)) == Halted(t)
            && (Element(t.mem, base, 0) == 0xCAFE <==> Get(s, reg) == 0) && Get(t, R0) == 0
  {
    hide CoverageProgram, Footer, Encode, AllEncodable, Closed, AllSupported, SlotRun, IndexRun, Store, Load, Quiet, LookupWorks;
    hide OutsideStackSame, InStack, LdMapByFd;
    var q, sp := p + Footer(reg, fd), Get(s0, R10);
    EmittedIsClosed(p, v, reg, fd);
    HeadStands(p, v, fd);
    assert forall i | 0 <= i < 17 :: q[i] == p[i];
    var s1 := RunHeadLookup(w, q, v, fd, base, s0);
    StackStore(s0.mem, sp, -4, 0, 4);
    MapSurvives(s0.mem, s1.mem, base, 1, sp, 0);
    forall i | 7 <= i < |p|
      ensures Quiet(q[i])
    {
      ProgramIsQuiet(p, v, i);
    }
    var j;
    j, s := ReachesBarrier(w, q, |p|, 7, s1);
    MapSurvives(s1.mem, s.mem, base, 1, sp, 0);
    k := 6 + j;
    RunAdds(w, q, 6, j, Running(0, s0));
    t := RunFooter(w, p, reg, fd, base, s);
    RunAdds(w, q, k, 12, Running(0, s0));
    ClosedJumpsAgree(q, |p|);
    ClosedWellFormed(q, |p|);
    SlotExecutionSimulates(w, q, k, Running(0, s0));
    SlotExecutionSimulates(w, q, k + 12, Running(0, s0));
  }

  /** The head's lookup failed: the next instruction executed is the Exit. */
  lemma RunFailedHead(w: World, q: seq<Instruction>, v: seq<int>, fd: int, s: State) returns (t: State)
    requires |v| == 9 && |q| >= 17 && q[0] == LdMapByFd(R1, fd) && (forall i | 1 <= i < 7 :: q[i] == HeadCode(v)[i]) && LookupFails(w, fd)
    ensures IndexRun(w, q, 6, Running(0, s)) == Running(6, t) && IndexRun(w, q, 7, Running(0, s)) == Halted(t)
    ensures t.mem == Store(s.mem, Get(s, R10) - 4, 0, 4) && Get(t, R0) == 0
  {
    hide Execute, SlotOf, Mov64, NewStore, Add64, Store, Load, JmpNE, IndexStep, IndexRun, Call, Exit, LdMapByFd;
    var u := RunToHeadCall(w, q, v, fd, s);
    t := w.call(u, MAP_LOOKUP);
    assert q[0 + 4] == q[4] && q[0 + 5] == q[5] == HeadCode(v)[5] && q[0 + 6] == q[6] == HeadCode(v)[6];
    ExecuteCall(w, MAP_LOOKUP, SlotOf(q, 4), u);
    StepNext(w, q, 0, 4, Running(0, s), u, t);
    ExecuteNullCheck(w, SlotOf(q, 5), t);
    StepNext(w, q, 0, 5, Running(0, s), t, t);
    ExitHalts(w, SlotOf(q, 6), t);
    StepHalt(w, q, 0, 6, Running(0, s), t);
  }

  lemma HeadStands(p: seq<Instruction>, v: seq<int>, fd: int)
    requires |v| == 9 && CoverageProgram(p, v) && p[0] == LdMapByFd(R1, fd)
    ensures |p| >= HEAD_SIZE && forall i | 1 <= i < 17 :: p[i] == HeadCode(v)[i]
  {
    hide LdMapByFd, GoodBody, HeadCode, StackInit;
    assert forall i | 1 <= i < 17 :: p[..HEAD_SIZE][i] == p[i];
  }
}
