/** The programs of the coverage strategy: fixed head, mutated body, checking footer. */
module CoveragePrograms {
  import opened Words
  import opened Instructions
  import opened Generators
  import opened Mutations
  import opened Machine
  import opened ControlFlow

  const HEAD_SIZE: nat := 80

  /** What `GenerateProgram` of a strategy comes back with. */
  datatype Generated = Program(ins: seq<Instruction>) | MapCreationFailed | NoDraws

  /** Looks the map up once, then fills R1..R9 with the given constants, each narrow or wide as its value demands. */
  function HeadCode(v: seq<int>): (h: seq<Instruction>)
    requires |v| == 9
    ensures |h| == 17
  {
    [ LdMapByFd(R1, 0),
      NewStore(SIZE_W, R10, Int(0), -4),
      Mov64(R2, Reg(R10)),
      Add64(R2, Int(-4)),
      Call(MAP_LOOKUP),
      JmpNE(R0, Int(0), 1),
      Exit(),
      NewLoad(SIZE_DW, R0, R0, 0),
      Mov64(R1, Int(v[0])), Mov64(R2, Int(v[1])), Mov64(R3, Int(v[2])),
      Mov64(R4, Int(v[3])), Mov64(R5, Int(v[4])), Mov64(R6, Int(v[5])),
      Mov64(R7, Int(v[6])), Mov64(R8, Int(v[7])), Mov64(R9, Int(v[8])) ]
  }

  /** The first n of the stores to R10 - 16, R10 - 24, ..., R10 - 512. */
  function StackInit(n: nat): (s: seq<Instruction>)
    ensures |s| == n
  {
    seq(n, k => NewStore(SIZE_DW, R10, Reg(R0), -(16 + 8 * k)))
  }

  function DefaultProg(v: seq<int>): (p: seq<Instruction>)
    requires |v| == 9
    ensures |p| == HEAD_SIZE
  {
    HeadCode(v) + StackInit(63)
  }

  /** `mapPtrArithmeticFooter` */
  function Footer(reg: nat, fd: int): (f: seq<Instruction>)
    ensures |f| == 13
  {
    [ Mov64(R8, Reg(reg)),
      LdMapByFd(R9, fd),
      NewStore(SIZE_W, R10, Int(0), -4),
      Mov64(R2, Reg(R10)),
      Add64(R2, Int(-4)),
      Mov64(R1, Reg(R9)),
      Call(MAP_LOOKUP),
      JmpNE(R0, Int(0), 1),
      Exit(),
      Add64(R0, Reg(R8)),
      NewStore(SIZE_DW, R0, Int(0xCAFE), 0),
      Mov64(R0, Int(0)),
      Exit() ]
  }

  ghost predicate Drawn(i: Instruction) {
    exists m: nat :: RandomInstruction(i, m)
  }

  /** Everything in the body came out of a generator, and its jumps are closed up to the length the offsets can express. */
  ghost predicate GoodBody(body: seq<Instruction>) {
    && (forall i | 0 <= i < |body| :: Drawn(body[i]))
    && (|body| <= 0x8000 ==> BodyClosed(body))
  }

  /** The default head with some descriptor patched in, then a good body. */
  ghost predicate CoverageProgram(p: seq<Instruction>, v: seq<int>)
    requires |v| == 9
  {
    && |p| >= HEAD_SIZE
    && IsI32(p[0].imm) && p[..HEAD_SIZE] == DefaultProg(v)[0 := LdMapByFd(R1, p[0].imm)]
    && GoodBody(p[HEAD_SIZE..])
  }

  // ---------------------------------------------------------------- invariance

  lemma DefaultProgIsGood(v: seq<int>)
    requires |v| == 9
    ensures CoverageProgram(DefaultProg(v), v)
  {
    var p := DefaultProg(v);
    assert p[0] == LdMapByFd(R1, 0) && p[..HEAD_SIZE] == p && p[HEAD_SIZE..] == [];
  }

  /** A mutation never shrinks a body, so the bound on the closure claim carries over from any descendant to its ancestor. */
  lemma MutationKeepsGoodBody(m: Mutation<Instruction>, body: seq<Instruction>)
    requires Allowed(m, |body|) && GoodBody(body)
    ensures GoodBody(Apply(m, body))
  {
    hide RandomInstruction, BodyClosed;
    var after := Apply(m, body);
    assert Drawn(m.n);
    forall i | 0 <= i < |after|
      ensures Drawn(after[i])
    {
      assert after[i] == m.n || after[i] in body;
    }
    if |after| <= 0x8000 {
      MutationKeepsClosure(m, body);
    }
  }

  lemma MutationKeepsCoverageProgram(m: Mutation<Instruction>, p: seq<Instruction>, q: seq<Instruction>, v: seq<int>)
    requires |v| == 9 && CoverageProgram(p, v) && Allowed(m, |p| - HEAD_SIZE)
    requires q == p[..HEAD_SIZE] + Apply(m, p[HEAD_SIZE..])
    ensures CoverageProgram(q, v)
  {
    hide GoodBody, DefaultProg, Allowed;
    AllowedApplies(m, |p| - HEAD_SIZE);
    MutationKeepsGoodBody(m, p[HEAD_SIZE..]);
    assert q[..HEAD_SIZE] == p[..HEAD_SIZE] && q[HEAD_SIZE..] == Apply(m, p[HEAD_SIZE..]);
    assert q[0] == q[..HEAD_SIZE][0] == p[0];
  }

  lemma AllowedApplies(m: Mutation<Instruction>, len: nat)
    requires Allowed(m, len)
    ensures Applicable(m, len)
  {
  }

  lemma PatchKeepsCoverageProgram(p: seq<Instruction>, fd: int, v: seq<int>)
    requires |v| == 9 && CoverageProgram(p, v)
    ensures p[0] == LdMapByFd(R1, p[0].imm)
    ensures CoverageProgram(p[0 := p[0].(imm := I32(fd))], v)
  {
    hide GoodBody, DefaultProg;
    var q := p[0 := p[0].(imm := I32(fd))];
    assert p[0] == p[..HEAD_SIZE][0] == LdMapByFd(R1, p[0].imm);
    assert q[..HEAD_SIZE] == p[..HEAD_SIZE][0 := LdMapByFd(R1, I32(fd))] && q[HEAD_SIZE..] == p[HEAD_SIZE..];
    assert I32(I32(fd)) == I32(fd);
  }

  // ---------------------------------------------------------------- shape of what is emitted

  lemma ConstantIsPlain(r: nat, x: int)
    requires r <= 9
    ensures var i := Mov64(r, Int(x)); WellFormed(i) && Supported(i) && !IsJump(i)
  {
  }

  lemma HeadCodePlain(v: seq<int>, i: nat)
    requires |v| == 9 && i < 17
    ensures var h := HeadCode(v); WellFormed(h[i]) && Supported(h[i]) && (IsJump(h[i]) <==> i == 5)
  {
    hide Mov64;
    var h := HeadCode(v);
    if 8 <= i {
      ConstantIsPlain(i - 7, v[i - 8]);
      assert h[i] == Mov64(i - 7, Int(v[i - 8]));
    } else if i == 2 {
      RegisterMoveIsPlain(R2, R10);
    }
  }

  lemma RegisterMoveIsPlain(d: nat, r: nat)
    requires d <= 10 && r <= 10
    ensures var i := Mov64(d, Reg(r)); WellFormed(i) && Supported(i) && !IsJump(i)
  {
  }

  lemma HeadIsSegment(v: seq<int>, fd: int)
    requires |v| == 9
    ensures Segment(DefaultProg(v)[0 := LdMapByFd(R1, fd)], HEAD_SIZE)
  {
    hide WellFormed, Supported, IsJump, HeadCode, StackInit;
    var h := DefaultProg(v)[0 := LdMapByFd(R1, fd)];
    forall i | 0 <= i < |h|
      ensures SegmentAt(h, i, HEAD_SIZE)
    {
      if i == 0 {
        MapLoadIsPlain(R1, fd);
      } else if i < 17 {
        HeadCodePlain(v, i);
        HeadBranch(v);
        assert h[6] == HeadCode(v)[6] && h[i] == HeadCode(v)[i];
      } else {
        StackInitPlain(63, i - 17);
        assert h[i] == StackInit(63)[i - 17];
      }
    }
  }

  lemma HeadBranch(v: seq<int>)
    requires |v| == 9
    ensures HeadCode(v)[5].offset == 1 && !IsWide(HeadCode(v)[6])
  {
  }

  lemma MapLoadIsPlain(r: nat, fd: int)
    requires r <= 10
    ensures var i := LdMapByFd(r, fd); WellFormed(i) && Supported(i) && !IsJump(i)
  {
  }

  lemma StackInitPlain(n: nat, k: nat)
    requires k < n <= 63
    ensures var i := StackInit(n)[k]; WellFormed(i) && Supported(i) && !IsJump(i)
  {
  }

  lemma FooterPlain(reg: nat, fd: int, i: nat)
    requires reg <= 9 && i < 13
    ensures var f := Footer(reg, fd); WellFormed(f[i]) && Supported(f[i]) && (IsJump(f[i]) <==> i == 7)
  {
    hide Mov64, LdMapByFd;
    if i == 0 {
      RegisterMoveIsPlain(R8, reg);
    } else if i == 1 {
      MapLoadIsPlain(R9, fd);
    } else if i == 3 {
      RegisterMoveIsPlain(R2, R10);
    } else if i == 5 {
      RegisterMoveIsPlain(R1, R9);
    } else if i == 11 {
      ConstantIsPlain(R0, 0);
    }
  }

  lemma FooterIsSegment(reg: nat, fd: int)
    requires reg <= 9
    ensures var f := Footer(reg, fd); Segment(f, 12) && IsExit(f[12])
  {
    hide WellFormed, Supported, IsJump;
    var f := Footer(reg, fd);
    forall i | 0 <= i < |f|
      ensures SegmentAt(f, i, 12)
    {
      FooterPlain(reg, fd, i);
    }
  }

  lemma BodyIsSegment(body: seq<Instruction>)
    requires GoodBody(body) && |body| <= 0x8000
    ensures Segment(body, |body|)
  {
    hide WellFormed, Supported, RandomInstruction;
    forall i | 0 <= i < |body|
      ensures WellFormed(body[i]) && Supported(body[i]) && !IsWide(body[i])
    {
      assert Drawn(body[i]);
      var m: nat :| RandomInstruction(body[i], m);
      RandomInstructionsAreNarrow(body[i], m);
    }
    forall i | 0 <= i < |body|
      ensures SegmentAt(body, i, |body|)
    {
      assert JumpInBody(body[i], i, |body|);
    }
  }

  /** Whatever mutations made the body, the emitted program is closed, with the footer's first instruction as barrier. */
  lemma EmittedIsClosed(p: seq<Instruction>, v: seq<int>, reg: nat, fd: int)
    requires |v| == 9 && CoverageProgram(p, v) && |p| - HEAD_SIZE <= 0x8000 && reg <= 9
    ensures Closed(p + Footer(reg, fd), |p|) && AllSupported(p + Footer(reg, fd))
  {
    hide DefaultProg, GoodBody, Segment, IsExit, Footer, LdMapByFd;
    var head, body := p[..HEAD_SIZE], p[HEAD_SIZE..];
    HeadIsSegment(v, p[0].imm);
    BodyIsSegment(body);
    SegmentsJoin(head, body, |body|);
    assert head + body == p;
    FooterIsSegment(reg, fd);
    SegmentsClose(p, Footer(reg, fd));
  }
}
