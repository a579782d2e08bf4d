/** What the two functions of the loop strategy compute, and which words its oracle lets through. */
module LoopOracle {
  import opened Words
  import opened Instructions
  import opened Encoding
  import opened Random
  import opened Machine
  import opened MemoryModel
  import opened ControlFlow
  import opened InstructionEffects
  import opened Oracle
  import opened LoopStrategy
  import Bits

  // ---------------------------------------------------------------- single instructions

  lemma ExecuteMov32(w: World, d: nat, v: nat, slot: nat, s: State)
    requires v < 0x8000_0000
    ensures Execute(w, NewAlu(ALU_MOV, CLASS_ALU, d, Int(v)), slot, s) == Next(Set(s, d, v))
  {
    hide Set, Get;
  }

  lemma ExecuteFunctionPtr(w: World, imm: int, slot: nat, s: State)
    ensures Execute(w, LdFunctionPtr(imm), slot, s) == Next(Set(s, R2, w.funcAddr(slot + 1 + imm)))
  {
    hide Set, Get;
  }

  lemma ExecuteLoad(w: World, size: nat, d: nat, r: nat, offset: int, slot: nat, s: State)
    ensures Execute(w, NewLoad(size, d, r, offset), slot, s)
         == Next(Set(s, d, Load(s.mem, Get(s, r) + offset, SizeBytes(size)) % 0x1_0000_0000_0000_0000))
  {
    hide Set, Get, Load, SizeBytes;
  }

  lemma ExecuteStore(w: World, size: nat, d: nat, r: nat, offset: int, slot: nat, s: State)
    ensures Execute(w, NewStore(size, d, Reg(r), offset), slot, s)
         == Next(s.(mem := Store(s.mem, Get(s, d) + offset, Get(s, r), SizeBytes(size))))
  {
    hide Store, Get, SizeBytes;
  }

  lemma {:induction false} WordBound(m: map<Word, Byte>, a: int)
    ensures Load(m, a, 4) < 0x1_0000_0000
  {
    hide ByteAt;
    assert Load(m, a + 4, 0) == 0;
    assert Load(m, a + 3, 1) < 0x100;
    assert Load(m, a + 2, 2) < 0x1_0000;
    assert Load(m, a + 1, 3) < 0x100_0000;
  }

  // ---------------------------------------------------------------- up to the helper

  ghost predicate BeginsWithMain(q: seq<Instruction>, fd: int) {
    |q| >= 29 && forall i | 0 <= i < 29 :: q[i] == MainFunction(fd)[i]
  }

  /** The two words that main clears before it calls the helper. */
  function Cleared(m: map<Word, Byte>, sp: int): map<Word, Byte> {
    Store(Store(m, sp - 4, 0, 4), sp - 12, 0, 4)
  }

  lemma MainHeaderCode(fd: int)
    ensures var m, h := MainFunction(fd), MainHeader(24); forall i | 0 <= i < 8 :: m[i] == h[i]
  {
    hide MainHeader;
    assert I32(|MainBody(fd)| + 3) == 24;
  }

  /**
   * At the call of the helper: ten turns, the address of the function that starts at slot 31, the context pointer, no
   * flags; and the words at R10 - 4 and R10 - 12 are clear.
   */
  lemma RunMainHeader(w: World, q: seq<Instruction>, fd: int, s: State) returns (t: State)
    requires BeginsWithMain(q, fd)
    ensures IndexRun(w, q, 7, Running(0, s)) == Running(7, t) && q[7] == Call(BPF_LOOP)
    ensures Get(t, R1) == 10 && Get(t, R2) == w.funcAddr(31) && Get(t, R4) == 0
    ensures Get(t, R3) == (Get(s, R10) - 8) % 0x1_0000_0000_0000_0000 && Get(t, R10) == Get(s, R10)
    ensures t.mem == Cleared(s.mem, Get(s, R10))
  {
    hide Execute, SlotOf, MainFunction, MainHeader, Mov64, NewStore, Add64, NewAlu, LdFunctionPtr, Call, Store, IndexStep;
    MainHeaderCode(fd);
    HeaderLines();
    var c, h := Running(0, s), MainHeader(24);
    var sp: int := Get(s, R10);
    assert q[0 + 0] == h[0] && q[0 + 1] == h[1] && q[0 + 2] == h[2] && q[0 + 3] == h[3];
    assert q[0 + 4] == h[4] && q[0 + 5] == h[5] && q[0 + 6] == h[6] && q[0 + 7] == h[7];
    var s1 := s.(mem := Store(s.mem, sp - 4, 0, 4));
    ExecuteStoreConstant(w, SIZE_W, R10, 0, -4, SlotOf(q, 0), s);
    StepNext(w, q, 0, 0, c, s, s1);
    var s2 := s1.(mem := Store(s1.mem, sp - 12, 0, 4));
    ExecuteStoreConstant(w, SIZE_W, R10, 0, -12, SlotOf(q, 1), s1);
    StepNext(w, q, 0, 1, c, s1, s2);
    var s3 := Set(s2, R3, sp);
    ExecuteMovReg(w, R3, R10, SlotOf(q, 2), s2);
    StepNext(w, q, 0, 2, c, s2, s3);
    var s4 := Set(s3, R3, (sp - 8) % 0x1_0000_0000_0000_0000);
    ExecuteAddConstant(w, R3, -8, SlotOf(q, 3), s3);
    StepNext(w, q, 0, 3, c, s3, s4);
    var s5 := Set(s4, R1, 10);
    ExecuteMov32(w, R1, 10, SlotOf(q, 4), s4);
    StepNext(w, q, 0, 4, c, s4, s5);
    var s6 := Set(s5, R4, 0);
    ExecuteMov32(w, R4, 0, SlotOf(q, 5), s5);
    StepNext(w, q, 0, 5, c, s5, s6);
    t := Set(s6, R2, w.funcAddr(31));
    PointerSlot(q, fd);
    ExecuteFunctionPtr(w, 24, SlotOf(q, 6), s6);
    StepNext(w, q, 0, 6, c, s6, t);
  }

  lemma HeaderLines()
    ensures var h := MainHeader(24);
            && h[0] == NewStore(SIZE_W, R10, Int(0), -4) && h[1] == NewStore(SIZE_W, R10, Int(0), -12)
            && h[2] == Mov64(R3, Reg(R10)) && h[3] == Add64(R3, Int(-8))
            && h[4] == NewAlu(ALU_MOV, CLASS_ALU, R1, Int(10)) && h[5] == NewAlu(ALU_MOV, CLASS_ALU, R4, Int(0))
            && h[6] == LdFunctionPtr(24) && h[7] == Call(BPF_LOOP)
  {
    hide Mov64, NewStore, Add64, NewAlu, LdFunctionPtr, Call;
  }

  lemma PointerSlot(q: seq<Instruction>, fd: int)
    requires BeginsWithMain(q, fd)
    ensures SlotOf(q, 6) == 6
  {
    hide MainFunction, SlotOf;
    var m := MainFunction(fd);
    MainSlots(fd);
    assert q[..29] == m[..29];
    SharedPrefixSlots(q, m, 29, 6);
  }

  // ---------------------------------------------------------------- behind the helper

  lemma BodyParts(q: seq<Instruction>, fd: int)
    requires BeginsWithMain(q, fd)
    ensures q[8] == LdMapByFd(R9, fd) && CodeAt(q, 9, LookupCode(0)) && CodeAt(q, 16, [ControlStore()])
    ensures CodeAt(q, 17, LookupCode(1)) && CodeAt(q, 24, MainTail())
  {
    hide MainFunction, MainBody, MainTail, LookupCode, ControlStore, LdMapByFd, CodeAt;
    var b := MainBody(fd);
    BodyBehindHeader(fd);
    BodySlices(fd);
    PartOf(q, 8, b, 1, LookupCode(0));
    PartOf(q, 8, b, 8, [ControlStore()]);
    PartOf(q, 8, b, 9, LookupCode(1));
    PartOf(q, 8, b, 16, MainTail());
    assert q[8 + 0] == b[0];
  }

  lemma BodyBehindHeader(fd: int)
    ensures forall k | 0 <= k < 21 :: MainFunction(fd)[8 + k] == MainBody(fd)[k]
  {
    hide MainHeader, MainBody;
  }

  lemma BodySlices(fd: int)
    ensures var b := MainBody(fd);
            && b[0] == LdMapByFd(R9, fd) && b[1..8] == LookupCode(0) && b[8..9] == [ControlStore()] && b[9..16] == LookupCode(1) && b[16..21] == MainTail()
            && |LookupCode(0)| == 7 && |LookupCode(1)| == 7
  {
    hide MainTail, LookupCode, ControlStore, LdMapByFd;
    LookupSizes();
  }

  lemma PartOf(q: seq<Instruction>, at: nat, b: seq<Instruction>, j: nat, code: seq<Instruction>)
    requires at + |b| <= |q| && (forall k | 0 <= k < |b| :: q[at + k] == b[k]) && j + |code| <= |b| && b[j..j + |code|] == code
    ensures CodeAt(q, at + j, code)
  {
    forall k | 0 <= k < |code|
      ensures q[at + j + k] == code[k]
    {
      assert q[at + (j + k)] == b[j + k] == b[j..j + |code|][k];
    }
  }

  /** The last five: the word at R10 - 12 is added to the pointer, and stored there. */
  lemma RunMainTail(w: World, q: seq<Instruction>, s: State) returns (t: State)
    requires CodeAt(q, 24, MainTail())
    ensures IndexRun(w, q, 5, Running(24, s)) == Halted(t) && Get(t, R0) == 0
    ensures var x := Load(s.mem, Get(s, R10) - 12, 4); t.mem == Store(s.mem, (Get(s, R0) + x) % 0x1_0000_0000_0000_0000, x, 4)
  {
    hide Execute, SlotOf, Mov64, NewStore, NewLoad, Add64, Store, Load, Exit, IndexStep;
    var c, code := Running(24, s), MainTail();
    TailLines();
    assert q[24 + 0] == code[0] && q[24 + 1] == code[1] && q[24 + 2] == code[2] && q[24 + 3] == code[3] && q[24 + 4] == code[4];
    var x := Load(s.mem, Get(s, R10) - 12, 4);
    WordBound(s.mem, Get(s, R10) - 12);
    var s1 := Set(s, R8, x);
    ExecuteLoad(w, SIZE_W, R8, R10, -12, SlotOf(q, 24), s);
    StepNext(w, q, 24, 0, c, s, s1);
    var s2 := Set(s1, R0, (Get(s, R0) + x) % 0x1_0000_0000_0000_0000);
    ExecuteAddReg(w, R0, R8, SlotOf(q, 25), s1);
    StepNext(w, q, 24, 1, c, s1, s2);
    var s3 := s2.(mem := Store(s2.mem, Get(s2, R0) + 0, x, 4));
    ExecuteStore(w, SIZE_W, R0, R8, 0, SlotOf(q, 26), s2);
    StepNext(w, q, 24, 2, c, s2, s3);
    t := Set(s3, R0, 0);
    ExecuteMovConstant(w, R0, Int(0), SlotOf(q, 27), s3);
    StepNext(w, q, 24, 3, c, s3, t);
    ExitHalts(w, SlotOf(q, 28), t);
    StepHalt(w, q, 24, 4, c, t);
  }

  lemma TailLines()
    ensures var code := MainTail();
            && code[0] == NewLoad(SIZE_W, R8, R10, -12) && code[1] == Add64(R0, Reg(R8)) && code[2] == NewStore(SIZE_W, R0, Reg(R8), 0)
            && code[3] == Mov64(R0, Int(0)) && code[4] == Exit()
  {
    hide NewLoad, Add64, NewStore, Mov64, Exit;
  }

  /** Memory when main halts, from the memory m that the helper left, with the word x found at R10 - 12. */
  function Finished(m: map<Word, Byte>, base: int, sp: int, x: nat): map<Word, Byte> {
    var control := Store(Store(m, sp - 4, 0, 4), base, 0xCAFE, 8);
    Store(Store(control, sp - 4, 1, 4), (base + 8 + x) % 0x1_0000_0000_0000_0000, x, 4)
  }

  /** From the helper's return to the end, with working lookups. */
  lemma RunMainBody(w: World, q: seq<Instruction>, fd: int, base: int, s: State) returns (t: State)
    requires BeginsWithMain(q, fd) && LookupWorks(w, fd, base, 2) && MapAt(base, 2, Get(s, R10))
    ensures IndexRun(w, q, 19, Running(8, s)) == Halted(t) && Get(t, R0) == 0
    ensures t.mem == Finished(s.mem, base, Get(s, R10), Load(s.mem, Get(s, R10) - 12, 4))
  {
    hide Execute, SlotOf, MainTail, LookupCode, ControlStore, LdMapByFd, Store, Load, IndexRun, CodeAt, InStack, LookupWorks;
    BodyParts(q, fd);
    var c, sp := Running(8, s), Get(s, R10);
    var s1 := Set(s, R9, w.mapAddr(I32(fd)));
    MapLine(w, q, fd, s);
    var s2 := RunLookup(w, q, 9, 0, fd, base, 2, s1);
    var s3 := RunControl(w, q, s2);
    var s4 := RunLookup(w, q, 17, 1, fd, base, 2, s3);
    t := RunMainTail(w, q, s4);
    RunAdds(w, q, 1, 6, c);
    RunAdds(w, q, 7, 1, c);
    RunAdds(w, q, 8, 6, c);
    RunAdds(w, q, 14, 5, c);
    WordKept(s.mem, base, sp);
  }

  lemma MapLine(w: World, q: seq<Instruction>, fd: int, s: State)
    requires |q| >= 29 && q[8] == LdMapByFd(R9, fd)
    ensures IndexRun(w, q, 1, Running(8, s)) == Running(9, Set(s, R9, w.mapAddr(I32(fd))))
  {
    hide Execute, SlotOf, LdMapByFd;
    ExecuteMapLoad(w, R9, fd, SlotOf(q, 8), s);
    StepNext(w, q, 8, 0, Running(8, s), s, Set(s, R9, w.mapAddr(I32(fd))));
  }

  lemma RunControl(w: World, q: seq<Instruction>, s: State) returns (t: State)
    requires CodeAt(q, 16, [ControlStore()])
    ensures IndexRun(w, q, 1, Running(16, s)) == Running(17, t) && t == s.(mem := Store(s.mem, Get(s, R0), 0xCAFE, 8))
  {
    hide Execute, SlotOf, NewStore, Store;
    assert q[16 + 0] == [ControlStore()][0];
    t := s.(mem := Store(s.mem, Get(s, R0) + 0, 0xCAFE, 8));
    ExecuteStoreConstant(w, SIZE_DW, R0, 0xCAFE, 0, SlotOf(q, 16), s);
    StepNext(w, q, 16, 0, Running(16, s), s, t);
  }

  /** Neither keys nor the control store touch the word at sp - 12. */
  lemma WordKept(m: map<Word, Byte>, base: int, sp: int)
    requires MapAt(base, 2, sp)
    ensures Load(Store(Store(Store(m, sp - 4, 0, 4), base, 0xCAFE, 8), sp - 4, 1, 4), sp - 12, 4) == Load(m, sp - 12, 4)
  {
    hide Store, ByteAt, LittleEndian;
    var m1 := Store(m, sp - 4, 0, 4);
    var m2 := Store(m1, base, 0xCAFE, 8);
    var m3 := Store(m2, sp - 4, 1, 4);
    forall x | sp - 12 <= x < sp - 12 + 4
      ensures ByteAt(m3, x) == ByteAt(m, x)
    {
      StoreBytes(m, sp - 4, 0, 4, x);
      StoreBytes(m1, base, 0xCAFE, 8, x);
      StoreBytes(m2, sp - 4, 1, 4, x);
      FarFromKey(x, sp);
      FarFromMap(x, base, sp);
    }
    BlockUnchanged(m, m3, sp - 12, 4);
  }

  lemma FarFromKey(x: int, sp: int)
    requires sp - 12 <= x < sp - 8
    ensures Distance(x, sp - 4) >= 4
  {
  }

  lemma FarFromMap(x: int, base: int, sp: int)
    requires MapAt(base, 2, sp) && sp - 12 <= x < sp - 8
    ensures Distance(x, base) >= 8
  {
    if Distance(x, base) < 8 {
      var a := base + Distance(x, base);
      assert InStack(a, sp) by {
        SameModulo(a, x, sp);
      }
    }
  }

  lemma SameModulo(a: int, x: int, sp: int)
    requires a % 0x1_0000_0000_0000_0000 == x % 0x1_0000_0000_0000_0000 && sp - 512 <= x < sp
    ensures Distance(a, sp - 512) == x - (sp - 512)
  {
  }

  // ---------------------------------------------------------------- the verdict

  /** Element 1 after the last store: byte k of it. */
  function StoredByte(k: int, x: nat): Byte {
    if k == x then x % 0x100 else 0
  }

  lemma SmallBytes(x: nat, j: nat)
    requires x < 8 && j < 4
    ensures LittleEndian(x, 4)[j] == if j == 0 then x else 0
  {
    hide LittleEndian;
    LittleEndianStep(x, 4);
    if j > 0 {
      ZeroBytes(3, j - 1);
    }
  }

  lemma NearOrFar(base: int, x: nat, k: nat)
    requires x < 0x1_0000_0000 && k < 8
    ensures Distance(base + 8 + k, base + 8 + x) < 4 <==> x <= k < x + 4
    ensures x <= k ==> Distance(base + 8 + k, base + 8 + x) == k - x
  {
  }

  lemma {:induction false} ZeroIsZero(m: map<Word, Byte>, a: int, n: nat)
    requires forall k: int | a <= k < a + n :: ByteAt(m, k) == 0
    ensures Load(m, a, n) == 0
    decreases n
  {
    if n > 0 {
      ZeroIsZero(m, a + 1, n - 1);
    }
  }

  /** Byte k of element 1 when main has halted. */
  lemma FinishedByte(m: map<Word, Byte>, base: int, sp: int, x: nat, k: nat)
    requires MapAt(base, 2, sp) && Element(m, base, 1) == 0 && x < 0x1_0000_0000 && k < 8
    ensures ByteAt(Finished(m, base, sp, x), base + 8 + k) == if x < 8 then StoredByte(k, x) else 0
  {
    hide Store, ByteAt, LittleEndian, InStack, Load, MapAt, Block;
    var m1 := Store(m, sp - 4, 0, 4);
    var m2 := Store(m1, base, 0xCAFE, 8);
    var m3 := Store(m2, sp - 4, 1, 4);
    StoreModulo(m3, (base + 8 + x) % 0x1_0000_0000_0000_0000, base + 8 + x, x, 4);
    MapBytesKept(m, base, 2, sp, 0, base + 8 + k);
    StoreBytes(m1, base, 0xCAFE, 8, base + 8 + k);
    NearDistance(base, k);
    MapBytesKept(m2, base, 2, sp, 1, base + 8 + k);
    StoreBytes(m3, base + 8 + x, x, 4, base + 8 + k);
    NearOrFar(base, x, k);
    ZeroLoad(m, base + 8, 8, k);
    if x <= k < x + 4 {
      SmallBytes(x, k - x);
    }
  }

  /**
   * Element 1, zero when the helper returns, is zero at the end exactly if the word was 0 or at least 8: displacements
   * beyond the element go unseen. Element 0 holds the constant in any case.
   */
  lemma LoopVerdictIsExact(m: map<Word, Byte>, base: int, sp: int, x: nat)
    requires MapAt(base, 2, sp) && Element(m, base, 1) == 0 && x < 0x1_0000_0000
    ensures var m' := Finished(m, base, sp, x);
            (Element(m', base, 1) == 0 <==> x == 0 || x >= 8) && Element(m', base, 0) == 0xCAFE
  {
    hide Store, ByteAt, LittleEndian, InStack, Load, MapAt, Block;
    var m1 := Store(m, sp - 4, 0, 4);
    var m2 := Store(m1, base, 0xCAFE, 8);
    var m3 := Store(m2, sp - 4, 1, 4);
    var m4 := Finished(m, base, sp, x);
    if x == 0 || x >= 8 {
      forall a: int | base + 8 <= a < base + 8 + 8
        ensures ByteAt(m4, a) == 0
      {
        var k := a - base - 8;
        FinishedByte(m, base, sp, x, k);
        assert base + 8 + k == a;
      }
      ZeroIsZero(m4, base + 8, 8);
    } else {
      FinishedByte(m, base, sp, x, x);
      if Load(m4, base + 8, 8) == 0 {
        ZeroLoad(m4, base + 8, 8, x);
      }
    }
    StoreModulo(m3, (base + 8 + x) % 0x1_0000_0000_0000_0000, base + 8 + x, x, 4);
    ControlKept(m1, m2, m3, m4, base, sp, x);
  }

  lemma ControlKept(m1: map<Word, Byte>, m2: map<Word, Byte>, m3: map<Word, Byte>, m4: map<Word, Byte>, base: int, sp: int, x: nat)
    requires MapAt(base, 2, sp) && x < 0x1_0000_0000
    requires m2 == Store(m1, base, 0xCAFE, 8) && m3 == Store(m2, sp - 4, 1, 4) && m4 == Store(m3, base + 8 + x, x, 4)
    ensures Load(m4, base, 8) == 0xCAFE
  {
    hide Store, ByteAt, LittleEndian, InStack, Load, MapAt, Block;
    forall a | base <= a < base + 8
      ensures ByteAt(m4, a) == ByteAt(m2, a)
    {
      MapBytesKept(m2, base, 2, sp, 1, a);
      StoreBytes(m3, base + 8 + x, x, 4, a);
      BeforeStore(a, base, x);
    }
    BlockUnchanged(m2, m4, base, 8);
    LoadStored(m1, base, 0xCAFE, 8);
    CafeStored(m2, base);
  }

  lemma BeforeStore(a: int, base: int, x: nat)
    requires base <= a < base + 8 && x < 0x1_0000_0000
    ensures Distance(a, base + 8 + x) >= 4
  {
  }

  // ---------------------------------------------------------------- main, from the bytes

  /** The state in which main calls the helper. */
  ghost predicate AtHelper(w: World, s0: State, s: State) {
    && Get(s, R1) == 10 && Get(s, R2) == w.funcAddr(31) && Get(s, R4) == 0
    && Get(s, R3) == (Get(s0, R10) - 8) % 0x1_0000_0000_0000_0000 && Get(s, R10) == Get(s0, R10)
    && s.mem == Cleared(s0.mem, Get(s0, R10))
  }

  /**
   * Every run of the bytes calls the helper after 7 steps, with its four arguments set up. If lookups work and the helper
   * gives R10 back and leaves element 1 zero, the run halts 20 steps later and returns 0; and the verdict on the map is
   * good exactly if the word that was left at R10 - 12 is 0 or at least 8.
   */
  lemma LoopOracleIsExact(w: World, fd: int, c: seq<int>, body: seq<Instruction>, base: int, s0: State) returns (s: State, t: State)
    requires LoopParts(c, body) && AllEncodable(MainFunction(fd) + LoopFunction(c, body))
    ensures var q := MainFunction(fd) + LoopFunction(c, body);
            && SlotRun(w, Encode(q, |q|), 7, Running(0, s0)) == Running(SlotOf(q, 7), s) && q[7] == Call(BPF_LOOP) && AtHelper(w, s0, s)
            && var back := w.call(s, BPF_LOOP);
               LookupWorks(w, fd, base, 2) && Get(back, R10) == Get(s0, R10) && MapAt(base, 2, Get(s0, R10)) && Element(back.mem, base, 1) == 0 ==>
                 var x := Load(back.mem, Get(s0, R10) - 12, 4);
                 && SlotRun(w, Encode(q, |q|), 27, Running(0, s0)) == Halted(t) && Get(t, R0) == 0
                 && t.mem == Finished(back.mem, base, Get(s0, R10), x)
                 && (LoopVerdict(Some([Element(t.mem, base, 0), Element(t.mem, base, 1)])) == Some(true) <==> x == 0 || x >= 8)
  {
    hide MainFunction, LoopFunction, Encode, AllEncodable, AllWellFormed, JumpsAgree, SlotRun, IndexRun, SlotOf, LoopBody, Execute;
    hide LookupWorks, MapAt, Element, Finished, Cleared, Load, Store;
    var q := MainFunction(fd) + LoopFunction(c, body);
    FunctionsAreSeparate(fd, c, body);
    Starts(fd, c, body);
    s := RunMainHeader(w, q, fd, s0);
    SlotExecutionSimulates(w, q, 7, Running(0, s0));
    AtZero(q);
    t := s;
    var back := w.call(s, BPF_LOOP);
    if LookupWorks(w, fd, base, 2) && Get(back, R10) == Get(s0, R10) && MapAt(base, 2, Get(s0, R10)) && Element(back.mem, base, 1) == 0 {
      var x := Load(back.mem, Get(s0, R10) - 12, 4);
      HelperStep(w, q, s);
      t := RunMainBody(w, q, fd, base, back);
      RunAdds(w, q, 7, 1, Running(0, s0));
      RunAdds(w, q, 8, 19, Running(0, s0));
      SlotExecutionSimulates(w, q, 27, Running(0, s0));
      WordBound(back.mem, Get(s0, R10) - 12);
      LoopVerdictIsExact(back.mem, base, Get(s0, R10), x);
    }
  }

  lemma Starts(fd: int, c: seq<int>, body: seq<Instruction>)
    requires |c| == 9
    ensures BeginsWithMain(MainFunction(fd) + LoopFunction(c, body), fd)
  {
    hide MainFunction, LoopFunction;
  }

  lemma AtZero(q: seq<Instruction>)
    ensures SlotOf(q, 0) == 0
  {
  }

  lemma HelperStep(w: World, q: seq<Instruction>, s: State)
    requires |q| >= 29 && q[7] == Call(BPF_LOOP)
    ensures IndexRun(w, q, 1, Running(7, s)) == Running(8, w.call(s, BPF_LOOP))
  {
    hide Execute, SlotOf, Call;
    ExecuteCall(w, BPF_LOOP, SlotOf(q, 7), s);
    StepNext(w, q, 7, 0, Running(7, s), s, w.call(s, BPF_LOOP));
  }

  // ---------------------------------------------------------------- the loop function

  ghost predicate HasLoopFunction(q: seq<Instruction>, c: seq<int>, body: seq<Instruction>) {
    |c| == 9 && CodeAt(q, 29, LoopFunction(c, body))
  }

  lemma LoopFunctionAt(fd: int, c: seq<int>, body: seq<Instruction>)
    requires |c| == 9
    ensures HasLoopFunction(MainFunction(fd) + LoopFunction(c, body), c, body)
  {
    hide MainFunction, LoopFunction;
    PartAt(MainFunction(fd), LoopFunction(c, body), 0, LoopFunction(c, body));
  }

  /** Register k of the nine that get constants: all but R1, the number of the turn. */
  function InitRegister(k: nat): nat {
    if k == 0 then 0 else k + 1
  }

  lemma PrologueLines(c: seq<int>, body: seq<Instruction>)
    requires |c| == 9
    ensures |LoopFunction(c, body)| == 12 + |body| && LoopFunction(c, body)[0] == NewStore(SIZE_DW, R10, Reg(R2), -8)
    ensures forall k | 0 <= k < 9 :: LoopFunction(c, body)[1 + k] == Mov64(InitRegister(k), Int32(c[k]))
    ensures forall k | 0 <= k < |body| :: LoopFunction(c, body)[10 + k] == body[k]
    ensures LoopFunction(c, body)[10 + |body|] == NewAlu(ALU_MOV, CLASS_ALU, R0, Int(0)) && LoopFunction(c, body)[11 + |body|] == Exit()
  {
    hide NewStore, Mov64, NewAlu, Exit;
  }

  /** After j of the constants. */
  lemma {:induction false} RunInit(w: World, q: seq<Instruction>, c: seq<int>, body: seq<Instruction>, j: nat, s: State) returns (t: State)
    requires HasLoopFunction(q, c, body) && j <= 9 && forall k | 0 <= k < 9 :: IsI32(c[k])
    ensures IndexRun(w, q, j, Running(30, s)) == Running(30 + j, t)
    ensures t.mem == s.mem && Get(t, R1) == Get(s, R1) && Get(t, R10) == Get(s, R10)
    ensures forall k | 0 <= k < j :: Get(t, InitRegister(k)) == c[k] % 0x1_0000_0000_0000_0000
  {
    hide Execute, SlotOf, LoopFunction, IndexStep, Mov64;
    if j == 0 {
      return s;
    }
    var u := RunInit(w, q, c, body, j - 1, s);
    PrologueLines(c, body);
    assert q[29 + (1 + (j - 1))] == LoopFunction(c, body)[1 + (j - 1)];
    t := Set(u, InitRegister(j - 1), c[j - 1] % 0x1_0000_0000_0000_0000);
    ExecuteMovConstant(w, InitRegister(j - 1), Int32(c[j - 1]), SlotOf(q, 30 + (j - 1)), u);
    StepNext(w, q, 30, j - 1, Running(30, s), u, t);
  }

  /** The function keeps its context pointer at R10 - 8 and its turn in R1, and gives every other register its constant. */
  lemma RunPrologue(w: World, q: seq<Instruction>, c: seq<int>, body: seq<Instruction>, s: State) returns (t: State)
    requires HasLoopFunction(q, c, body) && forall k | 0 <= k < 9 :: IsI32(c[k])
    ensures IndexRun(w, q, 10, Running(29, s)) == Running(39, t)
    ensures t.mem == Store(s.mem, Get(s, R10) - 8, Get(s, R2), 8) && Get(t, R1) == Get(s, R1) && Get(t, R10) == Get(s, R10)
    ensures forall k | 0 <= k < 9 :: Get(t, InitRegister(k)) == c[k] % 0x1_0000_0000_0000_0000
  {
    hide Execute, SlotOf, LoopFunction, IndexStep, IndexRun, NewStore, Store;
    PrologueLines(c, body);
    var u := s.(mem := Store(s.mem, Get(s, R10) - 8, Get(s, R2), 8));
    assert q[29 + 0] == LoopFunction(c, body)[0];
    FirstLine(w, q, s, u);
    t := RunInit(w, q, c, body, 9, u);
    RunAdds(w, q, 1, 9, Running(29, s));
  }

  lemma FirstLine(w: World, q: seq<Instruction>, s: State, u: State)
    requires |q| > 29 && q[29] == NewStore(SIZE_DW, R10, Reg(R2), -8) && u == s.(mem := Store(s.mem, Get(s, R10) - 8, Get(s, R2), 8))
    ensures IndexRun(w, q, 1, Running(29, s)) == Running(30, u)
  {
    hide Execute, SlotOf, NewStore, Store;
    ExecuteStore(w, SIZE_DW, R10, R2, -8, SlotOf(q, 29), s);
    assert Get(s, R10) + -8 == Get(s, R10) - 8;
    StepNext(w, q, 29, 0, Running(29, s), s, u);
  }

  // ---------------------------------------------------------------- the write below the context

  lemma LowSix(x: nat)
    ensures Bits.And(x, 0x3f) == x % 64
  {
    hide Bits.And;
    Bits.AndLowMask(x, 6);
    assert Bits.Pow2(6) - 1 == 0x3f;
    LowIsRemainder(x);
  }

  lemma LowIsRemainder(x: nat)
    ensures Bits.Low(x, 6) == x % 64
  {
    hide *;
    Bits.ShiftByThree(x);
    Bits.ShiftByThree(x / 8);
    Bits.ShiftByThree(x / 8 % 8);
    Bits.LowAdds(x, 3, 3);
  }

  lemma ExecuteMask(w: World, d: nat, slot: nat, s: State)
    requires d <= 10
    ensures Execute(w, NewAlu(ALU_AND, CLASS_ALU, d, Int(0x3f)), slot, s) == Next(Set(s, d, Get(s, d) % 64))
  {
    hide Set, Get, Bits.And;
    var a := Get(s, d);
    LowSix(a % 0x1_0000_0000);
    assert a % 0x1_0000_0000 % 64 == a % 64;
  }

  lemma ExecuteNegate(w: World, d: nat, slot: nat, s: State)
    requires d <= 10
    ensures Execute(w, NewAlu(ALU_MUL, CLASS_ALU64, d, Int(-1)), slot, s) == Next(Set(s, d, (0 - Get(s, d)) % 0x1_0000_0000_0000_0000))
  {
    hide Set, Get, Bits.And;
    Negative(Get(s, d));
  }

  lemma Negative(a: Word)
    ensures a * 0xffff_ffff_ffff_ffff % 0x1_0000_0000_0000_0000 == (0 - a) % 0x1_0000_0000_0000_0000
  {
    assert a * 0xffff_ffff_ffff_ffff == (0 - a) + a * 0x1_0000_0000_0000_0000;
    Multiple(0 - a, a);
  }

  lemma {:induction false} Multiple(x: int, k: nat)
    ensures (x + k * 0x1_0000_0000_0000_0000) % 0x1_0000_0000_0000_0000 == x % 0x1_0000_0000_0000_0000
  {
    if k > 0 {
      Multiple(x, k - 1);
      assert x + k * 0x1_0000_0000_0000_0000 == x + (k - 1) * 0x1_0000_0000_0000_0000 + 0x1_0000_0000_0000_0000;
    }
  }

  /**
   * The six instructions of a context write: one byte, 16, is stored 0 to 63 bytes below the saved context pointer, as
   * the low six bits of the drawn register say; R2 gets its new constant, the drawn register its negated low bits, and
   * nothing else changes.
   */
  lemma RunContextWrite(w: World, q: seq<Instruction>, at: nat, reg: nat, c: int, s: State) returns (t: State)
    requires CodeAt(q, at, ContextWrite(reg, c)) && reg <= 9 && reg != R1 && reg != R2 && IsI32(c)
    ensures IndexRun(w, q, 6, Running(at, s)) == Running(at + 6, t)
    ensures var below := Get(s, reg) % 64;
            && t.mem == Store(s.mem, (Load(s.mem, Get(s, R10) - 8, 8) - below) % 0x1_0000_0000_0000_0000, 16, 1)
            && t.regs == s.regs[reg := (0 - below) % 0x1_0000_0000_0000_0000][R2 := c % 0x1_0000_0000_0000_0000]
  {
    hide Execute, SlotOf, Store, Load, Mov64, NewAlu, NewLoad, NewStore, Add64, IndexStep;
    WriteLines(reg, c);
    var k, code := Running(at, s), ContextWrite(reg, c);
    assert q[at + 0] == code[0] && q[at + 1] == code[1] && q[at + 2] == code[2] && q[at + 3] == code[3] && q[at + 4] == code[4] && q[at + 5] == code[5];
    var below, saved := Get(s, reg) % 64, Load(s.mem, Get(s, R10) - 8, 8) % 0x1_0000_0000_0000_0000;
    var s1 := Set(s, R2, saved);
    ExecuteLoad(w, SIZE_DW, R2, R10, -8, SlotOf(q, at), s);
    StepNext(w, q, at, 0, k, s, s1);
    var s2 := Set(s1, reg, below);
    ExecuteMask(w, reg, SlotOf(q, at + 1), s1);
    StepNext(w, q, at, 1, k, s1, s2);
    var s3 := Set(s2, reg, (0 - below) % 0x1_0000_0000_0000_0000);
    ExecuteNegate(w, reg, SlotOf(q, at + 2), s2);
    StepNext(w, q, at, 2, k, s2, s3);
    var s4 := Set(s3, R2, (saved + (0 - below) % 0x1_0000_0000_0000_0000) % 0x1_0000_0000_0000_0000);
    ExecuteAddReg(w, R2, reg, SlotOf(q, at + 3), s3);
    StepNext(w, q, at, 3, k, s3, s4);
    var s5 := s4.(mem := Store(s4.mem, Get(s4, R2) + 0, 16, 1));
    ExecuteStoreConstant(w, SIZE_B, R2, 16, 0, SlotOf(q, at + 4), s4);
    StepNext(w, q, at, 4, k, s4, s5);
    t := Set(s5, R2, c % 0x1_0000_0000_0000_0000);
    ExecuteMovConstant(w, R2, Int32(c), SlotOf(q, at + 5), s5);
    StepNext(w, q, at, 5, k, s5, t);
    BelowSaved(Load(s.mem, Get(s, R10) - 8, 8), below);
  }

  lemma WriteLines(reg: nat, c: int)
    ensures var code := ContextWrite(reg, c);
            && code[0] == NewLoad(SIZE_DW, R2, R10, -8) && code[1] == NewAlu(ALU_AND, CLASS_ALU, reg, Int(0x3f))
            && code[2] == NewAlu(ALU_MUL, CLASS_ALU64, reg, Int(-1)) && code[3] == Add64(R2, Reg(reg))
            && code[4] == NewStore(SIZE_B, R2, Int(16), 0) && code[5] == Mov64(R2, Int32(c))
  {
    hide Mov64, NewAlu, NewLoad, NewStore, Add64;
  }

  lemma BelowSaved(x: nat, below: nat)
    requires below < 64
    ensures (x % 0x1_0000_0000_0000_0000 + (0 - below) % 0x1_0000_0000_0000_0000) % 0x1_0000_0000_0000_0000 == (x - below) % 0x1_0000_0000_0000_0000
  {
  }

  // ---------------------------------------------------------------- the callback returns

  /** All of both functions but the last two instructions, as one stretch. */
  lemma BeforeFoot(fd: int, c: seq<int>, body: seq<Instruction>)
    requires LoopParts(c, body)
    ensures var q := MainFunction(fd) + LoopFunction(c, body);
            && |q| == 41 + |body| && Closed(q, 39 + |body|) && AllSupported(q)
            && forall i | 29 <= i < 39 + |body| :: !IsExit(q[i])
  {
    hide Segment, MainFunction, InitRegisters, NewStore, LoopFoot, IsExit, Closed, AllSupported;
    var save := [NewStore(SIZE_DW, R10, Reg(R2), -8)];
    var m, q := MainFunction(fd), MainFunction(fd) + LoopFunction(c, body);
    MainIsSegment(fd);
    SegmentWeakens(m, 28);
    SaveIsSegment();
    InitIsSegment(c);
    LoopBodyIsSegment(body);
    FootIsSegment();
    SegmentsJoin(m, save, 1);
    SegmentsJoin(m + save, InitRegisters(c), 9);
    SegmentsJoin(m + save + InitRegisters(c), body, |body|);
    var front := m + save + InitRegisters(c) + body;
    SegmentsClose(front, LoopFoot());
    assert front + LoopFoot() == q;
    forall i | 29 <= i < 39 + |body|
      ensures !IsExit(q[i])
    {
      NoExitBefore(c, body, i - 29);
      assert q[i] == LoopFunction(c, body)[i - 29];
    }
  }

  lemma NoExitBefore(c: seq<int>, body: seq<Instruction>, i: nat)
    requires LoopParts(c, body) && i < 10 + |body|
    ensures !IsExit(LoopFunction(c, body)[i])
  {
    PrologueLines(c, body);
    if i >= 10 {
      assert NarrowWithin(body[i - 10], |body| + 0 - (i - 10) - 1);
    }
  }

  /** From anywhere before the barrier, with no Exit in between, every run comes to the barrier. */
  lemma {:induction false} ComesToBarrier(w: World, p: seq<Instruction>, barrier: nat, at: nat, s: State) returns (k: nat, t: State)
    requires Closed(p, barrier) && AllSupported(p) && at <= barrier < |p|
    requires forall i | at <= i < barrier :: !IsExit(p[i])
    ensures k <= barrier - at && IndexRun(w, p, k, Running(at, s)) == Running(barrier, t)
    decreases barrier - at
  {
    hide Execute, WellFormed, Supported, IsJump, IsExit;
    if at == barrier {
      return 0, s;
    }
    var e := Execute(w, p[at], SlotOf(p, at), s);
    SupportedEffect(w, p[at], SlotOf(p, at), s);
    OnlyExitHalts(w, p[at], SlotOf(p, at), s);
    assert IsJump(p[at]) ==> JumpClosed(p, at, barrier);
    var next := if e.Next? then at + 1 else at + 1 + e.delta;
    assert IndexStep(w, p, Running(at, s)) == Running(next, e.s);
    var j;
    j, t := ComesToBarrier(w, p, barrier, next, e.s);
    k := 1 + j;
    OneThen(w, p, Running(at, s), j);
  }

  lemma OnlyExitHalts(w: World, i: Instruction, slot: nat, s: State)
    ensures Execute(w, i, slot, s).Halt? ==> IsExit(i)
  {
    hide Taken, Get, Operand, Set, Load, Store, Alu, Alu64, Alu32, Immediate64;
  }

  /** Entered in any state, the loop function returns 0, within as many steps as it has instructions. */
  lemma LoopFunctionReturnsZero(w: World, fd: int, c: seq<int>, body: seq<Instruction>, s: State) returns (k: nat, t: State)
    requires LoopParts(c, body)
    ensures k <= |LoopFunction(c, body)|
    ensures IndexRun(w, MainFunction(fd) + LoopFunction(c, body), k, Running(29, s)) == Halted(t) && Get(t, R0) == 0
  {
    hide MainFunction, LoopFunction, Closed, AllSupported, IsExit, IndexRun, Execute, SlotOf, LoopBody;
    var q := MainFunction(fd) + LoopFunction(c, body);
    BeforeFoot(fd, c, body);
    PrologueLines(c, body);
    var j, u;
    j, u := ComesToBarrier(w, q, 39 + |body|, 29, s);
    t := Set(u, R0, 0);
    RunFoot(w, q, 39 + |body|, u, t);
    RunAdds(w, q, j, 2, Running(29, s));
    k := j + 2;
  }

  lemma RunFoot(w: World, q: seq<Instruction>, at: nat, u: State, t: State)
    requires at + 2 <= |q| && q[at] == NewAlu(ALU_MOV, CLASS_ALU, R0, Int(0)) && q[at + 1] == Exit() && t == Set(u, R0, 0)
    ensures IndexRun(w, q, 2, Running(at, u)) == Halted(t)
  {
    hide Execute, SlotOf, NewAlu, Exit;
    ExecuteMov32(w, R0, 0, SlotOf(q, at), u);
    StepNext(w, q, at, 0, Running(at, u), u, t);
    ExitHalts(w, SlotOf(q, at + 1), t);
    StepHalt(w, q, at, 1, Running(at, u), t);
  }
}
