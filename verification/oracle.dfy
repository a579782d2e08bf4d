/** The in-program oracle: which runtime values of the tested register the map check lets through. */
module Oracle {
  import opened Words
  import opened Instructions
  import opened Encoding
  import opened Machine
  import opened MemoryModel
  import opened ControlFlow
  import opened InstructionEffects
  import opened Generators

  // ---------------------------------------------------------------- the map and the stack

  predicate InStack(a: int, sp: int) {
    Distance(a, sp - 512) < 512
  }

  /** An array map of n 8-byte elements at base, inside the address space and away from the stack frame. */
  ghost predicate MapAt(base: int, n: nat, sp: int) {
    0 < base && base + 8 * n <= 0x1_0000_0000_0000_0000 && forall a | base <= a < base + 8 * n :: !InStack(a, sp)
  }

  /** `map_lookup_elem` on the map fd: a valid key gives its element's address; memory and R6..R10 are preserved. */
  ghost predicate LookupWorks(w: World, fd: int, base: int, n: nat) {
    forall s: State ::
      Get(s, R1) == w.mapAddr(I32(fd)) && Load(s.mem, Get(s, R2), 4) < n ==>
        var r := w.call(s, MAP_LOOKUP);
        && r.mem == s.mem && Get(r, R0) == base + 8 * Load(s.mem, Get(s, R2), 4)
        && forall k | 6 <= k <= 10 :: Get(r, k) == Get(s, k)
  }

  /** There are such platforms, for every map that fits the address space. */
  lemma LookupsCanWork(fd: int, base: int, n: nat) returns (w: World)
    requires 0 < base && base + 8 * n <= 0x1_0000_0000_0000_0000
    ensures LookupWorks(w, fd, base, n)
  {
    hide Load;
    var call := (s: State, f: int) =>
      var k := Load(s.mem, Get(s, R2), 4);
      if k < n then Set(s, R0, base + 8 * k) else s;
    w := World(call, _ => 0, _ => 0);
  }

  /** What user space reads back. */
  function Element(m: map<Word, Byte>, base: int, k: nat): nat {
    Load(m, base + 8 * k, 8)
  }

  // ---------------------------------------------------------------- instructions that keep to the stack

  /** Neither calls nor exits, never writes R10, and stores only inside [R10 - 512, R10). */
  predicate Quiet(i: Instruction) {
    match i.opcode
    case AluOpcode(_, _, _) => i.dst <= 9
    case JmpOpcode(op, _, _) => ConditionalOp(op)
    case MemOpcode(_, size, cls) =>
      if cls == CLASS_LD || cls == CLASS_LDX then i.dst <= 9
      else i.dst == R10 && -512 <= i.offset && i.offset + SizeBytes(size) <= 0
    case NoOpcode => false
  }

  ghost predicate OutsideStackSame(m: map<Word, Byte>, m': map<Word, Byte>, sp: int) {
    forall a: int :: !InStack(a, sp) ==> ByteAt(m', a) == ByteAt(m, a)
  }

  lemma StackStore(m: map<Word, Byte>, sp: int, offset: int, v: int, n: nat)
    requires -512 <= offset && offset + n <= 0
    ensures OutsideStackSame(m, Store(m, sp + offset, v, n), sp)
  {
    hide Store, ByteAt, LittleEndian;
    forall a: int | !InStack(a, sp)
      ensures ByteAt(Store(m, sp + offset, v, n), a) == ByteAt(m, a)
    {
      StoreBytes(m, sp + offset, v, n, a);
      Outside(a, sp, offset, n);
    }
  }

  lemma Outside(a: int, sp: int, offset: int, n: nat)
    requires -512 <= offset && offset + n <= 0 && !InStack(a, sp)
    ensures Distance(a, sp + offset) >= n
  {
  }

  /** One quiet instruction leaves R10 and everything outside the stack frame alone. */
  lemma QuietEffect(w: World, i: Instruction, slot: nat, s: State)
    requires Quiet(i) && Supported(i)
    ensures var e := Execute(w, i, slot, s);
            && (e.Next? || (e.Goto? && IsJump(i) && e.delta == i.offset))
            && Get(e.s, R10) == Get(s, R10) && OutsideStackSame(s.mem, e.s.mem, Get(s, R10))
  {
    hide Alu, Alu64, Alu32, Taken, Operand, Load, Store, ByteAt, Immediate64;
    if i.opcode.MemOpcode? && i.opcode.cls != CLASS_LD && i.opcode.cls != CLASS_LDX {
      var sp, n := Get(s, R10), SizeBytes(i.opcode.size);
      var e := Execute(w, i, slot, s);
      if i.opcode.mode == MODE_MEM {
        StackStore(s.mem, sp, i.offset, if i.opcode.cls == CLASS_ST then i.imm else Get(s, i.src), n);
      } else {
        StackStore(s.mem, sp, i.offset, Alu(i.imm, Load(s.mem, sp + i.offset, n), Get(s, i.src), 0, 64), n);
      }
    }
  }

  lemma RandomIsQuiet(i: Instruction, maxJmp: nat)
    requires RandomInstruction(i, maxJmp)
    ensures Quiet(i)
  {
  }

  // ---------------------------------------------------------------- running up to the footer

  lemma {:induction false} RunAdds(w: World, p: seq<Instruction>, j: nat, k: nat, c: Config)
    ensures IndexRun(w, p, j + k, c) == IndexRun(w, p, k, IndexRun(w, p, j, c))
  {
    hide IndexStep;
    if k > 0 {
      RunAdds(w, p, j, k - 1, c);
    }
  }

  /** From `from` to the barrier everything is quiet, so every run gets to the barrier with the map as it was. */
  lemma {:induction false} ReachesBarrier(w: World, p: seq<Instruction>, barrier: nat, at: nat, s: State) returns (k: nat, t: State)
    requires Closed(p, barrier) && AllSupported(p) && at <= barrier < |p|
    requires forall i | at <= i < barrier :: Quiet(p[i])
    ensures IndexRun(w, p, k, Running(at, s)) == Running(barrier, t)
    ensures Get(t, R10) == Get(s, R10) && OutsideStackSame(s.mem, t.mem, Get(s, R10))
    decreases barrier - at
  {
    hide Execute, WellFormed, Supported, Quiet, IsJump, ByteAt, InStack;
    if at == barrier {
      return 0, s;
    }
    var e := Execute(w, p[at], SlotOf(p, at), s);
    QuietEffect(w, p[at], SlotOf(p, at), s);
    assert IsJump(p[at]) ==> JumpClosed(p, at, barrier);
    var next := if e.Next? then at + 1 else at + 1 + e.delta;
    var c := IndexStep(w, p, Running(at, s));
    assert c == Running(next, e.s);
    var j;
    j, t := ReachesBarrier(w, p, barrier, next, e.s);
    k := 1 + j;
    OneThen(w, p, Running(at, s), j);
  }

  lemma OneThen(w: World, p: seq<Instruction>, c: Config, j: nat)
    ensures IndexRun(w, p, 1 + j, c) == IndexRun(w, p, j, IndexStep(w, p, c))
  {
    hide IndexStep;
    RunAdds(w, p, 1, j, c);
    assert IndexRun(w, p, 1, c) == IndexStep(w, p, IndexRun(w, p, 0, c));
  }

  /** What keeps to the stack keeps the map. */
  lemma MapSurvives(m: map<Word, Byte>, m': map<Word, Byte>, base: int, n: nat, sp: int, k: nat)
    requires MapAt(base, n, sp) && k < n && OutsideStackSame(m, m', sp)
    ensures Element(m', base, k) == Element(m, base, k)
  {
    hide ByteAt, InStack;
    BlockUnchanged(m, m', base + 8 * k, 8);
  }

  // ---------------------------------------------------------------- the pieces of the footers

  /** R8 := the register under test, R9 := the map. */
  function StartCode(reg: nat, fd: int): seq<Instruction> {
    [ Mov64(R8, Reg(reg)), LdMapByFd(R9, fd) ]
  }

  /** Looks up element `key` of the map in R9, and leaves on null. */
  function LookupCode(key: int): seq<Instruction> {
    [ NewStore(SIZE_W, R10, Int(key), -4),
      Mov64(R2, Reg(R10)),
      Add64(R2, Int(-4)),
      Mov64(R1, Reg(R9)),
      Call(MAP_LOOKUP),
      JmpNE(R0, Int(0), 1),
      Exit() ]
  }

  /** The control store, between the two lookups. */
  function ControlStore(): Instruction {
    NewStore(SIZE_DW, R0, Int(0xCAFE), 0)
  }

  /** Pointer arithmetic with R8, the test store, and the end. */
  function TailCode(): seq<Instruction> {
    [ Add64(R0, Reg(R8)), NewStore(SIZE_DW, R0, Int(0xCAFE), 0), Mov64(R0, Int(0)), Exit() ]
  }

  lemma LookupIsSegment(key: int)
    requires IsI32(key)
    ensures Segment(LookupCode(key), 7)
  {
    var l := LookupCode(key);
    forall i | 0 <= i < 7
      ensures SegmentAt(l, i, 7)
    {
    }
  }

  lemma ControlIsSegment()
    ensures Segment([ControlStore()], 1)
  {
    StraightLine([ControlStore()]);
  }

  ghost predicate CodeAt(q: seq<Instruction>, at: nat, code: seq<Instruction>) {
    at + |code| <= |q| && forall k | 0 <= k < |code| :: q[at + k] == code[k]
  }

  lemma PartAt(p: seq<Instruction>, f: seq<Instruction>, j: nat, code: seq<Instruction>)
    requires j + |code| <= |f| && f[j..j + |code|] == code
    ensures CodeAt(p + f, |p| + j, code)
  {
    var q, at := p + f, |p| + j;
    forall k | 0 <= k < |code|
      ensures q[at + k] == code[k]
    {
      assert q[at + k] == f[j + k] == f[j..j + |code|][k];
    }
  }

  lemma StepNext(w: World, q: seq<Instruction>, at: nat, k: nat, c: Config, s: State, t: State)
    requires at + k < |q| && IndexRun(w, q, k, c) == Running(at + k, s)
    requires Execute(w, q[at + k], SlotOf(q, at + k), s) == Next(t)
    ensures IndexRun(w, q, k + 1, c) == Running(at + k + 1, t)
  {
    hide Execute, SlotOf;
  }

  lemma RunStart(w: World, q: seq<Instruction>, at: nat, reg: nat, fd: int, s: State) returns (t: State)
    requires CodeAt(q, at, StartCode(reg, fd)) && reg <= 10
    ensures IndexRun(w, q, 2, Running(at, s)) == Running(at + 2, t)
    ensures t.mem == s.mem && Get(t, R8) == Get(s, reg) && Get(t, R9) == w.mapAddr(I32(fd)) && Get(t, R10) == Get(s, R10)
  {
    hide Execute, SlotOf, Mov64, LdMapByFd, IndexStep;
    var c, code := Running(at, s), StartCode(reg, fd);
    assert q[at + 0] == code[0] && q[at + 1] == code[1];
    var s1 := Set(s, R8, Get(s, reg));
    ExecuteMovReg(w, R8, reg, SlotOf(q, at), s);
    StepNext(w, q, at, 0, c, s, s1);
    t := Set(s1, R9, w.mapAddr(I32(fd)));
    ExecuteMapLoad(w, R9, fd, SlotOf(q, at + 1), s1);
    StepNext(w, q, at, 1, c, s1, t);
  }

  /** Up to the call: the map in R1, and the key stored behind R2. */
  lemma RunToLookup(w: World, q: seq<Instruction>, at: nat, key: nat, fd: int, s: State) returns (t: State)
    requires CodeAt(q, at, LookupCode(key)) && key <= 1 && Get(s, R9) == w.mapAddr(I32(fd))
    ensures IndexRun(w, q, 4, Running(at, s)) == Running(at + 4, t)
    ensures at + 7 <= |q| && q[at + 4] == Call(MAP_LOOKUP) && q[at + 5] == JmpNE(R0, Int(0), 1) && q[at + 6] == Exit()
    ensures t.mem == Store(s.mem, Get(s, R10) - 4, key, 4) && Get(t, R1) == w.mapAddr(I32(fd)) && Load(t.mem, Get(t, R2), 4) == key
    ensures Get(t, R8) == Get(s, R8) && Get(t, R9) == Get(s, R9) && Get(t, R10) == Get(s, R10)
  {
    hide Execute, SlotOf, Mov64, NewStore, Add64, Store, Load, JmpNE, IndexStep, Call, Exit;
    var c, code := Running(at, s), LookupCode(key);
    var sp: int := Get(s, R10);
    assert q[at + 0] == code[0] && q[at + 1] == code[1] && q[at + 2] == code[2] && q[at + 3] == code[3];
    assert q[at + 4] == code[4] && q[at + 5] == code[5] && q[at + 6] == code[6];
    var s1 := s.(mem := Store(s.mem, sp - 4, key, 4));
    ExecuteStoreConstant(w, SIZE_W, R10, key, -4, SlotOf(q, at), s);
    StepNext(w, q, at, 0, c, s, s1);
    var s2 := Set(s1, R2, sp);
    ExecuteMovReg(w, R2, R10, SlotOf(q, at + 1), s1);
    StepNext(w, q, at, 1, c, s1, s2);
    var s3 := Set(s2, R2, (sp - 4) % 0x1_0000_0000_0000_0000);
    ExecuteAddConstant(w, R2, -4, SlotOf(q, at + 2), s2);
    StepNext(w, q, at, 2, c, s2, s3);
    t := Set(s3, R1, w.mapAddr(I32(fd)));
    ExecuteMovReg(w, R1, R9, SlotOf(q, at + 3), s3);
    StepNext(w, q, at, 3, c, s3, t);
    StoredWord(s.mem, sp - 4, key);
    LoadModulo(t.mem, Get(t, R2), sp - 4, 4);
  }

  /** A lookup of a valid key comes back with the element's address; the only store is the key, at R10 - 4. */
  lemma RunLookup(w: World, q: seq<Instruction>, at: nat, key: nat, fd: int, base: int, n: nat, s: State) returns (t: State)
    requires CodeAt(q, at, LookupCode(key)) && key < n && key <= 1
    requires LookupWorks(w, fd, base, n) && Get(s, R9) == w.mapAddr(I32(fd)) && base > 0
    ensures IndexRun(w, q, 6, Running(at, s)) == Running(at + 7, t)
    ensures t.mem == Store(s.mem, Get(s, R10) - 4, key, 4) && Get(t, R0) == base + 8 * key
    ensures Get(t, R8) == Get(s, R8) && Get(t, R9) == Get(s, R9) && Get(t, R10) == Get(s, R10)
  {
    hide Execute, SlotOf, LookupCode, Store, Load, JmpNE, IndexStep, IndexRun, Call, Exit;
    var u := RunToLookup(w, q, at, key, fd, s);
    t := w.call(u, MAP_LOOKUP);
    ExecuteCall(w, MAP_LOOKUP, SlotOf(q, at + 4), u);
    StepNext(w, q, at, 4, Running(at, s), u, t);
    ExecuteNullCheck(w, SlotOf(q, at + 5), t);
    StepOver(w, q, at, 5, Running(at, s), t);
  }

  /** `map_lookup_elem` on the map fd with a key that is not there: a null pointer, memory and R6..R10 preserved. */
  ghost predicate LookupFails(w: World, fd: int) {
    forall s: State :: Get(s, R1) == w.mapAddr(I32(fd)) ==>
      var r := w.call(s, MAP_LOOKUP);
      r.mem == s.mem && Get(r, R0) == 0 && forall k | 6 <= k <= 10 :: Get(r, k) == Get(s, k)
  }

  /** A failed lookup ends the program at once, with 0 in R0; the only store is the key. */
  lemma RunFailedLookup(w: World, q: seq<Instruction>, at: nat, key: nat, fd: int, s: State) returns (t: State)
    requires CodeAt(q, at, LookupCode(key)) && key <= 1 && LookupFails(w, fd) && Get(s, R9) == w.mapAddr(I32(fd))
    ensures IndexRun(w, q, 7, Running(at, s)) == Halted(t)
    ensures t.mem == Store(s.mem, Get(s, R10) - 4, key, 4) && Get(t, R0) == 0 && Get(t, R10) == Get(s, R10)
  {
    hide Execute, SlotOf, LookupCode, Store, Load, JmpNE, IndexStep, IndexRun, Call, Exit;
    var u := RunToLookup(w, q, at, key, fd, s);
    t := w.call(u, MAP_LOOKUP);
    ExecuteCall(w, MAP_LOOKUP, SlotOf(q, at + 4), u);
    StepNext(w, q, at, 4, Running(at, s), u, t);
    ExecuteNullCheck(w, SlotOf(q, at + 5), t);
    StepNext(w, q, at, 5, Running(at, s), t, t);
    ExitHalts(w, SlotOf(q, at + 6), t);
    StepHalt(w, q, at, 6, Running(at, s), t);
  }

  lemma StepHalt(w: World, q: seq<Instruction>, at: nat, k: nat, c: Config, s: State)
    requires at + k < |q| && IndexRun(w, q, k, c) == Running(at + k, s)
    requires Execute(w, q[at + k], SlotOf(q, at + k), s) == Halt(s)
    ensures IndexRun(w, q, k + 1, c) == Halted(s)
  {
    hide Execute, SlotOf;
  }

  lemma StepOver(w: World, q: seq<Instruction>, at: nat, k: nat, c: Config, s: State)
    requires at + k < |q| && IndexRun(w, q, k, c) == Running(at + k, s)
    requires Execute(w, q[at + k], SlotOf(q, at + k), s) == Goto(1, s)
    ensures IndexRun(w, q, k + 1, c) == Running(at + k + 2, s)
  {
    hide Execute, SlotOf;
  }

  lemma RunTail(w: World, q: seq<Instruction>, at: nat, s: State) returns (t: State)
    requires CodeAt(q, at, TailCode())
    ensures IndexRun(w, q, 4, Running(at, s)) == Halted(t)
    ensures t.mem == Store(s.mem, (Get(s, R0) + Get(s, R8)) % 0x1_0000_0000_0000_0000, 0xCAFE, 8) && Get(t, R0) == 0
  {
    hide Execute, SlotOf, Mov64, NewStore, Add64, Store, Exit;
    var c, code := Running(at, s), TailCode();
    assert q[at + 0] == code[0] && q[at + 1] == code[1] && q[at + 2] == code[2] && q[at + 3] == code[3];
    var s1 := Set(s, R0, (Get(s, R0) + Get(s, R8)) % 0x1_0000_0000_0000_0000);
    ExecuteAddReg(w, R0, R8, SlotOf(q, at), s);
    StepNext(w, q, at, 0, c, s, s1);
    var s2 := s1.(mem := Store(s1.mem, Get(s1, R0) + 0, 0xCAFE, 8));
    ExecuteStoreConstant(w, SIZE_DW, R0, 0xCAFE, 0, SlotOf(q, at + 1), s1);
    StepNext(w, q, at, 1, c, s1, s2);
    t := Set(s2, R0, 0);
    ExecuteMovConstant(w, R0, Int(0), SlotOf(q, at + 2), s2);
    StepNext(w, q, at, 2, c, s2, t);
    ExitHalts(w, SlotOf(q, at + 3), t);
    assert IndexRun(w, q, 4, c) == IndexStep(w, q, IndexRun(w, q, 3, c));
  }

  lemma ExitHalts(w: World, slot: nat, s: State)
    ensures Execute(w, Exit(), slot, s) == Halt(s)
  {
  }

  // ---------------------------------------------------------------- the verdicts

  /** Byte k of the constant 0xCAFE, stored as 8 bytes. */
  function Cafe(k: int): Byte {
    if k == 0 then 0xFE else if k == 1 then 0xCA else 0
  }

  lemma CafeBytes(k: nat)
    requires k < 8
    ensures LittleEndian(0xCAFE, 8)[k] == Cafe(k)
  {
    hide LittleEndian;
    LittleEndianStep(0xCAFE, 8);
    LittleEndianStep(0xCA, 7);
    if k >= 2 {
      ZeroBytes(6, k - 2);
    }
  }

  lemma {:induction false} ZeroBytes(n: nat, k: nat)
    requires k < n
    ensures LittleEndian(0, n)[k] == 0
  {
    if k > 0 {
      ZeroBytes(n - 1, k - 1);
    }
  }

  /** The byte k places after the tested element's start, once the constant has been stored d places after it. */
  function TestByte(k: int, d: int, before: Byte): Byte {
    if 0 <= k - d < 8 then Cafe(k - d) else before
  }

  /** The test store at `base + r`, seen from an address x near base; r counts as a signed displacement. */
  lemma TestStore(m: map<Word, Byte>, base: int, r: Word, x: int)
    requires -0x100 < x - base < 0x100
    ensures ByteAt(Store(m, (base + r) % 0x1_0000_0000_0000_0000, 0xCAFE, 8), x) == TestByte(x - base, I64(r), ByteAt(m, x))
  {
    hide Store, ByteAt, LittleEndian, Cafe;
    StoreModulo(m, (base + r) % 0x1_0000_0000_0000_0000, base + r, 0xCAFE, 8);
    StoreBytes(m, base + r, 0xCAFE, 8, x);
    SignedDistance(x, base, r);
    var d := x - base - I64(r);
    if 0 <= d < 8 {
      CafeBytes(d);
    }
  }

  lemma SignedDistance(x: int, base: int, r: Word)
    requires -0x100 < x - base < 0x100
    ensures Distance(x, base + r) < 8 <==> 0 <= x - base - I64(r) < 8
    ensures 0 <= x - base - I64(r) < 8 ==> Distance(x, base + r) == x - base - I64(r)
  {
    var d := x - base - I64(r);
    assert x - (base + r) == d || x - (base + r) == d - 0x1_0000_0000_0000_0000;
    SmallModulo(d);
  }

  lemma SmallModulo(d: int)
    requires -0x1_0000_0000_0000_0000 <= d < 0x1_0000_0000_0000_0000
    ensures d % 0x1_0000_0000_0000_0000 == (d - 0x1_0000_0000_0000_0000) % 0x1_0000_0000_0000_0000
    ensures d % 0x1_0000_0000_0000_0000 == if d >= 0 then d else d + 0x1_0000_0000_0000_0000
  {
  }

  /** The key store is on the stack, so the map does not see it. */
  lemma MapBytesKept(m: map<Word, Byte>, base: int, n: nat, sp: int, key: int, x: int)
    requires MapAt(base, n, sp) && base <= x < base + 8 * n
    ensures ByteAt(Store(m, sp - 4, key, 4), x) == ByteAt(m, x)
  {
    hide Store, ByteAt;
    StackStore(m, sp, -4, key, 4);
  }

  lemma {:induction false} CafeStored(m: map<Word, Byte>, a: int)
    requires Block(m, a, 8) == LittleEndian(0xCAFE, 8)
    ensures Load(m, a, 8) == 0xCAFE
  {
    hide Block, ByteAt;
    LoadIsBlock(m, a, 8);
    SplitLittleEndian(0xCAFE, 6);
    HalfWordRoundTrip(0xCAFE);
    FromConcat(LittleEndian(0xCAFE, 2), LittleEndian(0, 6));
    ZeroReads(6);
  }

  lemma {:induction false} ZeroReads(n: nat)
    ensures FromLittleEndian(LittleEndian(0, n)) == 0
  {
    if n > 0 {
      ZeroReads(n - 1);
      assert LittleEndian(0, n)[1..] == LittleEndian(0, n - 1);
    }
  }

  /** One element, zeroed: it reads back as the constant exactly when the displacement was zero. */
  lemma OneElementVerdict(m: map<Word, Byte>, base: int, sp: int, r: Word)
    requires MapAt(base, 1, sp) && Element(m, base, 0) == 0
    ensures Element(Store(Store(m, sp - 4, 0, 4), (base + r) % 0x1_0000_0000_0000_0000, 0xCAFE, 8), base, 0) == 0xCAFE <==> r == 0
  {
    hide Store, ByteAt, LittleEndian, Block, InStack, Load;
    var m1 := Store(m, sp - 4, 0, 4);
    var m2 := Store(m1, (base + r) % 0x1_0000_0000_0000_0000, 0xCAFE, 8);
    if r == 0 {
      LoadStored(m1, base, 0xCAFE, 8);
      CafeStored(m2, base);
    } else {
      TestStore(m1, base, r, base);
      MapBytesKept(m, base, 1, sp, 0, base);
      ZeroLoad(m, base, 8, 0);
      LowByte(m2, base, 8);
    }
  }

  /** Bytes k of the control element and of the tested element, after both stores. */
  function ControlByte(k: int, d: int): Byte { TestByte(k - 8, d, Cafe(k)) }
  function TestedByte(k: int, d: int): Byte { TestByte(k, d, 0) }

  predicate Undetected(d: int) {
    d == 0 || -14 <= d <= -10
  }

  lemma ByteVerdict(d: int)
    ensures Undetected(d) <==> forall k: int | 0 <= k < 8 :: ControlByte(k, d) == TestedByte(k, d)
  {
    if !Undetected(d) {
      assert ControlByte(0, d) != TestedByte(0, d) || ControlByte(1, d) != TestedByte(1, d);
    }
  }

  /** The memory after both lookups and both stores, from m on. */
  function TwoStores(m: map<Word, Byte>, base: int, sp: int, r: Word): map<Word, Byte> {
    var control := Store(Store(m, sp - 4, 0, 4), base, 0xCAFE, 8);
    Store(Store(control, sp - 4, 1, 4), (base + 8 + r) % 0x1_0000_0000_0000_0000, 0xCAFE, 8)
  }

  lemma TwoStoresBytes(m: map<Word, Byte>, base: int, sp: int, r: Word, k: int)
    requires MapAt(base, 2, sp) && Element(m, base, 1) == 0 && 0 <= k < 8
    ensures ByteAt(TwoStores(m, base, sp, r), base + k) == ControlByte(k, I64(r))
    ensures ByteAt(TwoStores(m, base, sp, r), base + 8 + k) == TestedByte(k, I64(r))
  {
    hide Store, ByteAt, LittleEndian, InStack, Load, Cafe, I64;
    var m1 := Store(m, sp - 4, 0, 4);
    var m2 := Store(m1, base, 0xCAFE, 8);
    var m3 := Store(m2, sp - 4, 1, 4);
    TestStore(m3, base + 8, r, base + k);
    TestStore(m3, base + 8, r, base + 8 + k);
    MapBytesKept(m2, base, 2, sp, 1, base + k);
    MapBytesKept(m2, base, 2, sp, 1, base + 8 + k);
    StoreBytes(m1, base, 0xCAFE, 8, base + k);
    StoreBytes(m1, base, 0xCAFE, 8, base + 8 + k);
    NearDistance(base, k);
    CafeBytes(k);
    MapBytesKept(m, base, 2, sp, 0, base + 8 + k);
    ZeroLoad(m, base + 8, 8, k);
  }

  lemma NearDistance(base: int, k: int)
    requires 0 <= k < 8
    ensures Distance(base + k, base) == k && Distance(base + 8 + k, base) == 8 + k
  {
  }

  /** Two elements, the second zeroed: they read back equal exactly when the displacement is 0 or one of -14..-10. */
  lemma TwoElementVerdict(m: map<Word, Byte>, base: int, sp: int, r: Word)
    requires MapAt(base, 2, sp) && Element(m, base, 1) == 0
    ensures var m' := TwoStores(m, base, sp, r); Element(m', base, 0) == Element(m', base, 1) <==> Undetected(I64(r))
  {
    hide TwoStores, ByteAt, Block, MapAt, ControlByte, TestedByte, Load, I64;
    var m', d := TwoStores(m, base, sp, r), I64(r);
    LoadsAgree(m', base, m', base + 8, 8);
    var s, t := Block(m', base, 8), Block(m', base + 8, 8);
    forall k | 0 <= k < 8
      ensures s[k] == ControlByte(k, d) && t[k] == TestedByte(k, d)
    {
      BlockByte(m', base, 8, k);
      BlockByte(m', base + 8, 8, k);
      TwoStoresBytes(m, base, sp, r, k);
    }
    ByteVerdict(d);
    assert s == t <==> forall k: int | 0 <= k < 8 :: s[k] == t[k];
    assert (forall k: int | 0 <= k < 8 :: s[k] == t[k]) <==> forall k: int | 0 <= k < 8 :: ControlByte(k, d) == TestedByte(k, d);
  }
}
