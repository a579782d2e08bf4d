/** What the builders' instructions do when executed. */
module InstructionEffects {
  import opened Words
  import opened Instructions
  import opened Encoding
  import opened Machine
  import opened MemoryModel

  lemma ExecuteMovReg(w: World, d: nat, r: nat, slot: nat, s: State)
    ensures Execute(w, Mov64(d, Reg(r)), slot, s) == Next(Set(s, d, Get(s, r)))
  {
  }

  /** The low and high words of a 64-bit constant recombine to it. */
  lemma HalvesRecombine(v: int)
    ensures I32(v) % 0x1_0000_0000 + 0x1_0000_0000 * (I32(v / 0x1_0000_0000) % 0x1_0000_0000) == v % 0x1_0000_0000_0000_0000
  {
    assert I32(v) % 0x1_0000_0000 == v % 0x1_0000_0000;
    var h := v / 0x1_0000_0000;
    assert I32(h) % 0x1_0000_0000 == h % 0x1_0000_0000;
    assert v == 0x1_0000_0000 * h + v % 0x1_0000_0000;
    assert v == 0x1_0000_0000_0000_0000 * (h / 0x1_0000_0000) + 0x1_0000_0000 * (h % 0x1_0000_0000) + v % 0x1_0000_0000;
  }

  /** Narrow or wide, `Mov64` with a constant leaves exactly that constant. */
  lemma ExecuteMovConstant(w: World, d: nat, src: Src, slot: nat, s: State)
    requires !src.Reg? && ValidSrc(src)
    ensures Execute(w, Mov64(d, src), slot, s) == Next(Set(s, d, src.v % 0x1_0000_0000_0000_0000))
  {
    hide Set, Get;
    if IsWide(Mov64(d, src)) {
      HalvesRecombine(src.v);
    }
  }

  /** The same for the bytes: one step over the encoding of `Mov64(d, v)`, 8 or 16 bytes long, ends behind it with v in d. */
  lemma EncodedMovLeavesConstant(w: World, d: nat, src: Src, s: State)
    requires !src.Reg? && ValidSrc(src) && d <= 10
    ensures var p := [Mov64(d, src)];
            && AllEncodable(p) && |Encode(p, 1)| == (if IsI32(src.v) && !src.Int64? then 8 else 16)
            && SlotStep(w, Encode(p, 1), Running(0, s)) == Running(|Encode(p, 1)| / 8, Set(s, d, src.v % 0x1_0000_0000_0000_0000))
  {
    hide Execute, Set, Encode, WellFormed, Encodable, SlotStep;
    var p := [Mov64(d, src)];
    MovWellFormed(d, src);
    WellFormedEncodable(p);
    ExecuteMovConstant(w, d, src, 0, s);
    MovIsNoJump(d, src);
    StepSimulates(w, p, Running(0, s));
    assert SlotOf(p, 0) == 0 && SlotOf(p, 1) == Slots(p[0]);
  }

  lemma MovWellFormed(d: nat, src: Src)
    requires d <= 10 && ValidSrc(src)
    ensures WellFormed(Mov64(d, src))
  {
  }

  lemma MovIsNoJump(d: nat, src: Src)
    ensures !IsJump(Mov64(d, src)) && (src.Reg? ==> !IsWide(Mov64(d, src)))
    ensures !src.Reg? ==> (IsWide(Mov64(d, src)) <==> src.Int64? || !IsI32(src.v))
  {
  }

  lemma ExecuteAddConstant(w: World, d: nat, v: int, slot: nat, s: State)
    requires IsI32(v) && d <= 10
    ensures Execute(w, Add64(d, Int(v)), slot, s) == Next(Set(s, d, (Get(s, d) + v) % 0x1_0000_0000_0000_0000))
    ensures Execute(w, Add64(d, Int32(v)), slot, s) == Next(Set(s, d, (Get(s, d) + v) % 0x1_0000_0000_0000_0000))
  {
    hide Set, Get, Alu64, Alu32;
    assert I32(v) == v;
    AddWords(Get(s, d), v % 0x1_0000_0000_0000_0000);
    SumModulo(Get(s, d), v);
  }

  lemma AddWords(a: Word, b: Word)
    ensures Alu64(ALU_ADD, a, b) == (a + b) % 0x1_0000_0000_0000_0000
  {
  }

  lemma SumModulo(a: int, v: int)
    ensures (a + v % 0x1_0000_0000_0000_0000) % 0x1_0000_0000_0000_0000 == (a + v) % 0x1_0000_0000_0000_0000
  {
  }

  lemma ExecuteAddReg(w: World, d: nat, r: nat, slot: nat, s: State)
    ensures Execute(w, Add64(d, Reg(r)), slot, s) == Next(Set(s, d, (Get(s, d) + Get(s, r)) % 0x1_0000_0000_0000_0000))
  {
    hide Set, Get;
  }

  lemma ExecuteStoreConstant(w: World, size: nat, d: nat, v: int, offset: int, slot: nat, s: State)
    requires IsI32(v)
    ensures Execute(w, NewStore(size, d, Int(v), offset), slot, s) == Next(s.(mem := Store(s.mem, Get(s, d) + offset, v, SizeBytes(size))))
    ensures Execute(w, NewStore(size, d, Int32(v), offset), slot, s) == Next(s.(mem := Store(s.mem, Get(s, d) + offset, v, SizeBytes(size))))
  {
    hide Set, Get, Store, SizeBytes;
  }

  lemma ExecuteMapLoad(w: World, d: nat, fd: int, slot: nat, s: State)
    ensures Execute(w, LdMapByFd(d, fd), slot, s) == Next(Set(s, d, w.mapAddr(I32(fd))))
  {
    hide Set, Get;
  }

  lemma ExecuteCall(w: World, f: int, slot: nat, s: State)
    requires IsI32(f)
    ensures Execute(w, Call(f), slot, s) == Next(w.call(s, f))
  {
  }

  /** The null check behind every lookup. */
  lemma ExecuteNullCheck(w: World, slot: nat, s: State)
    ensures Execute(w, JmpNE(R0, Int(0), 1), slot, s) == if Get(s, R0) != 0 then Goto(1, s) else Next(s)
  {
    hide Get;
  }

  // ---------------------------------------------------------------- LdMapElement

  function RunLine(w: World, p: seq<Instruction>, n: nat, s: State): Config
    requires n <= |p|
  {
    IndexRun(w, p, n, Running(0, s))
  }

  /**
   * Just before its call, `LdMapElement` has set R1 to the map, stored the element number in the 4 bytes at
   * keyPtr + offset, and pointed R2 there. The last holds for the keyPtr the caller passed exactly when keyPtr is not
   * R1, which the first instruction overwrites, or R1 already held the map.
   */
  lemma LdMapElementSetsUp(w: World, mapPtr: nat, element: int, keyPtr: nat, offset: int, s: State)
    requires mapPtr <= 10 && keyPtr <= 10 && IsI32(element) && IsI16(offset)
    ensures var p := LdMapElement(mapPtr, element, keyPtr, offset);
            var c := RunLine(w, p, 4, s);
            && c.Running? && c.pc == 4 && p[4] == Call(MAP_LOOKUP)
            && Get(c.s, R1) == Get(s, mapPtr)
            && Load(c.s.mem, Get(c.s, R2), 4) == element % 0x1_0000_0000
            && (Get(c.s, R2) == (Get(s, keyPtr) + offset) % 0x1_0000_0000_0000_0000 <==> keyPtr != R1 || Get(s, mapPtr) == Get(s, R1))
  {
    hide Execute, Store, Load, LittleEndian, Mov64, NewStore, Add64;
    var p := LdMapElement(mapPtr, element, keyPtr, offset);
    var s1 := Set(s, R1, Get(s, mapPtr));
    ExecuteMovReg(w, R1, mapPtr, SlotOf(p, 0), s);
    var key := Get(s1, keyPtr);
    var s2 := s1.(mem := Store(s1.mem, key + offset, element, 4));
    ExecuteStoreConstant(w, SIZE_W, keyPtr, element, offset, SlotOf(p, 1), s1);
    var s3 := Set(s2, R2, key);
    ExecuteMovReg(w, R2, keyPtr, SlotOf(p, 2), s2);
    var s4 := Set(s3, R2, (key + offset) % 0x1_0000_0000_0000_0000);
    ExecuteAddConstant(w, R2, offset, SlotOf(p, 3), s3);
    FourSteps(w, p, s, s1, s2, s3, s4);
    StoredWord(s1.mem, key + offset, element);
    LoadModulo(s4.mem, Get(s4, R2), key + offset, 4);
    if keyPtr == R1 {
      DifferentSums(Get(s, mapPtr), Get(s, R1), offset);
    }
  }

  lemma DifferentSums(a: Word, b: Word, offset: int)
    ensures (a + offset) % 0x1_0000_0000_0000_0000 == (b + offset) % 0x1_0000_0000_0000_0000 <==> a == b
  {
  }

  lemma FourSteps(w: World, p: seq<Instruction>, s0: State, s1: State, s2: State, s3: State, s4: State)
    requires |p| >= 4
    requires Execute(w, p[0], SlotOf(p, 0), s0) == Next(s1) && Execute(w, p[1], SlotOf(p, 1), s1) == Next(s2)
    requires Execute(w, p[2], SlotOf(p, 2), s2) == Next(s3) && Execute(w, p[3], SlotOf(p, 3), s3) == Next(s4)
    ensures RunLine(w, p, 4, s0) == Running(4, s4)
  {
    hide Execute, SlotOf;
    assert IndexRun(w, p, 1, Running(0, s0)) == Running(1, s1);
    assert IndexRun(w, p, 2, Running(0, s0)) == Running(2, s2);
    assert IndexRun(w, p, 3, Running(0, s0)) == Running(3, s3);
  }

  lemma StoredWord(m: map<Word, Byte>, a: int, v: int)
    ensures Load(Store(m, a, v, 4), a, 4) == v % 0x1_0000_0000
  {
    hide Store, Load, Block, LittleEndian, FromLittleEndian;
    LoadStored(m, a, v, 4);
    LoadIsBlock(Store(m, a, v, 4), a, 4);
    DoubleWordRoundTrip(v);
  }

  // ---------------------------------------------------------------- the numbers of the standard

  /** The operations of section 4.1 of RFC 9669, by their codes, in both widths and both source kinds. */
  lemma AluBytes()
    ensures forall k | 0 <= k < 13 ::
              var op := [ALU_ADD, ALU_SUB, ALU_MUL, ALU_DIV, ALU_OR, ALU_AND, ALU_LSH, ALU_RSH, ALU_NEG, ALU_MOD, ALU_XOR, ALU_MOV, ALU_ARSH][k];
              && OpcodeSum(NewAlu(op, CLASS_ALU, R0, Int32(0)).opcode) == 0x10 * k + 0x04 && OpcodeSum(NewAlu(op, CLASS_ALU, R0, Reg(R0)).opcode) == 0x10 * k + 0x0c
              && OpcodeSum(NewAlu(op, CLASS_ALU64, R0, Int32(0)).opcode) == 0x10 * k + 0x07 && OpcodeSum(NewAlu(op, CLASS_ALU64, R0, Reg(R0)).opcode) == 0x10 * k + 0x0f
  {
  }

  /** The jumps of section 4.3. */
  lemma JumpBytes()
    ensures forall k | 0 <= k < 14 ::
              var op := [JMP_JA, JMP_JEQ, JMP_JGT, JMP_JGE, JMP_JSET, JMP_JNE, JMP_JSGT, JMP_JSGE, JMP_CALL, JMP_EXIT, JMP_JLT, JMP_JLE, JMP_JSLT, JMP_JSLE][k];
              && OpcodeSum(NewJmp(op, CLASS_JMP, R0, Int32(0), 0).opcode) == 0x10 * k + 0x05 && OpcodeSum(NewJmp(op, CLASS_JMP, R0, Reg(R0), 0).opcode) == 0x10 * k + 0x0d
              && OpcodeSum(NewJmp(op, CLASS_JMP32, R0, Int32(0), 0).opcode) == 0x10 * k + 0x06 && OpcodeSum(NewJmp(op, CLASS_JMP32, R0, Reg(R0), 0).opcode) == 0x10 * k + 0x0e
    ensures OpcodeSum(Call(0).opcode) == 0x85 && OpcodeSum(Exit().opcode) == 0x95 && OpcodeSum(JmpNE(R0, Int(0), 0).opcode) == 0x55
  {
  }

  /** The loads and stores of section 5, the pseudo sources of 64-bit immediates, and the lookup helper. */
  lemma MemoryBytes()
    ensures forall k | 0 <= k < 4 ::
              var size := [SIZE_W, SIZE_H, SIZE_B, SIZE_DW][k];
              && OpcodeSum(NewLoad(size, R0, R0, 0).opcode) == 0x61 + 8 * k && OpcodeSum(NewStore(size, R0, Int32(0), 0).opcode) == 0x62 + 8 * k
              && OpcodeSum(NewStore(size, R0, Reg(R0), 0).opcode) == 0x63 + 8 * k && OpcodeSum(NewAtomic(R0, R0, size, 0, 0).opcode) == 0xc3 + 8 * k
              && SizeBytes(size) == [4, 2, 1, 8][k]
    ensures OpcodeSum(LoadImm64(R0, 0, 0, 0).opcode) == 0x18
    ensures LdMapByFd(R9, 7).src == 1 && LdFunctionPtr(7).src == 4 && LdFunctionPtr(7).dst == 2 && MAP_LOOKUP == 1
  {
  }

  /** Fields that the opcode does not show: registers, offsets and immediates go where the builders' arguments say. */
  lemma BuilderFields(d: nat, r: nat, v: int, offset: int, op: nat)
    requires IsI32(v)
    ensures var i := NewAlu(op, CLASS_ALU64, d, Reg(r)); i.dst == d && i.src == r && i.offset == 0 && i.imm == 0
    ensures var i := NewAlu(op, CLASS_ALU64, d, Int32(v)); i.dst == d && i.src == 0 && i.offset == 0 && i.imm == v
    ensures var i := NewJmp(op, CLASS_JMP, d, Reg(r), offset); i.dst == d && i.src == r && i.offset == offset && i.imm == 0
    ensures var i := NewJmp(op, CLASS_JMP, d, Int32(v), offset); i.dst == d && i.src == 0 && i.offset == offset && i.imm == v
    ensures var i := NewStore(SIZE_W, d, Reg(r), offset); i.dst == d && i.src == r && i.offset == offset && i.imm == 0
    ensures var i := NewStore(SIZE_W, d, Int32(v), offset); i.dst == d && i.src == 0 && i.offset == offset && i.imm == v
    ensures var i := NewLoad(SIZE_W, d, r, offset); i.dst == d && i.src == r && i.offset == offset && i.imm == 0
    ensures var i := NewAtomic(d, r, SIZE_W, offset, v); i.dst == d && i.src == r && i.offset == offset && i.imm == v
    ensures Call(v).dst == 0 && Call(v).src == 0 && Call(v).imm == v
  {
  }
}
