/** Instructions as the protobuf messages hold them (open enums are integers), and the builders. */
module Instructions {
  import opened Words

  const ALU_ADD: nat := 0x00
  const ALU_SUB: nat := 0x10
  const ALU_MUL: nat := 0x20
  const ALU_DIV: nat := 0x30
  const ALU_OR: nat := 0x40
  const ALU_AND: nat := 0x50
  const ALU_LSH: nat := 0x60
  const ALU_RSH: nat := 0x70
  const ALU_NEG: nat := 0x80
  const ALU_MOD: nat := 0x90
  const ALU_XOR: nat := 0xa0
  const ALU_MOV: nat := 0xb0
  const ALU_ARSH: nat := 0xc0

  const JMP_JA: nat := 0x00
  const JMP_JEQ: nat := 0x10
  const JMP_JGT: nat := 0x20
  const JMP_JGE: nat := 0x30
  const JMP_JSET: nat := 0x40
  const JMP_JNE: nat := 0x50
  const JMP_JSGT: nat := 0x60
  const JMP_JSGE: nat := 0x70
  const JMP_CALL: nat := 0x80
  const JMP_EXIT: nat := 0x90
  const JMP_JLT: nat := 0xa0
  const JMP_JLE: nat := 0xb0
  const JMP_JSLT: nat := 0xc0
  const JMP_JSLE: nat := 0xd0

  const SRC_IMM: nat := 0x00
  const SRC_REG: nat := 0x08

  const CLASS_LD: nat := 0
  const CLASS_LDX: nat := 1
  const CLASS_ST: nat := 2
  const CLASS_STX: nat := 3
  const CLASS_ALU: nat := 4
  const CLASS_JMP: nat := 5
  const CLASS_JMP32: nat := 6
  const CLASS_ALU64: nat := 7

  const MODE_IMM: nat := 0x00
  const MODE_MEM: nat := 0x60
  const MODE_ATOMIC: nat := 0xc0

  const SIZE_W: nat := 0x00
  const SIZE_H: nat := 0x08
  const SIZE_B: nat := 0x10
  const SIZE_DW: nat := 0x18

  const R0: nat := 0
  const R1: nat := 1
  const R2: nat := 2
  const R3: nat := 3
  const R4: nat := 4
  const R5: nat := 5
  const R6: nat := 6
  const R7: nat := 7
  const R8: nat := 8
  const R9: nat := 9
  const R10: nat := 10

  const PSEUDO_MAP_FD: nat := 1
  const PSEUDO_FUNC: nat := 4
  const MAP_LOOKUP: int := 1

  datatype Opcode =
    | AluOpcode(op: nat, source: nat, cls: nat)
    | JmpOpcode(op: nat, source: nat, cls: nat)
    | MemOpcode(mode: nat, size: nat, cls: nat)
    | NoOpcode

  datatype Pseudo = Empty | PseudoValue(ins: Instruction)

  datatype Instruction = Instruction(opcode: Opcode, dst: nat, src: nat, offset: int, imm: int, pseudo: Pseudo)

  /** The instantiations of the type parameter `T Src`; Go's `int` has 64 bits. */
  datatype Src = Reg(r: nat) | Int32(v: int) | Int(v: int) | Int64(v: int)

  predicate ValidSrc(s: Src) {
    match s
    case Reg(r) => r <= 10
    case Int32(v) => IsI32(v)
    case Int(v) => IsI64(v)
    case Int64(v) => IsI64(v)
  }

  /** The second half of a 16-byte instruction: only its immediate means anything. */
  function PseudoWord(imm: int): Instruction {
    Instruction(MemOpcode(0, 0, 0), 0, 0, 0, imm, Empty)
  }

  function LoadImm64(dst: nat, src: nat, low: int, high: int): Instruction {
    Instruction(MemOpcode(MODE_IMM, SIZE_DW, CLASS_LD), dst, src, 0, low, PseudoValue(PseudoWord(high)))
  }

  /** The source kind, source register and immediate fields chosen by the type switch on `src`. */
  function SourceField(s: Src): nat { if s.Reg? then SRC_REG else SRC_IMM }
  function RegField(s: Src): nat { if s.Reg? then s.r else R0 }
  function ImmField(s: Src): int { if s.Reg? then 0 else I32(s.v) }

  function NewAlu(oc: nat, cls: nat, dst: nat, s: Src): Instruction
    requires s.Int64? ==> oc == ALU_MOV
  {
    if s.Int64? then LoadImm64(dst, R0, I32(s.v), I32(s.v / 0x1_0000_0000))
    else Instruction(AluOpcode(oc, SourceField(s), cls), dst, RegField(s), 0, ImmField(s), Empty)
  }

  function Add64(dst: nat, s: Src): Instruction
    requires !s.Int64?
  {
    NewAlu(ALU_ADD, CLASS_ALU64, dst, s)
  }

  /** Picks the 16-byte form when the constant does not survive a round trip through int32. */
  function Mov64(dst: nat, s: Src): Instruction {
    if !s.Reg? && I32(s.v) != s.v then NewAlu(ALU_MOV, CLASS_ALU64, dst, Int64(s.v))
    else NewAlu(ALU_MOV, CLASS_ALU64, dst, s)
  }

  function NewJmp(oc: nat, cls: nat, dst: nat, s: Src, offset: int): Instruction
    requires !s.Int64?
  {
    Instruction(JmpOpcode(oc, SourceField(s), cls), dst, RegField(s), offset, ImmField(s), Empty)
  }

  function JmpNE(dst: nat, s: Src, offset: int): Instruction
    requires !s.Int64?
  {
    NewJmp(JMP_JNE, CLASS_JMP, dst, s, offset)
  }

  function Call(f: int): Instruction {
    NewJmp(JMP_CALL, CLASS_JMP, R0, Int32(f), 0)
  }

  function Exit(): Instruction {
    NewJmp(JMP_EXIT, CLASS_JMP, R0, Int32(0), 0)
  }

  function NewStore(size: nat, dst: nat, s: Src, offset: int): Instruction
    requires !s.Int64?
  {
    Instruction(MemOpcode(MODE_MEM, size, if s.Reg? then CLASS_STX else CLASS_ST), dst, RegField(s), offset, ImmField(s), Empty)
  }

  function NewLoad(size: nat, dst: nat, src: nat, offset: int): Instruction {
    Instruction(MemOpcode(MODE_MEM, size, CLASS_LDX), dst, src, offset, 0, Empty)
  }

  function NewAtomic(dst: nat, src: nat, size: nat, offset: int, operation: int): Instruction {
    Instruction(MemOpcode(MODE_ATOMIC, size, CLASS_STX), dst, src, offset, operation, Empty)
  }

  function LdMapByFd(dst: nat, fd: int): Instruction {
    LoadImm64(dst, PSEUDO_MAP_FD, I32(fd), 0)
  }

  function LdFunctionPtr(imm: int): Instruction {
    LoadImm64(R2, PSEUDO_FUNC, imm, 0)
  }

  /** Leaves a pointer to element `element` of the map in R0, or null. */
  function LdMapElement(mapPtr: nat, element: int, keyPtr: nat, offset: int): seq<Instruction> {
    [ Mov64(R1, Reg(mapPtr)),
      NewStore(SIZE_W, keyPtr, Int32(element), offset),
      Mov64(R2, Reg(keyPtr)),
      Add64(R2, Int32(offset)),
      Call(MAP_LOOKUP) ]
  }

  predicate IsWide(i: Instruction) { i.pseudo.PseudoValue? }

  function Slots(i: Instruction): nat { if IsWide(i) then 2 else 1 }

  predicate OpcodeWellFormed(o: Opcode) {
    match o
    case AluOpcode(op, source, cls) => op % 16 == 0 && op <= 0xf0 && (source == SRC_IMM || source == SRC_REG) && (cls == CLASS_ALU || cls == CLASS_ALU64)
    case JmpOpcode(op, source, cls) => op % 16 == 0 && op <= 0xf0 && (source == SRC_IMM || source == SRC_REG) && (cls == CLASS_JMP || cls == CLASS_JMP32)
    case MemOpcode(mode, size, cls) => mode % 32 == 0 && mode <= 0xe0 && size % 8 == 0 && size <= 0x18 && cls <= 3
    case NoOpcode => false
  }

  /** Every field fits its place in the 64-bit slot, and exactly the 64-bit immediate load carries a second word. */
  predicate WellFormed(i: Instruction) {
    && OpcodeWellFormed(i.opcode)
    && i.dst <= 15 && i.src <= 15 && IsI16(i.offset) && IsI32(i.imm)
    && (IsWide(i) <==> i.opcode == MemOpcode(MODE_IMM, SIZE_DW, CLASS_LD))
    && (IsWide(i) ==> i.pseudo.ins == PseudoWord(i.pseudo.ins.imm) && IsI32(i.pseudo.ins.imm))
  }

  ghost predicate AllWellFormed(p: seq<Instruction>) {
    forall i | 0 <= i < |p| :: WellFormed(p[i])
  }

  /** The slot at which instruction i of p starts. */
  function SlotOf(p: seq<Instruction>, i: nat): (s: nat)
    requires i <= |p|
    ensures s >= i
  {
    if i == 0 then 0 else SlotOf(p, i - 1) + Slots(p[i - 1])
  }

  lemma {:induction false} SlotOfMonotone(p: seq<Instruction>, i: nat, j: nat)
    requires i <= j <= |p|
    ensures SlotOf(p, i) + (j - i) <= SlotOf(p, j)
    decreases j - i
  {
    if i < j {
      SlotOfMonotone(p, i, j - 1);
    }
  }

  /** Narrow instructions between i and j advance instruction index and slot alike; any wide one breaks it. */
  lemma {:induction false} SlotsBetween(p: seq<Instruction>, i: nat, j: nat)
    requires i <= j <= |p|
    ensures SlotOf(p, j) - SlotOf(p, i) == j - i <==> forall k | i <= k < j :: !IsWide(p[k])
    decreases j - i
  {
    if i < j {
      SlotsBetween(p, i, j - 1);
      SlotOfMonotone(p, i, j - 1);
    }
  }

  lemma {:induction false} SlotOfPrefix(p: seq<Instruction>, q: seq<Instruction>, i: nat)
    requires i <= |p|
    ensures SlotOf(p + q, i) == SlotOf(p, i)
  {
    if i > 0 {
      SlotOfPrefix(p, q, i - 1);
    }
  }
}
