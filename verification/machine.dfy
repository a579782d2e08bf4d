/** Execution of eBPF programs (sections 4 and 5 of RFC 9669): by instruction index, and by 64-bit slot on bytes. */
module Machine {
  import opened Words
  import opened Instructions
  import opened Encoding
  import Bits

  type Registers11 = r: seq<Word> | |r| == 11 witness seq(11, _ => 0)

  /** Memory is byte-addressed and total: an address never written holds zero. */
  datatype State = State(regs: Registers11, mem: map<Word, Byte>)

  /** What the instruction set leaves to the platform: helper calls and the addresses of maps and functions. */
  datatype World = World(call: (State, int) -> State, mapAddr: int -> Word, funcAddr: int -> Word)

  datatype Effect = Next(s: State) | Goto(delta: int, s: State) | Halt(s: State) | Fault

  function Get(s: State, r: nat): Word {
    if r <= 10 then s.regs[r] else 0
  }

  function Set(s: State, r: nat, v: Word): State {
    if r <= 10 then s.(regs := s.regs[r := v]) else s
  }

  function ByteAt(m: map<Word, Byte>, a: int): Byte {
    var x: Word := a % 0x1_0000_0000_0000_0000;
    if x in m then m[x] else 0
  }

  function Load(m: map<Word, Byte>, a: int, n: nat): nat
    decreases n
  {
    if n == 0 then 0 else ByteAt(m, a) + 0x100 * Load(m, a + 1, n - 1)
  }

  function Store(m: map<Word, Byte>, a: int, v: int, n: nat): map<Word, Byte>
    decreases n
  {
    if n == 0 then m
    else Store(m[a % 0x1_0000_0000_0000_0000 := v % 0x100], a + 1, v / 0x100, n - 1)
  }

  function SizeBytes(size: nat): nat {
    if size == SIZE_W then 4 else if size == SIZE_H then 2 else if size == SIZE_B then 1 else 8
  }

  /** The source operand: a register, or the immediate sign-extended to 64 bits. */
  function Operand(i: Instruction, s: State, source: nat): Word {
    if source == SRC_REG then Get(s, i.src) else i.imm % 0x1_0000_0000_0000_0000
  }

  predicate KnownAlu(op: nat) {
    op % 16 == 0 && op <= ALU_ARSH
  }

  /** Section 4.1 on operands already cut to `width` bits; the caller cuts the result. */
  function Alu(op: nat, a: nat, b: nat, signedA: int, width: nat): int
    requires width > 0
  {
    if op == ALU_ADD then a + b
    else if op == ALU_SUB then a - b
    else if op == ALU_MUL then a * b
    else if op == ALU_DIV then (if b == 0 then 0 else a / b)
    else if op == ALU_OR then Bits.Or(a, b)
    else if op == ALU_AND then Bits.And(a, b)
    else if op == ALU_LSH then a * Bits.Pow2(b % width)
    else if op == ALU_RSH then a / Bits.Pow2(b % width)
    else if op == ALU_NEG then 0 - a
    else if op == ALU_MOD then (if b == 0 then a else a % b)
    else if op == ALU_XOR then Bits.Xor(a, b)
    else if op == ALU_MOV then b
    else signedA / Bits.Pow2(b % width)
  }

  function Alu64(op: nat, a: Word, b: Word): Word {
    Alu(op, a, b, I64(a), 64) % 0x1_0000_0000_0000_0000
  }

  /** The 32-bit class works on the low halves and clears the high half of the destination. */
  function Alu32(op: nat, a: Word, b: Word): Word {
    Alu(op, a % 0x1_0000_0000, b % 0x1_0000_0000, I32(a), 32) % 0x1_0000_0000
  }

  predicate Compare(op: nat, a: nat, b: nat, sa: int, sb: int) {
    if op == JMP_JEQ then a == b
    else if op == JMP_JGT then a > b
    else if op == JMP_JGE then a >= b
    else if op == JMP_JSET then Bits.And(a, b) != 0
    else if op == JMP_JNE then a != b
    else if op == JMP_JSGT then sa > sb
    else if op == JMP_JSGE then sa >= sb
    else if op == JMP_JLT then a < b
    else if op == JMP_JLE then a <= b
    else if op == JMP_JSLT then sa < sb
    else sa <= sb
  }

  predicate Taken(op: nat, cls: nat, a: Word, b: Word) {
    if cls == CLASS_JMP then Compare(op, a, b, I64(a), I64(b))
    else Compare(op, a % 0x1_0000_0000, b % 0x1_0000_0000, I32(a), I32(b))
  }

  /** Not an Exit, Call or JA operation, and defined by section 4.3. */
  predicate ConditionalOp(op: nat) {
    op % 16 == 0 && op <= JMP_JSLE && op != JMP_EXIT && op != JMP_CALL && op != JMP_JA
  }

  function ExecuteJump(w: World, i: Instruction, s: State): Effect
    requires i.opcode.JmpOpcode?
  {
    var JmpOpcode(op, source, cls) := i.opcode;
    if op == JMP_EXIT then Halt(s)
    else if op == JMP_CALL then Next(w.call(s, i.imm))
    else if op == JMP_JA then Goto(i.offset, s)
    else if !ConditionalOp(op) then Fault
    else if Taken(op, cls, Get(s, i.dst), Operand(i, s, source)) then Goto(i.offset, s)
    else Next(s)
  }

  /** Section 5.4: plain 64-bit immediate, map by descriptor, or address of a function relative to the next slot. */
  function Immediate64(w: World, i: Instruction, slot: nat): Word
    requires IsWide(i)
  {
    if i.src == PSEUDO_MAP_FD then w.mapAddr(i.imm)
    else if i.src == PSEUDO_FUNC then w.funcAddr(slot + 1 + i.imm)
    else i.imm % 0x1_0000_0000 + 0x1_0000_0000 * (i.pseudo.ins.imm % 0x1_0000_0000)
  }

  function ExecuteMemory(w: World, i: Instruction, slot: nat, s: State): Effect
    requires i.opcode.MemOpcode?
  {
    var MemOpcode(mode, size, cls) := i.opcode;
    var n := SizeBytes(size);
    if cls == CLASS_LD then
      if mode == MODE_IMM && size == SIZE_DW && IsWide(i) then Next(Set(s, i.dst, Immediate64(w, i, slot))) else Fault
    else if cls == CLASS_LDX then
      if mode == MODE_MEM then Next(Set(s, i.dst, Load(s.mem, Get(s, i.src) + i.offset, n) % 0x1_0000_0000_0000_0000)) else Fault
    else if mode == MODE_MEM then
      Next(s.(mem := Store(s.mem, Get(s, i.dst) + i.offset, if cls == CLASS_ST then i.imm else Get(s, i.src), n)))
    else if mode == MODE_ATOMIC && cls == CLASS_STX && i.imm >= 0 && SimpleAtomic(i.imm) then
      var a := Get(s, i.dst) + i.offset;
      Next(s.(mem := Store(s.mem, a, Alu(i.imm, Load(s.mem, a, n), Get(s, i.src), 0, 64), n)))
    else Fault
  }

  /** The simple operations of section 5.3; none of them writes a register. */
  predicate SimpleAtomic(op: int) {
    op == ALU_ADD || op == ALU_OR || op == ALU_AND || op == ALU_XOR
  }

  function Execute(w: World, i: Instruction, slot: nat, s: State): Effect {
    match i.opcode
    case AluOpcode(op, source, cls) =>
      if !KnownAlu(op) then Fault
      else
        var a, b := Get(s, i.dst), Operand(i, s, source);
        Next(Set(s, i.dst, if cls == CLASS_ALU64 then Alu64(op, a, b) else Alu32(op, a, b)))
    case JmpOpcode(_, _, _) => ExecuteJump(w, i, s)
    case MemOpcode(_, _, _) => ExecuteMemory(w, i, slot, s)
    case NoOpcode => Fault
  }

  // ---------------------------------------------------------------- two program counters

  datatype Config = Running(pc: nat, s: State) | Halted(s: State) | Stuck

  function Follow(e: Effect, fall: nat, base: nat): Config {
    match e
    case Next(s) => Running(fall, s)
    case Goto(d, s) => if base + d >= 0 then Running(base + d, s) else Stuck
    case Halt(s) => Halted(s)
    case Fault => Stuck
  }

  /** One step with the counter in instructions, the unit in which the generators choose jump offsets. */
  function IndexStep(w: World, p: seq<Instruction>, c: Config): Config {
    if !c.Running? then c
    else if c.pc >= |p| then Stuck
    else Follow(Execute(w, p[c.pc], SlotOf(p, c.pc), c.s), c.pc + 1, c.pc + 1)
  }

  /** One step on the bytes, with the counter in slots, the unit of section 4.3. */
  function SlotStep(w: World, b: seq<Byte>, c: Config): Config {
    if !c.Running? then c
    else match Fetch(b, c.pc)
      case UnknownOpcode => Stuck
      case Ok(i) => Follow(Execute(w, i, c.pc, c.s), c.pc + Slots(i), c.pc + 1)
  }

  function IndexRun(w: World, p: seq<Instruction>, k: nat, c: Config): Config {
    if k == 0 then c else IndexStep(w, p, IndexRun(w, p, k - 1, c))
  }

  function SlotRun(w: World, b: seq<Byte>, k: nat, c: Config): Config {
    if k == 0 then c else SlotStep(w, b, SlotRun(w, b, k - 1, c))
  }

  /** May leave the fall-through path. */
  predicate IsJump(i: Instruction) {
    i.opcode.JmpOpcode? && (i.opcode.op == JMP_JA || ConditionalOp(i.opcode.op))
  }

  /** The index target of a jump exists and is the slot target as well. */
  ghost predicate JumpAgrees(p: seq<Instruction>, i: nat)
    requires i < |p|
  {
    var t := i + 1 + p[i].offset;
    0 <= t <= |p| && SlotOf(p, t) == SlotOf(p, i) + 1 + p[i].offset
  }

  ghost predicate JumpsAgree(p: seq<Instruction>) {
    forall i | 0 <= i < |p| && IsJump(p[i]) :: JumpAgrees(p, i)
  }

  /** Counting a forward jump in instructions and in slots is the same exactly when it crosses narrow instructions only. */
  lemma JumpAgreesExactly(p: seq<Instruction>, i: nat)
    requires i < |p| && IsJump(p[i]) && WellFormed(p[i]) && p[i].offset >= 0 && i + 1 + p[i].offset <= |p|
    ensures JumpAgrees(p, i) <==> forall k | i < k < i + 1 + p[i].offset :: !IsWide(p[k])
  {
    SlotsBetween(p, i + 1, i + 1 + p[i].offset);
    assert SlotOf(p, i + 1) == SlotOf(p, i) + 1;
  }

  ghost predicate InProgram(p: seq<Instruction>, c: Config) {
    c.Running? ==> c.pc <= |p|
  }

  ghost function ToSlots(p: seq<Instruction>, c: Config): Config
    requires InProgram(p, c)
  {
    if c.Running? then Running(SlotOf(p, c.pc), c.s) else c
  }

  /** Only a jump moves the counter by other than one instruction. */
  lemma GotoIsJump(w: World, i: Instruction, slot: nat, s: State)
    requires Execute(w, i, slot, s).Goto?
    ensures IsJump(i) && Execute(w, i, slot, s).delta == i.offset
  {
    hide Taken, Get, Operand, Set, Load, Store, Alu, Alu64, Alu32, Immediate64;
  }

  /** One step keeps the two counters together; only the instruction that is executed matters. */
  lemma StepSimulates(w: World, p: seq<Instruction>, c: Config)
    requires AllWellFormed(p) && AllEncodable(p) && InProgram(p, c)
    requires c.Running? && c.pc < |p| && IsJump(p[c.pc]) ==> JumpAgrees(p, c.pc)
    ensures InProgram(p, IndexStep(w, p, c))
    ensures SlotStep(w, Encode(p, |p|), ToSlots(p, c)) == ToSlots(p, IndexStep(w, p, c))
  {
    hide Execute, WellFormed, Encodable, Fetch, Encode;
    if c.Running? {
      var b, s := Encode(p, |p|), SlotOf(p, c.pc);
      if c.pc == |p| {
        FetchPastEnd(b, s);
      } else {
        FetchEncoded(p, c.pc);
        var e := Execute(w, p[c.pc], s, c.s);
        if e.Goto? {
          GotoIsJump(w, p[c.pc], s, c.s);
          assert JumpAgrees(p, c.pc);
        }
        assert SlotOf(p, c.pc + 1) == s + Slots(p[c.pc]);
      }
    }
  }

  lemma FetchPastEnd(b: seq<Byte>, s: nat)
    requires |b| <= 8 * s
    ensures Fetch(b, s) == UnknownOpcode
  {
  }

  /** Running the encoded bytes slot by slot simulates running the instruction list, step for step. */
  lemma {:induction false} SlotExecutionSimulates(w: World, p: seq<Instruction>, k: nat, c: Config)
    requires AllWellFormed(p) && AllEncodable(p) && JumpsAgree(p) && InProgram(p, c)
    ensures InProgram(p, IndexRun(w, p, k, c))
    ensures SlotRun(w, Encode(p, |p|), k, ToSlots(p, c)) == ToSlots(p, IndexRun(w, p, k, c))
  {
    hide Encode, WellFormed, Encodable, JumpAgrees, IsJump, IndexStep, SlotStep, SlotOf;
    if k > 0 {
      SlotExecutionSimulates(w, p, k - 1, c);
      StepSimulates(w, p, IndexRun(w, p, k - 1, c));
    }
  }

  /** The same as long as the run stays where the jumps agree. */
  lemma {:induction false} SlotExecutionSimulatesWithin(w: World, p: seq<Instruction>, n: nat, k: nat, c: Config)
    requires AllWellFormed(p) && AllEncodable(p) && InProgram(p, c) && n <= |p|
    requires forall i | 0 <= i < n && IsJump(p[i]) :: JumpAgrees(p, i)
    requires forall j: nat | j < k :: var d := IndexRun(w, p, j, c); d.Running? ==> d.pc < n
    ensures InProgram(p, IndexRun(w, p, k, c))
    ensures SlotRun(w, Encode(p, |p|), k, ToSlots(p, c)) == ToSlots(p, IndexRun(w, p, k, c))
  {
    hide Encode, WellFormed, Encodable, JumpAgrees, IsJump, IndexStep, SlotStep, SlotOf;
    if k > 0 {
      SlotExecutionSimulatesWithin(w, p, n, k - 1, c);
      StepSimulates(w, p, IndexRun(w, p, k - 1, c));
    }
  }

  /** Programs that share their first n instructions run alike as long as one of them stays there. */
  lemma {:induction false} SharedPrefixRuns(w: World, p: seq<Instruction>, q: seq<Instruction>, n: nat, k: nat, c: Config)
    requires n <= |p| && n <= |q| && p[..n] == q[..n]
    requires forall j: nat | j < k :: var d := IndexRun(w, p, j, c); d.Running? ==> d.pc < n
    ensures IndexRun(w, q, k, c) == IndexRun(w, p, k, c)
  {
    hide Execute, SlotOf;
    if k > 0 {
      SharedPrefixRuns(w, p, q, n, k - 1, c);
      var d := IndexRun(w, p, k - 1, c);
      if d.Running? {
        assert p[d.pc] == p[..n][d.pc] == q[d.pc];
        SharedPrefixSlots(p, q, n, d.pc);
      }
    }
  }

  lemma SharedPrefixSlots(p: seq<Instruction>, q: seq<Instruction>, n: nat, i: nat)
    requires i <= n <= |p| && n <= |q| && p[..n] == q[..n]
    ensures SlotOf(p, i) == SlotOf(q, i)
  {
    assert p == p[..n] + p[n..] && q == q[..n] + q[n..];
    SlotOfPrefix(p[..n], p[n..], i);
    SlotOfPrefix(q[..n], q[n..], i);
  }

  lemma {:induction false} HaltedStays(w: World, b: seq<Byte>, n: nat, m: nat, c: Config)
    requires n <= m && SlotRun(w, b, n, c).Halted?
    ensures SlotRun(w, b, m, c) == SlotRun(w, b, n, c)
    decreases m
  {
    hide SlotStep;
    if n < m {
      HaltedStays(w, b, n, m - 1, c);
      assert SlotStep(w, b, SlotRun(w, b, n, c)) == SlotRun(w, b, n, c) by {
        HaltedStep(w, b, SlotRun(w, b, n, c));
      }
    }
  }

  lemma HaltedStep(w: World, b: seq<Byte>, c: Config)
    requires c.Halted?
    ensures SlotStep(w, b, c) == c
  {
  }
}
