/** The random eBPF instructions of pkg/ebpf/instruction_generators.go. */
module Generators {
  import opened Words
  import opened Instructions
  import opened Random
  import Machine
  import ControlFlow

  // ---------------------------------------------------------------- which instructions can be generated

  predicate IsShift(op: nat) {
    op == ALU_LSH || op == ALU_RSH || op == ALU_ARSH
  }

  predicate RandomAlu(i: Instruction) {
    && i.opcode.AluOpcode? && OpcodeWellFormed(i.opcode) && Machine.KnownAlu(i.opcode.op)
    && i.dst <= 9 && i.offset == 0 && i.pseudo == Empty && IsI32(i.imm)
    && (if i.opcode.source == SRC_REG then i.src <= 9 && i.imm == 0 && i.opcode.op != ALU_NEG
        else i.src == 0 && (i.opcode.op == ALU_NEG ==> i.imm == 0)
             && (IsShift(i.opcode.op) ==> 0 <= i.imm < if i.opcode.cls == CLASS_ALU then 32 else 64))
  }

  /** The offset is an int16 cast of a draw from 1..maxOffset. */
  ghost predicate RandomJmp(i: Instruction, maxOffset: nat) {
    && i.opcode.JmpOpcode? && OpcodeWellFormed(i.opcode) && Machine.ConditionalOp(i.opcode.op)
    && i.dst <= 9 && i.pseudo == Empty && IsI32(i.imm)
    && (if i.opcode.source == SRC_REG then i.src <= 9 && i.imm == 0 else i.src == 0)
    && exists d: nat :: 1 <= d <= maxOffset && i.offset == I16(d)
  }

  /** An aligned access of n bytes that lies wholly in [R10 - 512, R10). */
  predicate StackAccess(offset: int, n: nat) {
    n > 0 && -512 <= offset && offset + n <= 0 && offset % n == 0
  }

  /** Of those, a single byte is never taken from the very end. */
  predicate StackOffset(offset: int, n: nat) {
    StackAccess(offset, n) && (n == 1 ==> offset > -512)
  }

  predicate RandomMem(i: Instruction) {
    && i.opcode.MemOpcode? && OpcodeWellFormed(i.opcode) && i.pseudo == Empty && IsI32(i.imm)
    && StackOffset(i.offset, Machine.SizeBytes(i.opcode.size))
    && match i.opcode.cls
       case 1 => i.opcode.mode == MODE_MEM && i.dst <= 9 && i.src == R10 && i.imm == 0
       case 2 => i.opcode.mode == MODE_MEM && i.dst == R10 && i.src == R0
       case 3 => i.dst == R10 && i.src <= 9 &&
                 ((i.opcode.mode == MODE_MEM && i.imm == 0) ||
                  (i.opcode.mode == MODE_ATOMIC && Machine.SimpleAtomic(i.imm) && (i.opcode.size == SIZE_W || i.opcode.size == SIZE_DW)))
       case _ => false
  }

  /** What `newRandomInstruction(maxJmp)` can return. */
  ghost predicate RandomInstruction(i: Instruction, maxJmp: nat) {
    RandomAlu(i) || RandomMem(i) || (maxJmp > 0 && RandomJmp(i, maxJmp))
  }

  /** Every random instruction is narrow, well formed and inside the modelled instruction set. */
  lemma RandomInstructionsAreNarrow(i: Instruction, maxJmp: nat)
    requires RandomInstruction(i, maxJmp)
    ensures WellFormed(i) && !IsWide(i) && ControlFlow.Supported(i) && !ControlFlow.IsExit(i)
    ensures Machine.IsJump(i) ==> RandomJmp(i, maxJmp)
  {
  }

  /** The cast keeps every draw from 1..maxOffset exactly when maxOffset is an int16. */
  lemma OffsetCastIsFaithful(maxOffset: nat)
    ensures (forall d: nat | 1 <= d <= maxOffset :: I16(d) == d) <==> maxOffset <= 0x7fff
  {
    if maxOffset > 0x7fff {
      assert I16(0x8000) == -0x8000;
    }
  }

  /** So within that bound a random jump goes forward and no further than asked. */
  lemma RandomJmpForward(i: Instruction, maxOffset: nat)
    requires RandomJmp(i, maxOffset) && maxOffset <= 0x7fff
    ensures 1 <= i.offset <= maxOffset
  {
    OffsetCastIsFaithful(maxOffset);
  }

  // ---------------------------------------------------------------- ALU instructions

  function RegisterFrom(t: seq<nat>): (d: Drawn<nat>)
    ensures d.Some? ==> d.value.0 <= 9 && |d.value.1| < |t|
  {
    RandRangeFrom(t, 0, 9)
  }

  method RandomRegister(rng: Rng) returns (r: Option<nat>)
    modifies rng
    ensures Follows(RegisterFrom(old(rng.tape)), r, rng.tape)
  {
    r := rng.RandRange(0, 9);
  }

  function AluOpFrom(t: seq<nat>): (d: Drawn<nat>)
    ensures d.Some? ==> Machine.KnownAlu(d.value.0) && |d.value.1| < |t|
  {
    var (v, u) :- RandRangeFrom(t, 0x00, 0x0c);
    Some((v * 16, u))
  }

  method RandomAluOp(rng: Rng) returns (r: Option<nat>)
    modifies rng
    ensures Follows(AluOpFrom(old(rng.tape)), r, rng.tape)
  {
    var v :- rng.RandRange(0x00, 0x0c);
    r := Some(v * 16);
  }

  /** A drawn int32 as the operation can use it: shift amounts below the width, nothing for a negation. */
  function ImmediateFor(op: nat, cls: nat, v: int): int {
    if IsShift(op) then
      var m := GoMod(v, if cls == CLASS_ALU then 32 else 64);
      if m < 0 then -m else m
    else if op == ALU_NEG then 0
    else v
  }

  function ImmAluFrom(t: seq<nat>, op: nat, cls: nat, dst: nat): (d: Drawn<Instruction>)
    ensures d.Some? ==> |d.value.1| < |t|
  {
    var (v, u) :- RandRangeFrom(t, 0, 0xFFFF_FFFF);
    Some((NewAlu(op, cls, dst, Int32(ImmediateFor(op, cls, I32(v)))), u))
  }

  method GenerateImmAlu(rng: Rng, op: nat, cls: nat, dst: nat) returns (r: Option<Instruction>)
    modifies rng
    ensures Follows(ImmAluFrom(old(rng.tape), op, cls, dst), r, rng.tape)
  {
    var draw :- rng.RandRange(0, 0xFFFF_FFFF);
    var value := I32(draw);
    if op == ALU_RSH || op == ALU_LSH || op == ALU_ARSH {
      var maxShift := if cls == CLASS_ALU then 32 else 64;
      value := GoMod(value, maxShift);
      if value < 0 {
        value := -value;
      }
    } else if op == ALU_NEG {
      value := 0;
    }
    r := Some(NewAlu(op, cls, dst, Int32(value)));
  }

  /** Redraws a negation until it is something else. */
  function NotNegFrom(t: seq<nat>, op: nat): (d: Drawn<nat>)
    requires Machine.KnownAlu(op)
    ensures d.Some? ==> Machine.KnownAlu(d.value.0) && d.value.0 != ALU_NEG && |d.value.1| <= |t|
    decreases |t|
  {
    if op != ALU_NEG then Some((op, t))
    else
      var (o, u) :- AluOpFrom(t);
      NotNegFrom(u, o)
  }

  function RegAluFrom(t: seq<nat>, op: nat, cls: nat, dst: nat): (d: Drawn<Instruction>)
    requires Machine.KnownAlu(op)
    ensures d.Some? ==> |d.value.1| < |t|
  {
    var (src, u) :- RegisterFrom(t);
    var (o, w) :- NotNegFrom(u, op);
    Some((NewAlu(o, cls, dst, Reg(src)), w))
  }

  method GenerateRegAlu(rng: Rng, op0: nat, cls: nat, dst: nat) returns (r: Option<Instruction>)
    requires Machine.KnownAlu(op0)
    modifies rng
    ensures Follows(RegAluFrom(old(rng.tape), op0, cls, dst), r, rng.tape)
  {
    var op: nat := op0;
    var src :- RandomRegister(rng);
    ghost var t := rng.tape;
    while op == ALU_NEG
      invariant Machine.KnownAlu(op) && NotNegFrom(rng.tape, op) == NotNegFrom(t, op0)
      decreases |rng.tape|
    {
      op :- RandomAluOp(rng);
    }
    r := Some(NewAlu(op, cls, dst, Reg(src)));
  }

  function AluFrom(t: seq<nat>): (d: Drawn<Instruction>)
    ensures d.Some? ==> |d.value.1| < |t|
  {
    var (op, t1) :- AluOpFrom(t);
    var (dst, t2) :- RegisterFrom(t1);
    var (c, t3) :- RandRangeFrom(t2, 0, 1);
    var (coin, t4) :- RandRangeFrom(t3, 0, 1);
    var cls := if c == 0 then CLASS_ALU else CLASS_ALU64;
    if coin == 0 then ImmAluFrom(t4, op, cls, dst) else RegAluFrom(t4, op, cls, dst)
  }

  method RandomAluInstruction(rng: Rng) returns (r: Option<Instruction>)
    modifies rng
    ensures Follows(AluFrom(old(rng.tape)), r, rng.tape)
  {
    var op :- RandomAluOp(rng);
    var dst :- RandomRegister(rng);
    var c :- rng.RandRange(0, 1);
    var cls := if c == 0 then CLASS_ALU else CLASS_ALU64;
    var coin :- rng.RandRange(0, 1);
    if coin == 0 {
      r := GenerateImmAlu(rng, op, cls, dst);
    } else {
      r := GenerateRegAlu(rng, op, cls, dst);
    }
  }

  lemma ImmediateIsRandom(op: nat, cls: nat, dst: nat, v: int)
    requires Machine.KnownAlu(op) && (cls == CLASS_ALU || cls == CLASS_ALU64) && dst <= 9
    ensures RandomAlu(NewAlu(op, cls, dst, Int32(ImmediateFor(op, cls, I32(v)))))
  {
  }

  /** Only such instructions are generated. */
  lemma AluIsRandom(t: seq<nat>)
    ensures AluFrom(t).Some? ==> RandomAlu(AluFrom(t).value.0)
  {
    hide ImmediateFor, I32, NotNegFrom, RandRangeFrom;
    forall op, cls, dst, v: int | Machine.KnownAlu(op) && (cls == CLASS_ALU || cls == CLASS_ALU64) && dst <= 9
      ensures RandomAlu(NewAlu(op, cls, dst, Int32(ImmediateFor(op, cls, I32(v)))))
    {
      ImmediateIsRandom(op, cls, dst, v);
    }
  }

  /** And every such instruction is generated from some draws. */
  lemma AluReached(i: Instruction, rest: seq<nat>) returns (t: seq<nat>)
    requires RandomAlu(i)
    ensures AluFrom(t) == Some((i, rest))
  {
    hide RandRangeFrom;
    var op, cls := i.opcode.op, i.opcode.cls;
    var c, coin := if cls == CLASS_ALU then 0 else 1, if i.opcode.source == SRC_IMM then 0 else 1;
    var last: nat := if coin == 0 then i.imm % 0x1_0000_0000 else i.src;
    if coin == 0 {
      assert I32(last) == i.imm;
      RangeReached(0, 0xFFFF_FFFF, last, rest);
    } else {
      RangeReached(0, 9, last, rest);
    }
    var t4 := [last] + rest;
    RangeReached(0, 1, coin, t4);
    RangeReached(0, 1, c, [coin] + t4);
    RangeReached(0, 9, i.dst, [c] + ([coin] + t4));
    t := [op / 16] + ([i.dst] + ([c] + ([coin] + t4)));
    RangeReached(0, 0x0c, op / 16, [i.dst] + ([c] + ([coin] + t4)));
    assert AluOpFrom(t) == Some((op, [i.dst] + ([c] + ([coin] + t4))));
  }

  // ---------------------------------------------------------------- jumps

  predicate Conditional(op: nat) {
    !(op == JMP_EXIT || op == JMP_CALL || op == JMP_JA)
  }

  function ConditionalOpFrom(t: seq<nat>): (d: Drawn<nat>)
    ensures d.Some? ==> Machine.ConditionalOp(d.value.0) && |d.value.1| < |t|
    decreases |t|
  {
    var (v, u) :- RandRangeFrom(t, 0x00, 0x0d);
    if Conditional(v * 16) then Some((v * 16, u)) else ConditionalOpFrom(u)
  }

  method RandomConditionalOp(rng: Rng) returns (r: Option<nat>)
    modifies rng
    ensures Follows(ConditionalOpFrom(old(rng.tape)), r, rng.tape)
  {
    while true
      invariant ConditionalOpFrom(rng.tape) == ConditionalOpFrom(old(rng.tape))
      decreases |rng.tape|
    {
      var v :- rng.RandRange(0x00, 0x0d);
      var op := v * 16;
      if Conditional(op) {
        return Some(op);
      }
    }
  }

  function JmpFrom(t: seq<nat>, maxOffset: nat): (d: Drawn<Instruction>)
    requires 1 <= maxOffset
    ensures d.Some? ==> |d.value.1| < |t|
  {
    var (op, t1) :- ConditionalOpFrom(t);
    var (jmp32, t2) :- OneOfFrom(t1, 2);
    var (dst, t3) :- RegisterFrom(t2);
    var (o, t4) :- RandRangeFrom(t3, 1, maxOffset);
    var (constant, t5) :- OneOfFrom(t4, 2);
    var cls := if jmp32 then CLASS_JMP32 else CLASS_JMP;
    if constant then
      var (v, t6) :- RandRangeFrom(t5, 0, 0xffff_ffff);
      Some((NewJmp(op, cls, dst, Int32(I32(v)), I16(o)), t6))
    else
      var (src, t6) :- RegisterFrom(t5);
      Some((NewJmp(op, cls, dst, Reg(src), I16(o)), t6))
  }

  method RandomJmpInstruction(rng: Rng, maxOffset: nat) returns (r: Option<Instruction>)
    requires 1 <= maxOffset
    modifies rng
    ensures Follows(JmpFrom(old(rng.tape), maxOffset), r, rng.tape)
  {
    hide ConditionalOpFrom;
    var op :- RandomConditionalOp(rng);
    var jmp32 :- rng.OneOf(2);
    var cls := if jmp32 then CLASS_JMP32 else CLASS_JMP;
    var dst :- RandomRegister(rng);
    var d :- rng.RandRange(1, maxOffset);
    var offset := I16(d);
    var constant :- rng.OneOf(2);
    if constant {
      var v :- rng.RandRange(0, 0xffff_ffff);
      r := Some(NewJmp(op, cls, dst, Int32(I32(v)), offset));
    } else {
      var src :- RandomRegister(rng);
      r := Some(NewJmp(op, cls, dst, Reg(src), offset));
    }
  }

  lemma JmpIsRandom(t: seq<nat>, maxOffset: nat)
    requires 1 <= maxOffset
    ensures JmpFrom(t, maxOffset).Some? ==> RandomJmp(JmpFrom(t, maxOffset).value.0, maxOffset)
  {
    hide ConditionalOpFrom;
  }

  lemma JmpReached(i: Instruction, maxOffset: nat, rest: seq<nat>) returns (t: seq<nat>)
    requires 1 <= maxOffset && RandomJmp(i, maxOffset)
    ensures JmpFrom(t, maxOffset) == Some((i, rest))
  {
    hide RandRangeFrom, OneOfFrom, I16;
    var o: nat :| 1 <= o <= maxOffset && i.offset == I16(o);
    var op := i.opcode.op;
    var jmp32, constant := i.opcode.cls == CLASS_JMP32, i.opcode.source == SRC_IMM;
    var last: nat := if constant then i.imm % 0x1_0000_0000 else i.src;
    if constant {
      assert I32(last) == i.imm;
      RangeReached(0, 0xFFFF_FFFF, last, rest);
    } else {
      RangeReached(0, 9, last, rest);
    }
    var t5 := [last] + rest;
    var t4 := [if constant then 0 else 1] + t5;
    CoinReached(constant, t5);
    var t3 := [o - 1] + t4;
    RangeReached(1, maxOffset, o - 1, t4);
    var t2 := [i.dst] + t3;
    RangeReached(0, 9, i.dst, t3);
    var t1 := [if jmp32 then 0 else 1] + t2;
    CoinReached(jmp32, t2);
    t := [op / 16] + t1;
    RangeReached(0, 0x0d, op / 16, t1);
    assert ConditionalOpFrom(t) == Some((op, t1));
  }

  // ---------------------------------------------------------------- loads and stores

  function SizeFrom(t: seq<nat>): (d: Drawn<nat>)
    ensures d.Some? ==> d.value.0 % 8 == 0 && d.value.0 <= SIZE_DW && |d.value.1| < |t|
  {
    var (v, u) :- RandIntFrom(t);
    Some((v % 4 * 8, u))
  }

  method RandomSize(rng: Rng) returns (r: Option<nat>)
    modifies rng
    ensures Follows(SizeFrom(old(rng.tape)), r, rng.tape)
  {
    var v :- rng.RandInt();
    r := Some(v % 4 * 8);
  }

  function AlignmentForSize(size: nat): nat
    requires size % 8 == 0 && size <= SIZE_DW
    ensures AlignmentForSize(size) == Machine.SizeBytes(size)
  {
    if size == SIZE_B then 1 else if size == SIZE_H then 2 else if size == SIZE_W then 4 else 8
  }

  /** A nonzero number between -511 and 511. */
  function NonzeroFrom(t: seq<nat>): (d: Drawn<int>)
    ensures d.Some? ==> -511 <= d.value.0 <= 511 && d.value.0 != 0 && |d.value.1| < |t|
    decreases |t|
  {
    var (v, u) :- RandIntFrom(t);
    var offset := GoMod(I16(v), 512);
    if offset != 0 then Some((offset, u)) else NonzeroFrom(u)
  }

  /** The multiple of the access width at or below the negated magnitude. */
  function OffsetFrom(t: seq<nat>, size: nat): (d: Drawn<int>)
    ensures d.Some? ==> |d.value.1| < |t|
  {
    var (v, u) :- NonzeroFrom(t);
    var below, n := if v > 0 then -v else v, Machine.SizeBytes(size);
    Some((below - below % n, u))
  }

  method RandomNonzero(rng: Rng) returns (r: Option<int>)
    modifies rng
    ensures Follows(NonzeroFrom(old(rng.tape)), r, rng.tape)
  {
    hide I16, GoMod;
    var v :- rng.RandInt();
    var offset := GoMod(I16(v), 512);
    while offset == 0
      invariant NonzeroFrom(old(rng.tape)) == if offset != 0 then Some((offset, rng.tape)) else NonzeroFrom(rng.tape)
      decreases |rng.tape|
    {
      v :- rng.RandInt();
      offset := GoMod(I16(v), 512);
    }
    r := Some(offset);
  }

  /** Redraws zero, forces the sign, then walks down to an aligned offset. */
  method RandomOffset(rng: Rng, size: nat) returns (r: Option<int>)
    requires size % 8 == 0 && size <= SIZE_DW
    modifies rng
    ensures Follows(OffsetFrom(old(rng.tape), size), r, rng.tape)
  {
    hide NonzeroFrom;
    var offset :- RandomNonzero(rng);
    if offset > 0 {
      offset := -offset;
    }
    var a := AlignmentForSize(size);
    ghost var below, rest := offset, rng.tape;
    while offset % a != 0
      invariant -512 <= offset <= below <= -1 && below - below % a <= offset && rng.tape == rest
      decreases offset + 512
    {
      NextLower(below, offset, a);
      offset := offset - 1;
    }
    OnlyMultiple(below, offset, a);
    r := Some(offset);
  }

  /** No multiple is passed on the way down. */
  lemma NextLower(below: int, y: int, n: nat)
    requires n == 1 || n == 2 || n == 4 || n == 8
    requires -512 <= y <= below <= -1 && below - below % n <= y && y % n != 0
    ensures below - below % n <= y - 1 && -512 <= y - 1
  {
  }

  lemma OnlyMultiple(below: int, y: int, n: nat)
    requires n == 1 || n == 2 || n == 4 || n == 8
    requires below - below % n <= y <= below && y % n == 0
    ensures y == below - below % n
  {
  }

  lemma OffsetIsOnStack(t: seq<nat>, size: nat)
    requires size % 8 == 0 && size <= SIZE_DW
    ensures OffsetFrom(t, size).Some? ==> StackOffset(OffsetFrom(t, size).value.0, Machine.SizeBytes(size))
  {
    hide NonzeroFrom;
  }

  lemma OffsetReached(offset: int, size: nat, rest: seq<nat>) returns (x: nat)
    requires size % 8 == 0 && size <= SIZE_DW && StackOffset(offset, Machine.SizeBytes(size))
    ensures OffsetFrom([x] + rest, size) == Some((offset, rest))
  {
    var n := Machine.SizeBytes(size);
    x := if offset == -512 then 511 else -offset;
    IntReached(x, rest);
    assert NonzeroFrom([x] + rest) == Some((x, rest));
  }

  function StoreFrom(t: seq<nat>): (d: Drawn<Instruction>)
    ensures d.Some? ==> |d.value.1| < |t|
  {
    var (size, t1) :- SizeFrom(t);
    var (offset, t2) :- OffsetFrom(t1, size);
    var (constant, t3) :- OneOfFrom(t2, 2);
    if constant then
      var (v, t4) :- RandIntFrom(t3);
      Some((NewStore(size, R10, Int32(I32(v)), offset), t4))
    else
      var (src, t4) :- RegisterFrom(t3);
      Some((NewStore(size, R10, Reg(src), offset), t4))
  }

  method RandomStoreInstruction(rng: Rng) returns (r: Option<Instruction>)
    modifies rng
    ensures Follows(StoreFrom(old(rng.tape)), r, rng.tape)
  {
    hide OffsetFrom, SizeFrom;
    var size :- RandomSize(rng);
    var offset :- RandomOffset(rng, size);
    var constant :- rng.OneOf(2);
    if constant {
      var v :- rng.RandInt();
      r := Some(NewStore(size, R10, Int32(I32(v)), offset));
    } else {
      var src :- RandomRegister(rng);
      r := Some(NewStore(size, R10, Reg(src), offset));
    }
  }

  function LoadFrom(t: seq<nat>): (d: Drawn<Instruction>)
    ensures d.Some? ==> |d.value.1| < |t|
  {
    var (size, t1) :- SizeFrom(t);
    var (offset, t2) :- OffsetFrom(t1, size);
    var (dst, t3) :- RegisterFrom(t2);
    Some((NewLoad(size, dst, R10, offset), t3))
  }

  method RandomLoadInstruction(rng: Rng) returns (r: Option<Instruction>)
    modifies rng
    ensures Follows(LoadFrom(old(rng.tape)), r, rng.tape)
  {
    hide OffsetFrom, SizeFrom;
    var size :- RandomSize(rng);
    var offset :- RandomOffset(rng, size);
    var dst :- RandomRegister(rng);
    r := Some(NewLoad(size, dst, R10, offset));
  }

  const ATOMIC_SIZES: seq<nat> := [SIZE_W, SIZE_DW]
  const ATOMIC_OPERATIONS: seq<nat> := [ALU_ADD, ALU_AND, ALU_OR, ALU_XOR]

  function AtomicFrom(t: seq<nat>): (d: Drawn<Instruction>)
    ensures d.Some? ==> |d.value.1| < |t|
  {
    var (src, t1) :- RegisterFrom(t);
    var (s, t2) :- RandIntFrom(t1);
    var size := ATOMIC_SIZES[s % 2];
    var (offset, t3) :- OffsetFrom(t2, size);
    var (o, t4) :- RandIntFrom(t3);
    Some((NewAtomic(R10, src, size, offset, ATOMIC_OPERATIONS[o % 4]), t4))
  }

  method RandomAtomicInstruction(rng: Rng) returns (r: Option<Instruction>)
    modifies rng
    ensures Follows(AtomicFrom(old(rng.tape)), r, rng.tape)
  {
    hide OffsetFrom;
    var src :- RandomRegister(rng);
    var s :- rng.RandInt();
    var size := ATOMIC_SIZES[s % 2];
    var offset :- RandomOffset(rng, size);
    var o :- rng.RandInt();
    var operation := ATOMIC_OPERATIONS[o % 4];
    r := Some(NewAtomic(R10, src, size, offset, operation));
  }

  function MemFrom(t: seq<nat>): (d: Drawn<Instruction>)
    ensures d.Some? ==> |d.value.1| < |t|
  {
    var (k, u) :- RandIntFrom(t);
    if k % 3 == 0 then StoreFrom(u) else if k % 3 == 1 then LoadFrom(u) else AtomicFrom(u)
  }

  method RandomMemInstruction(rng: Rng) returns (r: Option<Instruction>)
    modifies rng
    ensures Follows(MemFrom(old(rng.tape)), r, rng.tape)
  {
    hide StoreFrom, LoadFrom, AtomicFrom;
    var t :- rng.RandInt();
    match t % 3
    case 0 => r := RandomStoreInstruction(rng);
    case 1 => r := RandomLoadInstruction(rng);
    case _ => r := RandomAtomicInstruction(rng);
  }

  predicate IsLoad(i: Instruction) { i.opcode.MemOpcode? && i.opcode.cls == CLASS_LDX }
  predicate IsAtomic(i: Instruction) { i.opcode.MemOpcode? && i.opcode.mode == MODE_ATOMIC }

  lemma StoreIsRandom(t: seq<nat>)
    ensures StoreFrom(t).Some? ==> var i := StoreFrom(t).value.0; RandomMem(i) && !IsLoad(i) && !IsAtomic(i)
  {
    hide OffsetFrom, StackOffset;
    if StoreFrom(t).Some? {
      OffsetIsOnStack(SizeFrom(t).value.1, SizeFrom(t).value.0);
    }
  }

  lemma LoadIsRandom(t: seq<nat>)
    ensures LoadFrom(t).Some? ==> RandomMem(LoadFrom(t).value.0) && IsLoad(LoadFrom(t).value.0)
  {
    hide OffsetFrom, StackOffset;
    if LoadFrom(t).Some? {
      OffsetIsOnStack(SizeFrom(t).value.1, SizeFrom(t).value.0);
    }
  }

  lemma AtomicIsRandom(t: seq<nat>)
    ensures AtomicFrom(t).Some? ==> RandomMem(AtomicFrom(t).value.0) && IsAtomic(AtomicFrom(t).value.0)
  {
    hide OffsetFrom, StackOffset;
    if AtomicFrom(t).Some? {
      var (s, t2) := RandIntFrom(RegisterFrom(t).value.1).value;
      OffsetIsOnStack(t2, ATOMIC_SIZES[s % 2]);
    }
  }

  lemma MemIsRandom(t: seq<nat>)
    ensures MemFrom(t).Some? ==> RandomMem(MemFrom(t).value.0)
  {
    hide RandomMem, StoreFrom, LoadFrom, AtomicFrom;
    if RandIntFrom(t).Some? {
      StoreIsRandom(RandIntFrom(t).value.1);
      LoadIsRandom(RandIntFrom(t).value.1);
      AtomicIsRandom(RandIntFrom(t).value.1);
    }
  }

  lemma SizeReached(size: nat, rest: seq<nat>)
    requires size % 8 == 0 && size <= SIZE_DW
    ensures SizeFrom([size / 8] + rest) == Some((size, rest))
  {
    IntReached(size / 8, rest);
  }

  lemma StoreReached(i: Instruction, rest: seq<nat>) returns (t: seq<nat>)
    requires RandomMem(i) && !IsLoad(i) && !IsAtomic(i)
    ensures StoreFrom(t) == Some((i, rest))
  {
    hide OffsetFrom, StackOffset, SizeFrom, RandIntFrom, RandRangeFrom, OneOfFrom;
    var size, constant := i.opcode.size, i.opcode.cls == CLASS_ST;
    var last: nat := if constant then i.imm % 0x1_0000_0000 else i.src;
    if constant {
      assert I32(last) == i.imm;
      IntReached(last, rest);
    } else {
      RangeReached(0, 9, last, rest);
    }
    var t3 := [last] + rest;
    CoinReached(constant, t3);
    var t2 := [if constant then 0 else 1] + t3;
    var x := OffsetReached(i.offset, size, t2);
    SizeReached(size, [x] + t2);
    t := [size / 8] + ([x] + t2);
  }

  lemma LoadReached(i: Instruction, rest: seq<nat>) returns (t: seq<nat>)
    requires RandomMem(i) && IsLoad(i)
    ensures LoadFrom(t) == Some((i, rest))
  {
    hide OffsetFrom, StackOffset, SizeFrom, RandRangeFrom;
    RangeReached(0, 9, i.dst, rest);
    var t2 := [i.dst] + rest;
    var x := OffsetReached(i.offset, i.opcode.size, t2);
    SizeReached(i.opcode.size, [x] + t2);
    t := [i.opcode.size / 8] + ([x] + t2);
  }

  lemma AtomicReached(i: Instruction, rest: seq<nat>) returns (t: seq<nat>)
    requires RandomMem(i) && IsAtomic(i)
    ensures AtomicFrom(t) == Some((i, rest))
  {
    hide OffsetFrom, StackOffset, RandRangeFrom, RandIntFrom;
    var o: nat := if i.imm == ALU_ADD then 0 else if i.imm == ALU_AND then 1 else if i.imm == ALU_OR then 2 else 3;
    IntReached(o, rest);
    var t3 := [o] + rest;
    var x := OffsetReached(i.offset, i.opcode.size, t3);
    var s: nat := if i.opcode.size == SIZE_W then 0 else 1;
    var t2 := [x] + t3;
    IntReached(s, t2);
    RangeReached(0, 9, i.src, [s] + t2);
    t := [i.src] + ([s] + t2);
  }

  lemma MemReached(i: Instruction, rest: seq<nat>) returns (t: seq<nat>)
    requires RandomMem(i)
    ensures MemFrom(t) == Some((i, rest))
  {
    hide RandomMem, StoreFrom, LoadFrom, AtomicFrom, RandIntFrom;
    var u;
    var k: nat := if IsLoad(i) then 1 else if IsAtomic(i) then 2 else 0;
    if IsLoad(i) {
      u := LoadReached(i, rest);
    } else if IsAtomic(i) {
      u := AtomicReached(i, rest);
    } else {
      u := StoreReached(i, rest);
    }
    IntReached(k, u);
    t := [k] + u;
  }

  // ---------------------------------------------------------------- constants

  /** int32 constants, one draw each. */
  function ConstantsFrom(t: seq<nat>, n: nat): Drawn<seq<int>> {
    if n == 0 then Some(([], t))
    else
      var (v, u) :- RandIntFrom(t);
      Behind([I32(v)], ConstantsFrom(u, n - 1))
  }

  method RandomConstants(rng: Rng, n: nat) returns (c: Option<seq<int>>)
    modifies rng
    ensures Follows(ConstantsFrom(old(rng.tape), n), c, rng.tape)
  {
    hide RandIntFrom, I32;
    var r: seq<int> := [];
    BehindNothing(ConstantsFrom(rng.tape, n));
    for k := 0 to n
      invariant |r| == k && ConstantsFrom(old(rng.tape), n) == Behind(r, ConstantsFrom(rng.tape, n - k))
    {
      var v :- rng.RandInt();
      BehindMore(r, I32(v), ConstantsFrom(rng.tape, n - k - 1));
      r := r + [I32(v)];
    }
    assert r + [] == r;
    c := Some(r);
  }

  lemma {:induction false} ConstantsFit(t: seq<nat>, n: nat)
    ensures ConstantsFrom(t, n).Some? ==> var c := ConstantsFrom(t, n).value.0; |c| == n && forall k | 0 <= k < n :: IsI32(c[k])
  {
    if n > 0 && RandIntFrom(t).Some? {
      ConstantsFit(RandIntFrom(t).value.1, n - 1);
    }
  }

  lemma {:induction false} ConstantsReached(c: seq<int>, rest: seq<nat>) returns (t: seq<nat>)
    requires forall k | 0 <= k < |c| :: IsI32(c[k])
    ensures ConstantsFrom(t, |c|) == Some((c, rest))
    decreases |c|
  {
    hide RandIntFrom;
    if c == [] {
      return rest;
    }
    var u := ConstantsReached(c[1..], rest);
    var v: nat := c[0] % 0x1_0000_0000;
    assert I32(v) == c[0];
    IntReached(v, u);
    t := [v] + u;
    assert [c[0]] + c[1..] == c;
  }

  // ---------------------------------------------------------------- any of them

  /** `newRandomInstruction` of pkg/strategies/coverage_based.go */
  function InstructionFrom(t: seq<nat>, maxJmp: nat): (d: Drawn<Instruction>)
    ensures d.Some? ==> |d.value.1| < |t|
  {
    var (k, u) :- RandIntFrom(t);
    if k % 3 == 1 then (if maxJmp == 0 then AluFrom(u) else JmpFrom(u, maxJmp))
    else if k % 3 == 2 then MemFrom(u)
    else AluFrom(u)
  }

  method NewRandomInstruction(rng: Rng, maxJmp: nat) returns (r: Option<Instruction>)
    modifies rng
    ensures Follows(InstructionFrom(old(rng.tape), maxJmp), r, rng.tape)
  {
    hide AluFrom, MemFrom, JmpFrom;
    var t :- rng.RandInt();
    match t % 3
    case 1 =>
      if maxJmp == 0 {
        r := RandomAluInstruction(rng);
      } else {
        r := RandomJmpInstruction(rng, maxJmp);
      }
    case 2 => r := RandomMemInstruction(rng);
    case _ => r := RandomAluInstruction(rng);
  }

  /** Exactly the random instructions come out, each from some draws. */
  lemma InstructionsExactly(i: Instruction, maxJmp: nat, rest: seq<nat>)
    ensures RandomInstruction(i, maxJmp) <==> exists t :: InstructionFrom(t, maxJmp) == Some((i, rest))
  {
    hide AluFrom, MemFrom, JmpFrom, RandomAlu, RandomMem, RandomJmp;
    if RandomInstruction(i, maxJmp) {
      var t := InstructionReached(i, maxJmp, rest);
    }
    forall t | InstructionFrom(t, maxJmp).Some?
      ensures RandomInstruction(InstructionFrom(t, maxJmp).value.0, maxJmp)
    {
      InstructionIsRandom(t, maxJmp);
    }
  }

  lemma InstructionIsRandom(t: seq<nat>, maxJmp: nat)
    ensures InstructionFrom(t, maxJmp).Some? ==> RandomInstruction(InstructionFrom(t, maxJmp).value.0, maxJmp)
  {
    hide AluFrom, MemFrom, JmpFrom, RandomAlu, RandomMem, RandomJmp;
    if RandIntFrom(t).Some? {
      var u := RandIntFrom(t).value.1;
      AluIsRandom(u);
      MemIsRandom(u);
      if maxJmp > 0 {
        JmpIsRandom(u, maxJmp);
      }
    }
  }

  lemma InstructionReached(i: Instruction, maxJmp: nat, rest: seq<nat>) returns (t: seq<nat>)
    requires RandomInstruction(i, maxJmp)
    ensures InstructionFrom(t, maxJmp) == Some((i, rest))
  {
    hide AluFrom, MemFrom, JmpFrom, RandomAlu, RandomMem, RandomJmp, RandIntFrom;
    var u;
    var k: nat := if RandomAlu(i) then 0 else if RandomMem(i) then 2 else 1;
    if RandomAlu(i) {
      u := AluReached(i, rest);
    } else if RandomMem(i) {
      u := MemReached(i, rest);
    } else {
      u := JmpReached(i, maxJmp, rest);
    }
    IntReached(k, u);
    t := [k] + u;
  }
}
