/** `EncodeInstructions` and, as its specification, the decoder of sections 3.1 and 3.2 of RFC 9669. */
module Encoding {
  import opened Words
  import opened Instructions
  import Bits

  datatype Result<+T> = Ok(value: T) | UnknownOpcode

  datatype FuncInfo = FuncInfo(insnOff: int, typeId: int)
  datatype Func = Func(instructions: seq<Instruction>, info: seq<FuncInfo>)

  // ---------------------------------------------------------------- encoder

  function EncodeAluJmpOpcode(opcode: Byte, cls: Byte, source: Byte): nat {
    Bits.Or(Bits.Or(Bits.And(cls, 0x07), Bits.And(source, 0x08)), Bits.And(opcode, 0xF0))
  }

  function EncodeMemOpcode(mode: Byte, size: Byte, cls: Byte): nat {
    Bits.Or(Bits.Or(Bits.And(cls, 0x07), Bits.And(size, 0x18)), Bits.And(mode, 0xE0))
  }

  function OpcodeByte(o: Opcode): nat
    requires !o.NoOpcode?
  {
    match o
    case AluOpcode(op, source, cls) => EncodeAluJmpOpcode(op % 0x100, cls % 0x100, source % 0x100)
    case JmpOpcode(op, source, cls) => EncodeAluJmpOpcode(op % 0x100, cls % 0x100, source % 0x100)
    case MemOpcode(mode, size, cls) => EncodeMemOpcode(mode % 0x100, size % 0x100, cls % 0x100)
  }

  function Registers(i: Instruction): nat {
    Bits.Or(Bits.And(i.dst % 0x100, 0x0F), Bits.Shl(Bits.And(i.src % 0x100, 0x0F), 4) % 0x100)
  }

  /** The first 64-bit word, field by field as the source ors them together. */
  function EncodeWord(i: Instruction): nat
    requires !i.opcode.NoOpcode?
  {
    var e0 := OpcodeByte(i.opcode);
    var e1 := Bits.Or(e0, Bits.Shl(Registers(i), 8) % 0x1_0000);
    var e2 := Bits.Or(e1, Bits.Shl(i.offset % 0x1_0000_0000, 16) % 0x1_0000_0000);
    Bits.Or(e2, Bits.Shl(i.imm % 0x1_0000_0000_0000_0000, 32) % 0x1_0000_0000_0000_0000)
  }

  /** An error anywhere in the chain of pseudo instructions fails the whole instruction. */
  predicate Encodable(i: Instruction) {
    !i.opcode.NoOpcode? && (i.pseudo.PseudoValue? ==> Encodable(i.pseudo.ins))
  }

  function EncodeInstruction(i: Instruction): (r: Result<seq<nat>>)
    ensures r.Ok? <==> Encodable(i)
    ensures r.Ok? ==> |r.value| == Slots(i)
  {
    if i.opcode.NoOpcode? then UnknownOpcode
    else if i.pseudo.PseudoValue? then
      match EncodeInstruction(i.pseudo.ins)
      case Ok(ws) => Ok([EncodeWord(i), ws[0]])
      case UnknownOpcode => UnknownOpcode
    else Ok([EncodeWord(i)])
  }

  /** Of a chain of pseudo instructions only the first one is emitted, however long the chain. */
  lemma EncodedWords(i: Instruction)
    requires Encodable(i)
    ensures IsWide(i) ==> Encodable(i.pseudo.ins)
    ensures EncodeInstruction(i).value == [EncodeWord(i)] + if IsWide(i) then [EncodeWord(i.pseudo.ins)] else []
  {
    hide EncodeWord;
    if IsWide(i) {
      FirstWord(i.pseudo.ins);
    }
  }

  lemma FirstWord(i: Instruction)
    requires Encodable(i)
    ensures EncodeInstruction(i).value[0] == EncodeWord(i)
  {
    hide EncodeWord;
  }

  /** The bytes `binary.Write` puts in the buffer for a slice of words. */
  function WordBytes(ws: seq<nat>): (b: seq<Byte>)
    ensures |b| == 8 * |ws|
  {
    if ws == [] then [] else LittleEndian(ws[0], 8) + WordBytes(ws[1..])
  }

  /** What one instruction adds to the buffer. */
  function InstructionBytes(i: Instruction): (b: seq<Byte>)
    requires Encodable(i)
    ensures |b| == 8 * Slots(i)
  {
    WordBytes(EncodeInstruction(i).value)
  }

  ghost predicate AllEncodable(p: seq<Instruction>) {
    forall i | 0 <= i < |p| :: Encodable(p[i])
  }

  /** The bytes of the first n instructions of p. */
  function Encode(p: seq<Instruction>, n: nat): (b: seq<Byte>)
    requires n <= |p| && AllEncodable(p)
    ensures |b| == 8 * SlotOf(p, n)
  {
    if n == 0 then [] else Encode(p, n - 1) + InstructionBytes(p[n - 1])
  }

  function Flatten(fs: seq<Func>, n: nat): seq<Instruction>
    requires n <= |fs|
  {
    if n == 0 then [] else Flatten(fs, n - 1) + fs[n - 1].instructions
  }

  /** A function without func_info carries an empty list, one with it a single entry. */
  function FuncInfoBytes(fs: seq<Func>, n: nat): seq<Byte>
    requires n <= |fs|
  {
    if n == 0 then []
    else FuncInfoBytes(fs, n - 1) + InfoEntry(fs[n - 1])
  }

  lemma {:induction false} EncodePrefix(p: seq<Instruction>, q: seq<Instruction>, n: nat)
    requires n <= |p| && n <= |q| && AllEncodable(p) && AllEncodable(q)
    requires p[..n] == q[..n]
    ensures Encode(p, n) == Encode(q, n)
  {
    if n > 0 {
      assert p[..n - 1] == p[..n][..n - 1] && q[..n - 1] == q[..n][..n - 1];
      assert p[n - 1] == p[..n][n - 1] && q[n - 1] == q[..n][n - 1];
      EncodePrefix(p, q, n - 1);
    }
  }

  lemma EncodeExtends(p: seq<Instruction>, i: Instruction)
    requires AllEncodable(p) && Encodable(i)
    ensures Encode(p + [i], |p| + 1) == Encode(p, |p|) + InstructionBytes(i)
  {
    assert (p + [i])[..|p|] == p[..|p|];
    EncodePrefix(p + [i], p, |p|);
  }

  lemma {:induction false} FlattenPart(fs: seq<Func>, n: nat, m: nat)
    requires m < n <= |fs| && AllEncodable(Flatten(fs, n))
    ensures AllEncodable(fs[m].instructions)
  {
    hide Encodable;
    var front, ins := Flatten(fs, n - 1), fs[n - 1].instructions;
    if m < n - 1 {
      assert forall k | 0 <= k < |front| :: front[k] == Flatten(fs, n)[k];
      FlattenPart(fs, n - 1, m);
    } else {
      assert forall k | 0 <= k < |ins| :: ins[k] == Flatten(fs, n)[|front| + k];
    }
  }

  /** The inner loop: appends one function's instructions to the program buffer. */
  method EncodeFunction(ghost done: seq<Instruction>, buffer: seq<Byte>, ins: seq<Instruction>) returns (r: Result<seq<Byte>>)
    requires AllEncodable(done) && buffer == Encode(done, |done|)
    ensures r.Ok? <==> AllEncodable(ins)
    ensures r.Ok? ==> AllEncodable(done + ins) && r.value == Encode(done + ins, |done + ins|)
  {
    hide Encode, WordBytes, EncodeInstruction, Encodable, SlotOf;
    var prog := buffer;
    assert done + ins[..0] == done;
    for k := 0 to |ins|
      invariant AllEncodable(ins[..k]) && AllEncodable(done + ins[..k])
      invariant prog == Encode(done + ins[..k], |done| + k)
    {
      var e := EncodeInstruction(ins[k]);
      if e.UnknownOpcode? {
        return UnknownOpcode;
      }
      EncodeExtends(done + ins[..k], ins[k]);
      assert done + ins[..k] + [ins[k]] == done + ins[..k + 1];
      prog := prog + WordBytes(e.value);
    }
    assert ins[..|ins|] == ins;
    r := Ok(prog);
  }

  function InfoEntry(f: Func): seq<Byte> {
    if f.info == [] then []
    else LittleEndian(f.info[0].insnOff, 4) + LittleEndian(f.info[0].typeId, 4)
  }

  lemma BuffersStart(fs: seq<Func>)
    ensures AllEncodable(Flatten(fs, 0)) && Encode(Flatten(fs, 0), |Flatten(fs, 0)|) == [] == FuncInfoBytes(fs, 0)
  {
  }

  lemma BuffersStep(fs: seq<Func>, f: nat)
    requires f < |fs|
    ensures Flatten(fs, f + 1) == Flatten(fs, f) + fs[f].instructions
    ensures FuncInfoBytes(fs, f + 1) == FuncInfoBytes(fs, f) + InfoEntry(fs[f])
  {
  }

  /** Writes both buffers; fails exactly when some instruction has no encodable opcode. */
  method EncodeInstructions(fs: seq<Func>) returns (r: Result<(seq<Byte>, seq<Byte>)>)
    ensures r.Ok? <==> AllEncodable(Flatten(fs, |fs|))
    ensures r.Ok? ==> r.value.0 == Encode(Flatten(fs, |fs|), |Flatten(fs, |fs|)|)
    ensures r.Ok? ==> r.value.1 == FuncInfoBytes(fs, |fs|)
  {
    hide *;
    var prog, info: seq<Byte> := [], [];
    BuffersStart(fs);
    for f := 0 to |fs|
      invariant AllEncodable(Flatten(fs, f))
      invariant prog == Encode(Flatten(fs, f), |Flatten(fs, f)|)
      invariant info == FuncInfoBytes(fs, f)
    {
      var e := EncodeFunction(Flatten(fs, f), prog, fs[f].instructions);
      if e.UnknownOpcode? {
        if AllEncodable(Flatten(fs, |fs|)) {
          FlattenPart(fs, |fs|, f);
        }
        return UnknownOpcode;
      }
      BuffersStep(fs, f);
      prog := e.value;
      info := info + InfoEntry(fs[f]);
    }
    r := Ok((prog, info));
  }

  // ---------------------------------------------------------------- decoder

  /** The opcode field of section 3.1: the class decides how the other five bits are read. */
  function DecodeOpcode(b: Byte): Opcode {
    var cls := b % 8;
    if cls == CLASS_ALU || cls == CLASS_ALU64 then AluOpcode(b / 16 * 16, b / 8 % 2 * 8, cls)
    else if cls == CLASS_JMP || cls == CLASS_JMP32 then JmpOpcode(b / 16 * 16, b / 8 % 2 * 8, cls)
    else MemOpcode(b / 32 * 32, b / 8 % 4 * 8, cls)
  }

  /** One basic 64-bit instruction. */
  function DecodeBasic(b: seq<Byte>): Instruction
    requires |b| == 8
  {
    Instruction(DecodeOpcode(b[0]), b[1] % 16, b[1] / 16,
                I16(FromLittleEndian(b[2..4])), I32(FromLittleEndian(b[4..8])), Empty)
  }

  function SlotBytes(b: seq<Byte>, s: nat): seq<Byte>
    requires 8 * s + 8 <= |b|
  {
    b[8 * s..8 * s + 8]
  }

  /** The instruction starting at slot s; a wide one must be followed by a word that is zero but for its immediate. */
  function Fetch(b: seq<Byte>, s: nat): (r: Result<Instruction>)
    ensures r.Ok? ==> 8 * (s + Slots(r.value)) <= |b|
  {
    if 8 * s + 8 > |b| then UnknownOpcode
    else
      var i := DecodeBasic(SlotBytes(b, s));
      if i.opcode != MemOpcode(MODE_IMM, SIZE_DW, CLASS_LD) then Ok(i)
      else if 8 * s + 16 > |b| then UnknownOpcode
      else
        var n := DecodeBasic(SlotBytes(b, s + 1));
        if n == PseudoWord(n.imm) then Ok(i.(pseudo := PseudoValue(n))) else UnknownOpcode
  }

  /** Sequential decoding from slot s to the end of the buffer. */
  function Decode(b: seq<Byte>, s: nat): Result<seq<Instruction>>
    decreases |b| - 8 * s
  {
    if |b| == 8 * s then Ok([])
    else match Fetch(b, s)
      case UnknownOpcode => UnknownOpcode
      case Ok(i) =>
        match Decode(b, s + Slots(i))
        case UnknownOpcode => UnknownOpcode
        case Ok(rest) => Ok([i] + rest)
  }

  function DecodeFuncInfo(b: seq<Byte>): Result<seq<FuncInfo>> {
    if b == [] then Ok([])
    else if |b| < 8 then UnknownOpcode
    else match DecodeFuncInfo(b[8..])
      case UnknownOpcode => UnknownOpcode
      case Ok(rest) => Ok([DecodeEntry(b)] + rest)
  }

  // ---------------------------------------------------------------- layout

  lemma ClassField(x: Byte)
    ensures Bits.And(x, 0x07) == x % 8
  {
    hide Bits.And;
    Bits.ShiftByThree(x);
    Bits.AndField(x, 3, 0, 0x07);
  }

  lemma NibbleField(x: Byte)
    ensures Bits.And(x, 0x0F) == x % 16
  {
    hide Bits.And;
    Bits.ShiftByFour(x);
    Bits.AndField(x, 4, 0, 0x0F);
  }

  lemma SourceBit(x: Byte)
    ensures Bits.And(x, 0x08) == x / 8 % 2 * 8
  {
    hide Bits.And, Bits.Shl, Bits.Shr;
    Bits.ShiftByThree(1);
    Bits.ShiftByThree(x);
    Bits.AndField(x, 1, 3, 0x08);
    Bits.ShiftByThree(x / 8 % 2);
  }

  lemma SizeField(x: Byte)
    ensures Bits.And(x, 0x18) == x / 8 % 4 * 8
  {
    hide *;
    Bits.ShiftByThree(3);
    Bits.ShiftByThree(x);
    Bits.LowTwo(x / 8);
    Bits.AndField(x, 2, 3, 0x18);
    Bits.ShiftByThree(x / 8 % 4);
  }

  lemma OperationField(x: Byte)
    ensures Bits.And(x, 0xF0) == x / 16 * 16
  {
    hide Bits.And, Bits.Shl, Bits.Shr;
    Bits.ShiftByFour(15);
    Bits.ShiftByFour(x);
    Bits.AndField(x, 4, 4, 0xF0);
    Bits.ShiftByFour(x / 16);
  }

  lemma ModeField(x: Byte)
    ensures Bits.And(x, 0xE0) == x / 32 * 32
  {
    hide Bits.And, Bits.Shl, Bits.Shr;
    Bits.ShiftByFive(7);
    Bits.ShiftByFive(x);
    Bits.ShiftByThree(x / 32);
    Bits.AndField(x, 3, 5, 0xE0);
    Bits.ShiftByFive(x / 32);
  }

  /** The three fields of an opcode side by side. */
  function OpcodeSum(o: Opcode): nat {
    match o
    case AluOpcode(op, source, cls) => op + source + cls
    case JmpOpcode(op, source, cls) => op + source + cls
    case MemOpcode(mode, size, cls) => mode + size + cls
    case NoOpcode => 0
  }

  lemma AluJmpLayout(op: Byte, cls: Byte, source: Byte)
    requires op % 16 == 0 && (source == SRC_IMM || source == SRC_REG) && cls < 8
    ensures EncodeAluJmpOpcode(op, cls, source) == op + source + cls
  {
    hide Bits.Or, Bits.And, Bits.Shl, Bits.Shr, Bits.Low, Bits.Pow2;
    ClassField(cls);
    SourceBit(source);
    OperationField(op);
    Bits.ShiftByThree(source / 8);
    Bits.OrDisjoint(source / 8, cls, 3);
    Bits.ShiftByFour(op / 16);
    Bits.OrDisjoint(op / 16, cls + source, 4);
  }

  lemma MemLayout(mode: Byte, size: Byte, cls: Byte)
    requires mode % 32 == 0 && size % 8 == 0 && size <= 0x18 && cls < 8
    ensures EncodeMemOpcode(mode, size, cls) == mode + size + cls
  {
    hide Bits.Or, Bits.And, Bits.Shl, Bits.Shr, Bits.Low, Bits.Pow2;
    ClassField(cls);
    SizeField(size);
    ModeField(mode);
    Bits.ShiftByThree(size / 8);
    Bits.OrDisjoint(size / 8, cls, 3);
    Bits.ShiftByFive(mode / 32);
    Bits.OrDisjoint(mode / 32, cls + size, 5);
  }

  lemma SplitThree(h: nat, t: nat, c: nat)
    requires t < 2 && c < 8
    ensures var b := 16 * h + 8 * t + c; b / 16 == h && b / 8 % 2 == t && b % 8 == c
  {
  }

  lemma SplitMem(h: nat, t: nat, c: nat)
    requires t < 4 && c < 8
    ensures var b := 32 * h + 8 * t + c; b / 32 == h && b / 8 % 4 == t && b % 8 == c
  {
  }

  lemma DecodeSum(o: Opcode)
    requires OpcodeWellFormed(o)
    ensures OpcodeSum(o) < 0x100 && DecodeOpcode(OpcodeSum(o)) == o
  {
    if o.MemOpcode? {
      var h, t := o.mode / 32, o.size / 8;
      assert OpcodeSum(o) == 32 * h + 8 * t + o.cls;
      SplitMem(h, t, o.cls);
    } else {
      var h, t := o.op / 16, o.source / 8;
      assert OpcodeSum(o) == 16 * h + 8 * t + o.cls;
      SplitThree(h, t, o.cls);
    }
  }

  lemma OpcodeByteSum(o: Opcode)
    requires OpcodeWellFormed(o)
    ensures OpcodeByte(o) == OpcodeSum(o)
  {
    hide EncodeAluJmpOpcode, EncodeMemOpcode;
    if o.MemOpcode? {
      MemLayout(o.mode, o.size, o.cls);
    } else {
      AluJmpLayout(o.op, o.cls, o.source);
    }
  }

  /** The opcode byte of a well-formed opcode is the sum of its three fields, and reads back as the opcode. */
  lemma OpcodeLayout(o: Opcode)
    requires OpcodeWellFormed(o)
    ensures !o.NoOpcode? && OpcodeByte(o) == OpcodeSum(o) < 0x100
    ensures DecodeOpcode(OpcodeByte(o)) == o
  {
    OpcodeByteSum(o);
    hide OpcodeByte, OpcodeSum, DecodeOpcode;
    DecodeSum(o);
  }

  lemma RegistersLayout(i: Instruction)
    requires i.dst <= 15 && i.src <= 15
    ensures Registers(i) == i.dst + 16 * i.src
  {
    hide Bits.Or, Bits.And, Bits.Shl, Bits.Shr, Bits.Low, Bits.Pow2;
    NibbleField(i.dst);
    NibbleField(i.src);
    Bits.ShiftByFour(i.src);
    Bits.OrDisjoint(i.src, i.dst, 4);
  }

  lemma OrFields(e: nat, r: nat, o: nat, m: nat)
    requires e < 0x100 && r < 0x100 && o < 0x1_0000
    ensures Bits.Or(Bits.Or(Bits.Or(e, 0x100 * r), 0x1_0000 * o), 0x1_0000_0000 * m)
         == e + 0x100 * r + 0x1_0000 * o + 0x1_0000_0000 * m
  {
    hide *;
    Bits.ShiftByEight(r);
    Bits.OrDisjoint(r, e, 8);
    Bits.ShiftBySixteen(o);
    Bits.OrDisjoint(o, e + 0x100 * r, 16);
    Bits.ShiftByThirtyTwo(m);
    Bits.OrDisjoint(m, e + 0x100 * r + 0x1_0000 * o, 32);
  }

  lemma EncodeWordFields(i: Instruction)
    requires !i.opcode.NoOpcode?
    ensures EncodeWord(i) == Bits.Or(Bits.Or(Bits.Or(OpcodeByte(i.opcode), Bits.Shl(Registers(i), 8) % 0x1_0000),
                                             Bits.Shl(i.offset % 0x1_0000_0000, 16) % 0x1_0000_0000),
                                     Bits.Shl(i.imm % 0x1_0000_0000_0000_0000, 32) % 0x1_0000_0000_0000_0000)
  {
    hide OpcodeByte, Registers, Bits.Or, Bits.Shl;
  }

  /** The word is the sum of its fields, each in its own bit range (section 3.1). */
  lemma WordLayout(i: Instruction)
    requires OpcodeWellFormed(i.opcode) && i.dst <= 15 && i.src <= 15
    ensures !i.opcode.NoOpcode? && OpcodeByte(i.opcode) < 0x100
    ensures EncodeWord(i) == OpcodeByte(i.opcode) + 0x100 * (i.dst + 16 * i.src)
                             + 0x1_0000 * (i.offset % 0x1_0000) + 0x1_0000_0000 * (i.imm % 0x1_0000_0000)
  {
    hide *;
    OpcodeLayout(i.opcode);
    EncodeWordFields(i);
    RegistersLayout(i);
    var r, o, m := i.dst + 16 * i.src, i.offset % 0x1_0000, i.imm % 0x1_0000_0000;
    Bits.ShiftByEight(r);
    ShiftedOffset(i.offset);
    ShiftedImmediate(i.imm);
    OrFields(OpcodeByte(i.opcode), r, o, m);
  }

  /** `uint32(offset) << 16` drops the high half of the 32-bit field. */
  lemma ShiftedOffset(x: int)
    ensures Bits.Shl(x % 0x1_0000_0000, 16) % 0x1_0000_0000 == 0x1_0000 * (x % 0x1_0000)
  {
    hide *;
    Bits.ShiftBySixteen(x % 0x1_0000_0000);
    LowHalfShifted(x);
  }

  lemma LowHalfShifted(x: int)
    ensures 0x1_0000 * (x % 0x1_0000_0000) % 0x1_0000_0000 == 0x1_0000 * (x % 0x1_0000)
  {
    var u := x % 0x1_0000_0000;
    var q, r := u / 0x1_0000, u % 0x1_0000;
    SameLowHalf(x);
    assert 0x1_0000 * u == 0x1_0000_0000 * q + 0x1_0000 * r;
    Multiple32(q, 0x1_0000 * r);
  }

  lemma SameLowHalf(x: int)
    ensures x % 0x1_0000_0000 % 0x1_0000 == x % 0x1_0000
  {
  }

  lemma Multiple32(q: int, z: int)
    requires 0 <= z < 0x1_0000_0000
    ensures (0x1_0000_0000 * q + z) % 0x1_0000_0000 == z
  {
  }

  lemma ShiftedImmediate(x: int)
    ensures Bits.Shl(x % 0x1_0000_0000_0000_0000, 32) % 0x1_0000_0000_0000_0000 == 0x1_0000_0000 * (x % 0x1_0000_0000)
  {
    hide *;
    Bits.ShiftByThirtyTwo(x % 0x1_0000_0000_0000_0000);
    LowWordShifted(x);
  }

  lemma LowWordShifted(x: int)
    ensures 0x1_0000_0000 * (x % 0x1_0000_0000_0000_0000) % 0x1_0000_0000_0000_0000 == 0x1_0000_0000 * (x % 0x1_0000_0000)
  {
    var u := x % 0x1_0000_0000_0000_0000;
    var q, r := u / 0x1_0000_0000, u % 0x1_0000_0000;
    assert 0x1_0000_0000 * u == 0x1_0000_0000_0000_0000 * q + 0x1_0000_0000 * r;
  }

  // ---------------------------------------------------------------- round trip

  lemma PeelByte(b: Byte, y: nat, n: nat)
    ensures LittleEndian(b + 0x100 * y, n + 1) == [b] + LittleEndian(y, n)
  {
    assert (b + 0x100 * y) % 0x100 == b && (b + 0x100 * y) / 0x100 == y;
  }

  /** Two bytes read back as the value modulo 2^16. */
  lemma HalfWordRoundTrip(x: int)
    ensures FromLittleEndian(LittleEndian(x, 2)) == x % 0x1_0000
    ensures LittleEndian(x % 0x1_0000, 2) == LittleEndian(x, 2)
  {
    var b := LittleEndian(x, 2);
    assert LittleEndian(x / 0x100, 1) == [x / 0x100 % 0x100];
    assert b == [x % 0x100, x / 0x100 % 0x100];
    assert FromLittleEndian(b[1..][1..]) == 0;
    var u := x % 0x1_0000;
    assert LittleEndian(u / 0x100, 1) == [u / 0x100 % 0x100];
    assert u % 0x100 == x % 0x100 && u / 0x100 == x / 0x100 % 0x100;
  }

  lemma SplitLittleEndian(x: int, n: nat)
    ensures LittleEndian(x, 2 + n) == LittleEndian(x, 2) + LittleEndian(x / 0x1_0000, n)
  {
    assert LittleEndian(x, 2) == [x % 0x100, x / 0x100 % 0x100] by {
      assert LittleEndian(x / 0x100, 1) == [x / 0x100 % 0x100];
    }
    assert x / 0x100 / 0x100 == x / 0x1_0000;
    assert LittleEndian(x / 0x100, 1 + n) == [x / 0x100 % 0x100] + LittleEndian(x / 0x1_0000, n);
  }

  lemma {:induction false} FromConcat(a: seq<Byte>, b: seq<Byte>)
    requires |a| == 2
    ensures FromLittleEndian(a + b) == FromLittleEndian(a) + 0x1_0000 * FromLittleEndian(b)
  {
    assert (a + b)[1..] == [a[1]] + b && ([a[1]] + b)[1..] == b;
    assert a[1..] == [a[1]] && a[1..][1..] == [];
    assert FromLittleEndian(a[1..]) == a[1];
    assert FromLittleEndian([a[1]] + b) == a[1] + 0x100 * FromLittleEndian(b);
  }

  /** Four bytes read back as the value modulo 2^32. */
  lemma DoubleWordRoundTrip(x: int)
    ensures FromLittleEndian(LittleEndian(x, 4)) == x % 0x1_0000_0000
    ensures LittleEndian(x % 0x1_0000_0000, 4) == LittleEndian(x, 4)
  {
    hide FromLittleEndian, LittleEndian;
    var u := x % 0x1_0000_0000;
    SplitLittleEndian(x, 2);
    SplitLittleEndian(u, 2);
    HalfWordRoundTrip(x);
    HalfWordRoundTrip(u);
    HalfWordRoundTrip(x / 0x1_0000);
    HalfWordRoundTrip(u / 0x1_0000);
    assert u % 0x1_0000 == x % 0x1_0000 && u / 0x1_0000 == x / 0x1_0000 % 0x1_0000;
    FromConcat(LittleEndian(x, 2), LittleEndian(x / 0x1_0000, 2));
  }

  /** The eight bytes of a slot, in the order of section 3.1. */
  function SlotImage(i: Instruction): (b: seq<Byte>)
    requires OpcodeWellFormed(i.opcode) && i.dst <= 15 && i.src <= 15
    ensures |b| == 8
  {
    OpcodeLayout(i.opcode);
    [OpcodeByte(i.opcode), i.dst + 16 * i.src] + LittleEndian(i.offset, 2) + LittleEndian(i.imm, 4)
  }

  lemma WordImage(i: Instruction)
    requires OpcodeWellFormed(i.opcode) && i.dst <= 15 && i.src <= 15
    ensures LittleEndian(EncodeWord(i), 8) == SlotImage(i)
  {
    hide EncodeWord, OpcodeByte, OpcodeWellFormed, LittleEndian;
    WordLayout(i);
    var o, m := i.offset % 0x1_0000, i.imm % 0x1_0000_0000;
    var rest := o + 0x1_0000 * m;
    PeelByte(OpcodeByte(i.opcode), i.dst + 16 * i.src + 0x100 * rest, 7);
    PeelByte(i.dst + 16 * i.src, rest, 6);
    SplitLittleEndian(rest, 4);
    assert rest / 0x1_0000 == m && rest % 0x1_0000 == o;
    HalfWordRoundTrip(rest);
    HalfWordRoundTrip(i.offset);
    DoubleWordRoundTrip(i.imm);
  }

  /** A slot decodes to the instruction it was made from, its second word aside. */
  lemma BasicRoundTrip(i: Instruction)
    requires WellFormed(i)
    ensures DecodeBasic(LittleEndian(EncodeWord(i), 8)) == i.(pseudo := Empty)
  {
    hide EncodeWord, OpcodeByte, LittleEndian, FromLittleEndian, DecodeOpcode;
    WordImage(i);
    OpcodeLayout(i.opcode);
    var b := SlotImage(i);
    assert b[2..4] == LittleEndian(i.offset, 2) && b[4..8] == LittleEndian(i.imm, 4);
    HalfWordRoundTrip(i.offset);
    DoubleWordRoundTrip(i.imm);
    assert (i.dst + 16 * i.src) % 16 == i.dst && (i.dst + 16 * i.src) / 16 == i.src;
  }

  lemma InstructionImage(i: Instruction)
    requires WellFormed(i)
    ensures Encodable(i)
    ensures InstructionBytes(i)[..8] == LittleEndian(EncodeWord(i), 8)
    ensures IsWide(i) ==> InstructionBytes(i)[8..16] == LittleEndian(EncodeWord(i.pseudo.ins), 8)
  {
    hide EncodeWord, LittleEndian;
    var ws := EncodeInstruction(i).value;
    assert WordBytes(ws[1..])[..] == WordBytes(ws[1..]);
    if IsWide(i) {
      assert ws == [EncodeWord(i), EncodeWord(i.pseudo.ins)];
      assert ws[1..] == [EncodeWord(i.pseudo.ins)];
      assert WordBytes(ws[1..]) == LittleEndian(EncodeWord(i.pseudo.ins), 8) + WordBytes([]);
    }
  }

  /** Wherever the bytes of a well-formed instruction stand on a slot boundary, fetching there returns it. */
  lemma FetchRoundTrip(b: seq<Byte>, s: nat, i: Instruction)
    requires WellFormed(i) && Encodable(i)
    requires 8 * (s + Slots(i)) <= |b| && b[8 * s..8 * (s + Slots(i))] == InstructionBytes(i)
    ensures Fetch(b, s) == Ok(i)
  {
    hide EncodeWord, LittleEndian, InstructionBytes, DecodeBasic;
    InstructionImage(i);
    BasicRoundTrip(i);
    var t := InstructionBytes(i);
    assert SlotBytes(b, s) == t[..8];
    if IsWide(i) {
      BasicRoundTrip(i.pseudo.ins);
      assert b[8 * s + 8..8 * s + 16] == b[8 * s..8 * s + 16][8..16];
      assert SlotBytes(b, s + 1) == t[8..16];
    }
  }

  lemma {:induction false} EncodeMonotone(p: seq<Instruction>, m: nat, n: nat)
    requires m <= n <= |p| && AllEncodable(p)
    ensures Encode(p, m) <= Encode(p, n)
    decreases n - m
  {
    hide Encodable, InstructionBytes, SlotOf;
    if m < n {
      EncodeMonotone(p, m, n - 1);
    }
  }

  lemma WellFormedEncodable(p: seq<Instruction>)
    requires AllWellFormed(p)
    ensures AllEncodable(p)
  {
    forall i | 0 <= i < |p|
      ensures Encodable(p[i])
    {
      InstructionImage(p[i]);
    }
  }

  lemma EncodeAt(p: seq<Instruction>, k: nat)
    requires AllEncodable(p) && k < |p|
    ensures 8 * (SlotOf(p, k) + Slots(p[k])) <= |Encode(p, |p|)|
    ensures Encode(p, |p|)[8 * SlotOf(p, k)..8 * (SlotOf(p, k) + Slots(p[k]))] == InstructionBytes(p[k])
  {
    hide Encodable, InstructionBytes;
    EncodeMonotone(p, k + 1, |p|);
    var s, c := SlotOf(p, k), Encode(p, k + 1);
    assert c == Encode(p, k) + InstructionBytes(p[k]);
    assert c == Encode(p, |p|)[..|c|];
    assert c[8 * s..] == InstructionBytes(p[k]);
  }

  /** Fetching at the slot of instruction k of an encoded program returns instruction k. */
  lemma FetchEncoded(p: seq<Instruction>, k: nat)
    requires AllWellFormed(p) && AllEncodable(p) && k < |p|
    ensures Fetch(Encode(p, |p|), SlotOf(p, k)) == Ok(p[k])
  {
    hide Fetch, Encodable, WellFormed, InstructionBytes, Encode, SlotOf;
    EncodeAt(p, k);
    FetchRoundTrip(Encode(p, |p|), SlotOf(p, k), p[k]);
  }

  lemma {:induction false} DecodeEncodedFrom(p: seq<Instruction>, k: nat)
    requires AllWellFormed(p) && AllEncodable(p) && k <= |p|
    ensures Decode(Encode(p, |p|), SlotOf(p, k)) == Ok(p[k..])
    decreases |p| - k
  {
    hide Fetch, Encode, WellFormed, Encodable;
    if k < |p| {
      FetchEncoded(p, k);
      SlotOfMonotone(p, k, |p|);
      DecodeEncodedFrom(p, k + 1);
      assert SlotOf(p, k + 1) == SlotOf(p, k) + Slots(p[k]);
      assert p[k..] == [p[k]] + p[k + 1..];
    } else {
      assert p[k..] == [];
    }
  }

  /** Byte round trip: the decoder of RFC 9669 recovers every well-formed program, eight bytes a slot. */
  lemma ProgramRoundTrip(p: seq<Instruction>)
    requires AllWellFormed(p)
    ensures AllEncodable(p)
    ensures Decode(Encode(p, |p|), 0) == Ok(p)
    ensures |Encode(p, |p|)| == 8 * SlotOf(p, |p|)
  {
    WellFormedEncodable(p);
    DecodeEncodedFrom(p, 0);
  }

  lemma EncodingInjective(p: seq<Instruction>, q: seq<Instruction>)
    requires AllWellFormed(p) && AllWellFormed(q) && AllEncodable(p) && AllEncodable(q)
    requires Encode(p, |p|) == Encode(q, |q|)
    ensures p == q
  {
    ProgramRoundTrip(p);
    ProgramRoundTrip(q);
  }

  function InfoList(f: Func): seq<FuncInfo> {
    if f.info == [] then [] else [f.info[0]]
  }

  function Infos(fs: seq<Func>, n: nat): seq<FuncInfo>
    requires n <= |fs|
  {
    if n == 0 then [] else Infos(fs, n - 1) + InfoList(fs[n - 1])
  }

  function DecodeEntry(b: seq<Byte>): FuncInfo
    requires |b| >= 8
  {
    FuncInfo(I32(FromLittleEndian(b[..4])), I32(FromLittleEndian(b[4..8])))
  }

  lemma {:induction false} DecodeFuncInfoAppend(a: seq<Byte>, b: seq<Byte>)
    requires DecodeFuncInfo(a).Ok? && DecodeFuncInfo(b).Ok?
    ensures DecodeFuncInfo(a + b) == Ok(DecodeFuncInfo(a).value + DecodeFuncInfo(b).value)
  {
    hide I32, FromLittleEndian;
    if a == [] {
      assert a + b == b && DecodeFuncInfo(a).value + DecodeFuncInfo(b).value == DecodeFuncInfo(b).value;
    } else {
      DecodeFuncInfoAppend(a[8..], b);
      assert (a + b)[8..] == a[8..] + b && (a + b)[..4] == a[..4] && (a + b)[4..8] == a[4..8];
      assert DecodeEntry(a + b) == DecodeEntry(a);
      assert [DecodeEntry(a)] + DecodeFuncInfo(a[8..]).value + DecodeFuncInfo(b).value
          == [DecodeEntry(a)] + (DecodeFuncInfo(a[8..]).value + DecodeFuncInfo(b).value);
    }
  }

  ghost predicate InfoInRange(f: Func) {
    f.info != [] ==> IsI32(f.info[0].insnOff) && IsI32(f.info[0].typeId)
  }

  lemma InfoEntryRoundTrip(f: Func)
    requires InfoInRange(f)
    ensures DecodeFuncInfo(InfoEntry(f)) == Ok(InfoList(f))
  {
    hide LittleEndian, FromLittleEndian;
    if f.info != [] {
      var e, g := InfoEntry(f), f.info[0];
      assert e[..4] == LittleEndian(g.insnOff, 4) && e[4..8] == LittleEndian(g.typeId, 4) && e[8..] == [];
      DoubleWordRoundTrip(g.insnOff);
      DoubleWordRoundTrip(g.typeId);
      assert DecodeFuncInfo(e[8..]) == Ok([]);
      assert DecodeEntry(e) == g && [g] + [] == [g];
    }
  }

  lemma InfosStep(fs: seq<Func>, n: nat)
    requires 0 < n <= |fs|
    ensures FuncInfoBytes(fs, n) == FuncInfoBytes(fs, n - 1) + InfoEntry(fs[n - 1])
    ensures Infos(fs, n) == Infos(fs, n - 1) + InfoList(fs[n - 1])
  {
  }

  lemma NoInfos(fs: seq<Func>)
    ensures DecodeFuncInfo(FuncInfoBytes(fs, 0)) == Ok(Infos(fs, 0))
  {
  }

  /** The func_info buffer decodes to the listed (offset, type) pairs, in order. */
  lemma {:induction false} FuncInfoRoundTrip(fs: seq<Func>, n: nat)
    requires n <= |fs|
    requires forall k | 0 <= k < n :: InfoInRange(fs[k])
    ensures DecodeFuncInfo(FuncInfoBytes(fs, n)) == Ok(Infos(fs, n))
  {
    hide *;
    if n == 0 {
      NoInfos(fs);
    } else {
      FuncInfoRoundTrip(fs, n - 1);
      InfosStep(fs, n);
      InfoEntryRoundTrip(fs[n - 1]);
      DecodeFuncInfoAppend(FuncInfoBytes(fs, n - 1), InfoEntry(fs[n - 1]));
    }
  }
}
