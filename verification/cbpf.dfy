/** Classic BPF: generators, the narrowing of jump offsets in `encodeCbpfInstructions`, and control flow of the filters. */
module Cbpf {
  import opened Words
  import opened Random
  import Bits
  import Encoding

  const CLASS_LD: nat := 0
  const CLASS_LDX: nat := 1
  const CLASS_ST: nat := 2
  const CLASS_STX: nat := 3
  const CLASS_ALU: nat := 4
  const CLASS_JMP: nat := 5
  const CLASS_RET: nat := 6
  const CLASS_MISC: nat := 7

  const ALU_ADD: nat := 0x00
  const ALU_LSH: nat := 0x60
  const ALU_RSH: nat := 0x70
  const JMP_JA: nat := 0x00

  const MODE_ABS: nat := 0x20
  const MODE_MEM: nat := 0x60

  const SRC_IMM: nat := 0x00
  const SRC_REG: nat := 0x08

  const REG_X: int := 1
  const EXTENSION_OFFSET: int := -0x1000

  /** The protobuf message: all fields are int32. */
  datatype Instruction = Instruction(opcode: int, jt: int, jf: int, k: int)

  /** The kernel's `struct sock_filter`. */
  datatype Filter = Filter(opcode: nat, jt: Byte, jf: Byte, k: nat)

  datatype Src = Constant(v: int) | RegX

  function SourceField(s: Src): Byte { if s.RegX? then SRC_REG else SRC_IMM }
  function KField(s: Src): int { if s.RegX? then REG_X else s.v }

  function NewAlu(oc: Byte, s: Src): Instruction {
    Instruction(Encoding.EncodeAluJmpOpcode(oc, CLASS_ALU, SourceField(s)), 0, 0, KField(s))
  }

  function NewJmp(oc: Byte, jt: int, jf: int, s: Src): Instruction {
    Instruction(Encoding.EncodeAluJmpOpcode(oc, CLASS_JMP, SourceField(s)), jt, jf, KField(s))
  }

  function NewStoreLoad(mode: Byte, size: Byte, cls: Byte, k: int): Instruction {
    Instruction(Encoding.EncodeMemOpcode(mode, size, cls), 0, 0, k)
  }

  /** `Ret` and `Misc` with a constant and with the accumulator: only the class bits are set. */
  function Ret(v: int): Instruction { Instruction(CLASS_RET, 0, 0, v) }
  function MiscTax(): Instruction { Instruction(CLASS_MISC, 0, 0, 0) }

  // ---------------------------------------------------------------- encoding

  function EncodeFilter(i: Instruction): Filter {
    Filter(i.opcode % 0x1_0000, i.jt % 0x100, i.jf % 0x100, i.k % 0x1_0000_0000)
  }

  function EncodeFilters(p: seq<Instruction>): (f: seq<Filter>)
    ensures |f| == |p|
  {
    seq(|p|, i requires 0 <= i < |p| => EncodeFilter(p[i]))
  }

  /** `encodeCbpfInstructions` */
  method EncodeCbpfInstructions(p: seq<Instruction>) returns (f: seq<Filter>)
    ensures f == EncodeFilters(p)
  {
    f := [];
    for i := 0 to |p|
      invariant f == EncodeFilters(p)[..i]
    {
      f := f + [EncodeFilter(p[i])];
    }
  }

  /** The messages' reading of a filter: jumps as int8, the constant as int32. */
  function DecodeFilter(f: Filter): Instruction {
    Instruction(f.opcode, I8(f.jt), I8(f.jf), I32(f.k))
  }

  predicate FitsFilter(i: Instruction) {
    0 <= i.opcode < 0x1_0000 && -0x80 <= i.jt < 0x80 && -0x80 <= i.jf < 0x80 && IsI32(i.k)
  }

  /** All four fields of a message that fits survive. */
  lemma FilterRoundTrip(i: Instruction)
    requires FitsFilter(i)
    ensures DecodeFilter(EncodeFilter(i)) == i
  {
    SignedByte(i.jt);
    SignedByte(i.jf);
    SignedWord(i.k);
  }

  lemma SignedByte(x: int)
    requires -0x80 <= x < 0x80
    ensures I8(x % 0x100) == x
  {
  }

  lemma SignedWord(x: int)
    requires IsI32(x)
    ensures I32(x % 0x1_0000_0000) == x
  {
  }

  /** A drawn offset goes through int8, int32 and uint8; what arrives is the draw modulo 256. */
  lemma NarrowingIsModulo(d: nat)
    ensures I8(d) % 0x100 == d % 0x100 <= d
  {
  }

  /** So every draw up to the bound survives exactly when the bound fits a byte. */
  lemma NarrowingIsFaithful(maxOffset: nat)
    ensures (forall d: nat | 1 <= d <= maxOffset :: I8(d) % 0x100 == d) <==> maxOffset <= 0xff
  {
    if maxOffset > 0xff {
      assert I8(0x100) % 0x100 == 0;
    } else {
      forall d: nat | 1 <= d <= maxOffset
        ensures I8(d) % 0x100 == d
      {
        NarrowingIsModulo(d);
      }
    }
  }

  // ---------------------------------------------------------------- what the generators promise

  /** Never in the jump or return class, and no jump fields. */
  predicate Straight(i: Instruction) {
    0 <= i.opcode < 0x100 && i.opcode % 8 != CLASS_JMP && i.opcode % 8 != CLASS_RET && i.jt == 0 && i.jf == 0
  }

  /** A conditional jump whose false branch was drawn from 1..maxOffset. */
  ghost predicate JumpWithin(i: Instruction, maxOffset: nat) {
    && 0 <= i.opcode < 0x100 && i.opcode % 8 == CLASS_JMP && i.opcode / 16 * 16 != JMP_JA && i.jt == 0
    && exists d: nat :: 1 <= d <= maxOffset && i.jf == I8(d)
  }

  lemma AluIsStraight(oc: Byte, s: Src)
    requires oc % 16 == 0
    ensures Straight(NewAlu(oc, s))
  {
    hide Encoding.EncodeAluJmpOpcode;
    Encoding.AluJmpLayout(oc, CLASS_ALU, SourceField(s));
    Encoding.SplitThree(oc / 16, SourceField(s) / 8, CLASS_ALU);
  }

  lemma JumpOpcode(oc: Byte, s: Src)
    requires oc % 16 == 0
    ensures var o := NewJmp(oc, 0, 0, s).opcode; 0 <= o < 0x100 && o % 8 == CLASS_JMP && o / 16 * 16 == oc
  {
    hide Encoding.EncodeAluJmpOpcode;
    Encoding.AluJmpLayout(oc, CLASS_JMP, SourceField(s));
    Encoding.SplitThree(oc / 16, SourceField(s) / 8, CLASS_JMP);
  }

  /** Whatever mode bits are drawn, valid or not, the class of a load or store stays what it was. */
  lemma StoreLoadIsStraight(mode: Byte, size: Byte, cls: Byte, k: int)
    requires size % 8 == 0 && size <= 0x18 && cls <= 3
    ensures Straight(NewStoreLoad(mode, size, cls, k))
  {
    hide Encoding.EncodeMemOpcode;
    MaskedMode(mode, size, cls);
    Encoding.MemLayout(mode / 32 * 32, size, cls);
    Encoding.SplitMem(mode / 32, size / 8, cls);
  }

  /** The low five bits of the mode are masked off. */
  lemma MaskedMode(mode: Byte, size: Byte, cls: Byte)
    ensures Encoding.EncodeMemOpcode(mode, size, cls) == Encoding.EncodeMemOpcode(mode / 32 * 32, size, cls)
  {
    hide Bits.Or, Bits.And;
    Encoding.ModeField(mode);
    Encoding.ModeField(mode / 32 * 32);
  }

  // ---------------------------------------------------------------- the generators

  /** A drawn int32 as the operation can use it. */
  function ImmediateFor(op: nat, v: int): int {
    if op == ALU_LSH || op == ALU_RSH then
      var m := GoMod(v, 32);
      if m < 0 then -m else m
    else v
  }

  function AluFrom(t: seq<nat>): (d: Drawn<Instruction>) {
    var (o, t1) :- RandRangeFrom(t, 0x00, 0x0a);
    var (coin, t2) :- RandRangeFrom(t1, 0, 1);
    if coin == 0 then
      var (v, t3) :- RandRangeFrom(t2, 0, 0xFFFF_FFFF);
      Some((NewAlu(o * 16, Constant(ImmediateFor(o * 16, I32(v)))), t3))
    else Some((NewAlu(o * 16, RegX), t2))
  }

  method RandomAluInstruction(rng: Rng) returns (r: Option<Instruction>)
    modifies rng
    ensures Follows(AluFrom(old(rng.tape)), r, rng.tape)
  {
    hide NewAlu;
    var draw :- rng.RandRange(0x00, 0x0a);
    var op := draw * 16;
    var coin :- rng.RandRange(0, 1);
    var src := RegX;
    if coin == 0 {
      var v :- rng.RandRange(0, 0xFFFF_FFFF);
      var value := I32(v);
      if op == ALU_LSH || op == ALU_RSH {
        value := GoMod(value, 32);
        if value < 0 {
          value := -value;
        }
      }
      src := Constant(value);
    }
    r := Some(NewAlu(op, src));
  }

  function ConditionalOpFrom(t: seq<nat>): (d: Drawn<nat>)
    ensures d.Some? ==> d.value.0 % 16 == 0 && 0 < d.value.0 <= 0x40 && |d.value.1| < |t|
    decreases |t|
  {
    var (v, u) :- RandRangeFrom(t, 0x00, 0x04);
    if v * 16 != JMP_JA then Some((v * 16, u)) else ConditionalOpFrom(u)
  }

  method RandomConditionalOp(rng: Rng) returns (r: Option<nat>)
    modifies rng
    ensures Follows(ConditionalOpFrom(old(rng.tape)), r, rng.tape)
  {
    while true
      invariant ConditionalOpFrom(rng.tape) == ConditionalOpFrom(old(rng.tape))
      decreases |rng.tape|
    {
      var v :- rng.RandRange(0x00, 0x04);
      if v * 16 != JMP_JA {
        return Some(v * 16);
      }
    }
  }

  function JmpFrom(t: seq<nat>, maxOffset: nat): (d: Drawn<Instruction>)
    requires 1 <= maxOffset
  {
    var (op, t1) :- ConditionalOpFrom(t);
    var (o, t2) :- RandRangeFrom(t1, 1, maxOffset);
    var (constant, t3) :- OneOfFrom(t2, 2);
    if constant then
      var (v, t4) :- RandRangeFrom(t3, 0, 0xffff_ffff);
      Some((NewJmp(op, 0, I8(o), Constant(I32(v))), t4))
    else Some((NewJmp(op, 0, I8(o), RegX), t3))
  }

  method RandomJmpInstruction(rng: Rng, maxOffset: nat) returns (r: Option<Instruction>)
    requires 1 <= maxOffset
    modifies rng
    ensures Follows(JmpFrom(old(rng.tape), maxOffset), r, rng.tape)
  {
    hide NewJmp, ConditionalOpFrom;
    var op :- RandomConditionalOp(rng);
    var d :- rng.RandRange(1, maxOffset);
    var constant :- rng.OneOf(2);
    var src := RegX;
    if constant {
      var v :- rng.RandRange(0, 0xffff_ffff);
      src := Constant(I32(v));
    }
    r := Some(NewJmp(op, 0, I8(d), src));
  }

  function StoreFrom(t: seq<nat>): (d: Drawn<Instruction>) {
    var (s, t1) :- RandIntFrom(t);
    var (imm, t2) :- RandRangeFrom(t1, 0, 512);
    var (k, t3) :- RandIntFrom(t2);
    Some((NewStoreLoad(MODE_MEM, s % 3 * 8, if k % 2 == 0 then CLASS_ST else CLASS_STX, imm), t3))
  }

  method RandomStoreInstruction(rng: Rng) returns (r: Option<Instruction>)
    modifies rng
    ensures Follows(StoreFrom(old(rng.tape)), r, rng.tape)
  {
    hide NewStoreLoad;
    var s :- rng.RandInt();
    var size := s % 3 * 8;
    var imm :- rng.RandRange(0, 512);
    var t :- rng.RandInt();
    var cls := if t % 2 == 0 then CLASS_ST else CLASS_STX;
    r := Some(NewStoreLoad(MODE_MEM, size, cls, imm));
  }

  function LoadImmFrom(t: seq<nat>, mode: nat): (d: Drawn<int>) {
    if mode == MODE_ABS then
      var (i, u) :- RandRangeFrom(t, 0, 64);
      Some((EXTENSION_OFFSET + i, u))
    else
      var (i, u) :- RandRangeFrom(t, 0, 512);
      Some((i, u))
  }

  function LoadFrom(t: seq<nat>): (d: Drawn<Instruction>) {
    var (m, t1) :- RandRangeFrom(t, 0x00, 0x08);
    var (s, t2) :- RandIntFrom(t1);
    var (imm, t3) :- LoadImmFrom(t2, m * 16);
    var (k, t4) :- RandIntFrom(t3);
    Some((NewStoreLoad(m * 16, s % 3 * 8, if k % 2 == 0 then CLASS_LD else CLASS_LDX, imm), t4))
  }

  method RandomLoadImm(rng: Rng, mode: nat) returns (r: Option<int>)
    modifies rng
    ensures Follows(LoadImmFrom(old(rng.tape), mode), r, rng.tape)
  {
    if mode == MODE_ABS {
      var i :- rng.RandRange(0, 64);
      r := Some(EXTENSION_OFFSET + i);
    } else {
      var i :- rng.RandRange(0, 512);
      r := Some(i);
    }
  }

  method RandomLoadInstruction(rng: Rng) returns (r: Option<Instruction>)
    modifies rng
    ensures Follows(LoadFrom(old(rng.tape)), r, rng.tape)
  {
    hide NewStoreLoad, LoadImmFrom;
    var m :- rng.RandRange(0x00, 0x08);
    var mode := m * 16;
    var s :- rng.RandInt();
    var size := s % 3 * 8;
    var imm :- RandomLoadImm(rng, mode);
    var t :- rng.RandInt();
    var cls := if t % 2 == 0 then CLASS_LD else CLASS_LDX;
    r := Some(NewStoreLoad(mode, size, cls, imm));
  }

  // ---------------------------------------------------------------- which instructions can be generated

  predicate DrawnSrc(s: Src) {
    s.Constant? ==> IsI32(s.v)
  }

  ghost predicate RandomAlu(i: Instruction) {
    exists o: nat, s: Src :: AluWith(i, o, s)
  }

  predicate AluWith(i: Instruction, o: nat, s: Src) {
    o <= 0x0a && DrawnSrc(s) && i == NewAlu(o * 16, s) && ((o * 16 == ALU_LSH || o * 16 == ALU_RSH) && s.Constant? ==> 0 <= s.v < 32)
  }

  ghost predicate RandomJmp(i: Instruction, maxOffset: nat) {
    exists o: nat, d: nat, s: Src :: JmpWith(i, maxOffset, o, d, s)
  }

  predicate JmpWith(i: Instruction, maxOffset: nat, o: nat, d: nat, s: Src) {
    1 <= o <= 0x04 && 1 <= d <= maxOffset && DrawnSrc(s) && i == NewJmp(o * 16, 0, I8(d), s)
  }

  ghost predicate RandomStore(i: Instruction) {
    exists z: nat, x: nat, k: nat :: StoreWith(i, z, x, k)
  }

  predicate StoreWith(i: Instruction, z: nat, x: nat, k: nat) {
    z < 3 && k <= 512 && x < 2 && i == NewStoreLoad(MODE_MEM, z * 8, if x == 0 then CLASS_ST else CLASS_STX, k)
  }

  ghost predicate RandomLoad(i: Instruction) {
    exists m: nat, z: nat, x: nat, k: int :: LoadWith(i, m, z, x, k)
  }

  predicate LoadWith(i: Instruction, m: nat, z: nat, x: nat, k: int) {
    && m <= 0x08 && z < 3 && x < 2 && (if m * 16 == MODE_ABS then EXTENSION_OFFSET <= k <= EXTENSION_OFFSET + 64 else 0 <= k <= 512)
    && i == NewStoreLoad(m * 16, z * 8, if x == 0 then CLASS_LD else CLASS_LDX, k)
  }

  lemma AluExactly(i: Instruction, rest: seq<nat>)
    ensures RandomAlu(i) <==> exists t :: AluFrom(t) == Some((i, rest))
  {
    hide NewAlu, RandRangeFrom;
    if o: nat, s: Src :| AluWith(i, o, s) {
      var last: nat := if s.RegX? then 0 else s.v % 0x1_0000_0000;
      var t2 := if s.RegX? then rest else [last] + rest;
      if s.Constant? {
        SignedWord(s.v);
        RangeReached(0, 0xFFFF_FFFF, last, rest);
      }
      var coin: nat := if s.RegX? then 1 else 0;
      RangeReached(0, 1, coin, t2);
      RangeReached(0, 0x0a, o, [coin] + t2);
      assert AluFrom([o] + ([coin] + t2)) == Some((i, rest));
    }
    forall t | AluFrom(t) == Some((i, rest))
      ensures RandomAlu(i)
    {
      AluIsRandom(t);
    }
  }

  lemma AluIsRandom(t: seq<nat>)
    ensures AluFrom(t).Some? ==> RandomAlu(AluFrom(t).value.0)
  {
    hide NewAlu;
    if AluFrom(t).Some? {
      var (o, t1) := RandRangeFrom(t, 0x00, 0x0a).value;
      var (coin, t2) := RandRangeFrom(t1, 0, 1).value;
      var s := if coin == 0 then Constant(ImmediateFor(o * 16, I32(RandRangeFrom(t2, 0, 0xFFFF_FFFF).value.0))) else RegX;
      assert AluWith(AluFrom(t).value.0, o, s);
    }
  }

  lemma JmpExactly(i: Instruction, maxOffset: nat, rest: seq<nat>)
    requires 1 <= maxOffset
    ensures RandomJmp(i, maxOffset) <==> exists t :: JmpFrom(t, maxOffset) == Some((i, rest))
  {
    hide NewJmp, RandRangeFrom, OneOfFrom, I8;
    if o: nat, d: nat, s: Src :| JmpWith(i, maxOffset, o, d, s) {
      var last: nat := if s.RegX? then 0 else s.v % 0x1_0000_0000;
      var t3 := if s.RegX? then rest else [last] + rest;
      if s.Constant? {
        SignedWord(s.v);
        RangeReached(0, 0xFFFF_FFFF, last, rest);
      }
      CoinReached(s.Constant?, t3);
      var t2 := [if s.Constant? then 0 else 1] + t3;
      RangeReached(1, maxOffset, d - 1, t2);
      RangeReached(0, 0x04, o, [d - 1] + t2);
      assert JmpFrom([o] + ([d - 1] + t2), maxOffset) == Some((i, rest));
    }
    forall t | JmpFrom(t, maxOffset) == Some((i, rest))
      ensures RandomJmp(i, maxOffset)
    {
      JmpIsRandom(t, maxOffset);
    }
  }

  lemma JmpIsRandom(t: seq<nat>, maxOffset: nat)
    requires 1 <= maxOffset
    ensures JmpFrom(t, maxOffset).Some? ==> RandomJmp(JmpFrom(t, maxOffset).value.0, maxOffset)
  {
    hide NewJmp, I8;
    if JmpFrom(t, maxOffset).Some? {
      var (op, t1) := ConditionalOpFrom(t).value;
      var (d, t2) := RandRangeFrom(t1, 1, maxOffset).value;
      var (constant, t3) := OneOfFrom(t2, 2).value;
      var s := if constant then Constant(I32(RandRangeFrom(t3, 0, 0xffff_ffff).value.0)) else RegX;
      assert op / 16 * 16 == op;
      assert JmpWith(JmpFrom(t, maxOffset).value.0, maxOffset, op / 16, d, s);
    }
  }

  lemma StoreExactly(i: Instruction, rest: seq<nat>)
    ensures RandomStore(i) <==> exists t :: StoreFrom(t) == Some((i, rest))
  {
    hide NewStoreLoad, RandRangeFrom, RandIntFrom;
    if z: nat, x: nat, k: nat :| StoreWith(i, z, x, k) {
      IntReached(x, rest);
      RangeReached(0, 512, k, [x] + rest);
      IntReached(z, [k] + ([x] + rest));
      assert StoreFrom([z] + ([k] + ([x] + rest))) == Some((i, rest));
    }
    forall t | StoreFrom(t) == Some((i, rest))
      ensures RandomStore(i)
    {
      StoreIsRandom(t);
    }
  }

  lemma StoreIsRandom(t: seq<nat>)
    ensures StoreFrom(t).Some? ==> RandomStore(StoreFrom(t).value.0)
  {
    hide NewStoreLoad;
    if StoreFrom(t).Some? {
      var (s, t1) := RandIntFrom(t).value;
      var (imm, t2) := RandRangeFrom(t1, 0, 512).value;
      var (k, t3) := RandIntFrom(t2).value;
      assert StoreWith(StoreFrom(t).value.0, s % 3, k % 2, imm);
    }
  }

  lemma LoadExactly(i: Instruction, rest: seq<nat>)
    ensures RandomLoad(i) <==> exists t :: LoadFrom(t) == Some((i, rest))
  {
    hide NewStoreLoad, RandRangeFrom, RandIntFrom;
    if m: nat, z: nat, x: nat, k: int :| LoadWith(i, m, z, x, k) {
      IntReached(x, rest);
      var d: nat := if m * 16 == MODE_ABS then k - EXTENSION_OFFSET else k;
      RangeReached(0, if m * 16 == MODE_ABS then 64 else 512, d, [x] + rest);
      IntReached(z, [d] + ([x] + rest));
      RangeReached(0, 0x08, m, [z] + ([d] + ([x] + rest)));
      assert LoadFrom([m] + ([z] + ([d] + ([x] + rest)))) == Some((i, rest));
    }
    forall t | LoadFrom(t) == Some((i, rest))
      ensures RandomLoad(i)
    {
      LoadIsRandom(t);
    }
  }

  lemma LoadIsRandom(t: seq<nat>)
    ensures LoadFrom(t).Some? ==> RandomLoad(LoadFrom(t).value.0)
  {
    hide NewStoreLoad;
    if LoadFrom(t).Some? {
      var (m, t1) := RandRangeFrom(t, 0x00, 0x08).value;
      var (s, t2) := RandIntFrom(t1).value;
      var (imm, t3) := LoadImmFrom(t2, m * 16).value;
      var (k, t4) := RandIntFrom(t3).value;
      assert LoadWith(LoadFrom(t).value.0, m, s % 3, k % 2, imm);
    }
  }

  /** Every generated instruction keeps all its fields in the filter; loads, stores and ALU instructions are straight. */
  lemma GeneratedFit(i: Instruction, maxOffset: nat)
    ensures RandomAlu(i) || RandomStore(i) || RandomLoad(i) ==> Straight(i) && FitsFilter(i)
    ensures RandomJmp(i, maxOffset) ==> JumpWithin(i, maxOffset) && FitsFilter(i)
  {
    hide NewAlu, NewJmp, NewStoreLoad, Straight, JumpWithin;
    if o: nat, s: Src :| AluWith(i, o, s) {
      AluFits(o, s);
    }
    if z: nat, x: nat, k: nat :| StoreWith(i, z, x, k) {
      StoreLoadFits(MODE_MEM, z * 8, if x == 0 then CLASS_ST else CLASS_STX, k);
    }
    if m: nat, z: nat, x: nat, k: int :| LoadWith(i, m, z, x, k) {
      StoreLoadFits(m * 16, z * 8, if x == 0 then CLASS_LD else CLASS_LDX, k);
    }
    if o: nat, d: nat, s: Src :| JmpWith(i, maxOffset, o, d, s) {
      JmpFits(o, d, s, maxOffset);
    }
  }

  lemma AluFits(o: nat, s: Src)
    requires o <= 0x0a && DrawnSrc(s)
    ensures Straight(NewAlu(o * 16, s)) && FitsFilter(NewAlu(o * 16, s))
  {
    hide Encoding.EncodeAluJmpOpcode;
    AluIsStraight(o * 16, s);
  }

  lemma StoreLoadFits(mode: Byte, size: Byte, cls: Byte, k: int)
    requires size % 8 == 0 && size <= 0x18 && cls <= 3 && IsI32(k)
    ensures Straight(NewStoreLoad(mode, size, cls, k)) && FitsFilter(NewStoreLoad(mode, size, cls, k))
  {
    hide Encoding.EncodeMemOpcode;
    StoreLoadIsStraight(mode, size, cls, k);
  }

  lemma JmpFits(o: nat, d: nat, s: Src, maxOffset: nat)
    requires 1 <= o <= 0x04 && 1 <= d <= maxOffset && DrawnSrc(s)
    ensures var i := NewJmp(o * 16, 0, I8(d), s); JumpWithin(i, maxOffset) && FitsFilter(i)
  {
    hide Encoding.EncodeAluJmpOpcode;
    JumpOpcode(o * 16, s);
  }

  // ---------------------------------------------------------------- programs

  /** One instruction of the body, with so many still to come. */
  function BodyInstructionFrom(t: seq<nat>, left: nat): (d: Drawn<Instruction>) {
    var (k, u) :- RandIntFrom(t);
    if k % 4 == 0 then StoreFrom(u)
    else if k % 4 == 1 then LoadFrom(u)
    else if k % 4 == 2 && left != 0 then JmpFrom(u, left)
    else AluFrom(u)
  }

  function CountdownFrom(t: seq<nat>, left: nat): Drawn<seq<Instruction>>
    decreases left
  {
    if left == 0 then Some(([], t))
    else
      var (i, u) :- BodyInstructionFrom(t, left - 1);
      Behind([i], CountdownFrom(u, left - 1))
  }

  function ProgramFrom(t: seq<nat>): Drawn<seq<Instruction>> {
    var (v, u) :- RandIntFrom(t);
    var (body, w) :- CountdownFrom(u, v % 1000);
    Some(([NewAlu(ALU_ADD, Constant(1)), MiscTax()] + body + [Ret(4)], w))
  }

  /** What the body can hold with so many instructions still to come. */
  ghost predicate InBody(i: Instruction, left: nat) {
    RandomAlu(i) || RandomStore(i) || RandomLoad(i) || (left > 0 && RandomJmp(i, left))
  }

  ghost predicate Body(s: seq<Instruction>) {
    forall k | 0 <= k < |s| :: InBody(s[k], |s| - 1 - k)
  }

  lemma BodyInstructionIsRandom(t: seq<nat>, left: nat)
    ensures BodyInstructionFrom(t, left).Some? ==> InBody(BodyInstructionFrom(t, left).value.0, left)
  {
    hide StoreFrom, LoadFrom, AluFrom, JmpFrom, RandomAlu, RandomStore, RandomLoad, RandomJmp;
    if RandIntFrom(t).Some? {
      var u := RandIntFrom(t).value.1;
      AluIsRandom(u);
      StoreIsRandom(u);
      LoadIsRandom(u);
      if left > 0 {
        JmpIsRandom(u, left);
      }
    }
  }

  lemma BodyInstructionReached(i: Instruction, left: nat, rest: seq<nat>) returns (t: seq<nat>)
    requires InBody(i, left)
    ensures BodyInstructionFrom(t, left) == Some((i, rest))
  {
    hide StoreFrom, LoadFrom, AluFrom, JmpFrom, RandomAlu, RandomStore, RandomLoad, RandomJmp, RandIntFrom;
    AluExactly(i, rest);
    StoreExactly(i, rest);
    LoadExactly(i, rest);
    var u;
    var k: nat;
    if RandomStore(i) {
      k := 0;
      u :| StoreFrom(u) == Some((i, rest));
    } else if RandomLoad(i) {
      k := 1;
      u :| LoadFrom(u) == Some((i, rest));
    } else if RandomAlu(i) {
      k := 3;
      u :| AluFrom(u) == Some((i, rest));
    } else {
      k := 2;
      JmpExactly(i, left, rest);
      u :| JmpFrom(u, left) == Some((i, rest));
    }
    IntReached(k, u);
    t := [k] + u;
  }

  lemma {:induction false} CountdownIsBody(t: seq<nat>, left: nat)
    ensures CountdownFrom(t, left).Some? ==> |CountdownFrom(t, left).value.0| == left && Body(CountdownFrom(t, left).value.0)
    decreases left
  {
    hide BodyInstructionFrom, InBody;
    if left > 0 && BodyInstructionFrom(t, left - 1).Some? {
      var (i, u) := BodyInstructionFrom(t, left - 1).value;
      BodyInstructionIsRandom(t, left - 1);
      CountdownIsBody(u, left - 1);
      if CountdownFrom(u, left - 1).Some? {
        var rest := CountdownFrom(u, left - 1).value.0;
        assert forall k | 0 < k < left :: ([i] + rest)[k] == rest[k - 1];
      }
    }
  }

  lemma {:induction false} CountdownReached(s: seq<Instruction>, rest: seq<nat>) returns (t: seq<nat>)
    requires Body(s)
    ensures CountdownFrom(t, |s|) == Some((s, rest))
    decreases |s|
  {
    hide BodyInstructionFrom, InBody;
    if s == [] {
      return rest;
    }
    assert forall k | 0 <= k < |s| - 1 :: s[1..][k] == s[k + 1];
    var u := CountdownReached(s[1..], rest);
    t := BodyInstructionReached(s[0], |s| - 1, u);
    assert [s[0]] + s[1..] == s;
  }

  /** Exactly the set-up, such a body of under 1000, and the return, each program on some draws. */
  ghost predicate Generatable(p: seq<Instruction>) {
    && 3 <= |p| < 1003 && p[0] == NewAlu(ALU_ADD, Constant(1)) && p[1] == MiscTax() && p[|p| - 1] == Ret(4)
    && Body(p[2..|p| - 1])
  }

  lemma ProgramsExactly(p: seq<Instruction>, rest: seq<nat>)
    ensures Generatable(p) <==> exists t :: ProgramFrom(t) == Some((p, rest))
  {
    hide CountdownFrom, Body, NewAlu, Ret;
    if Generatable(p) {
      var body := p[2..|p| - 1];
      var u := CountdownReached(body, rest);
      IntReached(|body|, u);
      assert [p[0], p[1]] + body + [p[|p| - 1]] == p;
      assert ProgramFrom([|body|] + u) == Some((p, rest));
    }
    forall t | ProgramFrom(t) == Some((p, rest))
      ensures Generatable(p)
    {
      ProgramIsGeneratable(t);
    }
  }

  lemma ProgramIsGeneratable(t: seq<nat>)
    ensures ProgramFrom(t).Some? ==> Generatable(ProgramFrom(t).value.0)
  {
    hide CountdownFrom, Body, NewAlu, Ret;
    if ProgramFrom(t).Some? {
      var (v, u) := RandIntFrom(t).value;
      CountdownIsBody(u, v % 1000);
      var p := ProgramFrom(t).value.0;
      assert p[2..|p| - 1] == CountdownFrom(u, v % 1000).value.0;
    }
  }

  /** Instruction `at` of a body of `total`. */
  ghost predicate BodyAt(i: Instruction, at: nat, total: nat) {
    Straight(i) || (at + 1 < total && JumpWithin(i, total - at - 1))
  }

  /** Two initial instructions, a body, and the final return; all as far as control flow goes, and all fit. */
  ghost predicate RandomProgram(p: seq<Instruction>) {
    && 3 <= |p| < 1003 && Straight(p[0]) && Straight(p[1]) && p[|p| - 1] == Ret(4)
    && (forall i | 2 <= i < |p| - 1 :: BodyAt(p[i], i, |p| - 1))
    && forall i | 0 <= i < |p| :: FitsFilter(p[i])
  }

  lemma GeneratableIsRandom(p: seq<Instruction>)
    requires Generatable(p)
    ensures RandomProgram(p)
  {
    hide Straight, JumpWithin, NewAlu, InBody, RandomAlu, RandomStore, RandomLoad, RandomJmp, FitsFilter;
    AluFits(0, Constant(1));
    TaxIsStraight();
    forall i | 2 <= i < |p| - 1
      ensures BodyAt(p[i], i, |p| - 1) && FitsFilter(p[i])
    {
      var body := p[2..|p| - 1];
      assert body[i - 2] == p[i] && InBody(body[i - 2], |body| - 1 - (i - 2));
      FromBody(p[i], |p| - 2 - i);
    }
  }

  lemma FromBody(i: Instruction, left: nat)
    requires InBody(i, left)
    ensures FitsFilter(i) && (Straight(i) || (left > 0 && JumpWithin(i, left)))
  {
    hide Straight, JumpWithin, RandomAlu, RandomStore, RandomLoad, RandomJmp, FitsFilter;
    GeneratedFit(i, left);
  }

  /** So every generated program can be read back from its filters. */
  lemma ProgramRoundTrip(p: seq<Instruction>, k: nat)
    requires RandomProgram(p) && k < |p|
    ensures DecodeFilter(EncodeFilters(p)[k]) == p[k]
  {
    FilterRoundTrip(p[k]);
  }

  /** What the kernel finds around the body: `add #1`, `tax` and, last, `ret #4`. */
  lemma FilterFrame(p: seq<Instruction>)
    requires Generatable(p)
    ensures EncodeFilters(p)[..2] == [Filter(0x04, 0, 0, 1), Filter(0x07, 0, 0, 0)]
    ensures EncodeFilters(p)[|p| - 1] == Filter(0x06, 0, 0, 4)
  {
    assert Encoding.EncodeAluJmpOpcode(ALU_ADD, CLASS_ALU, SRC_IMM) == 0x04;
  }

  class RandomInstructionStrategy {
    var programCount: nat

    constructor ()
      ensures programCount == 0
    {
      programCount := 0;
    }

    method BodyInstruction(rng: Rng, instructionCount: nat) returns (r: Option<Instruction>)
      modifies rng
      ensures Follows(BodyInstructionFrom(old(rng.tape), instructionCount), r, rng.tape)
    {
      hide StoreFrom, LoadFrom, AluFrom, JmpFrom;
      var t :- rng.RandInt();
      match t % 4
      case 0 => r := RandomStoreInstruction(rng);
      case 1 => r := RandomLoadInstruction(rng);
      case 2 =>
        if instructionCount != 0 {
          r := RandomJmpInstruction(rng, instructionCount);
        } else {
          r := RandomAluInstruction(rng);
        }
      case _ => r := RandomAluInstruction(rng);
    }

    method GenerateProgram(rng: Rng) returns (r: Option<seq<Instruction>>)
      modifies this, rng
      ensures programCount == old(programCount) + 1
      ensures Follows(ProgramFrom(old(rng.tape)), r, rng.tape)
      ensures r.Some? ==> RandomProgram(r.value)
    {
      hide BodyInstructionFrom, RandomProgram, NewAlu, Generatable;
      programCount := programCount + 1;
      ProgramIsGeneratable(rng.tape);
      var draw :- rng.RandInt();
      var instructionCount := draw % 1000;
      ghost var total, tape := instructionCount, rng.tape;
      var head := [NewAlu(ALU_ADD, Constant(1)), MiscTax()];
      var p := head;
      ghost var body: seq<Instruction> := [];
      BehindNothing(CountdownFrom(tape, total));
      while instructionCount != 0
        invariant programCount == old(programCount) + 1 && 0 <= instructionCount && p == head + body
        invariant CountdownFrom(tape, total) == Behind(body, CountdownFrom(rng.tape, instructionCount))
      {
        instructionCount := instructionCount - 1;
        var i :- BodyInstruction(rng, instructionCount);
        BehindMore(body, i, CountdownFrom(rng.tape, instructionCount));
        p := p + [i];
        body := body + [i];
      }
      assert body + [] == body;
      r := Some(p + [Ret(4)]);
      GeneratableIsRandom(r.value);
    }
  }

  lemma TaxIsStraight()
    ensures Straight(MiscTax()) && FitsFilter(MiscTax()) && FitsFilter(Ret(4))
  {
  }

  // ---------------------------------------------------------------- control flow of the encoded program

  /** The kernel's reading of a filter at pc: a jump goes to pc + 1 + jt or pc + 1 + jf, a return nowhere. */
  function Successors(f: seq<Filter>, pc: nat): set<nat>
    requires pc < |f|
  {
    var i := f[pc];
    if i.opcode % 8 == CLASS_RET then {}
    else if i.opcode % 8 == CLASS_JMP then
      if i.opcode / 16 * 16 == JMP_JA then {pc + 1 + i.k} else {pc + 1 + i.jt, pc + 1 + i.jf}
    else {pc + 1}
  }

  ghost predicate IsPath(f: seq<Filter>, path: seq<nat>) {
    && |path| > 0 && path[0] == 0
    && forall k | 0 <= k < |path| - 1 :: path[k] < |f| && path[k + 1] in Successors(f, path[k])
  }

  /** One step from anywhere before the final return goes forward and no further than that return. */
  lemma FilterStep(p: seq<Instruction>, pc: nat)
    requires RandomProgram(p) && pc < |p|
    ensures Successors(EncodeFilters(p), pc) == {} <==> pc == |p| - 1
    ensures forall t | t in Successors(EncodeFilters(p), pc) :: pc < t < |p|
  {
    hide NewAlu;
    var n := |p| - 1;
    if pc == n {
      assert EncodeFilters(p)[pc].opcode % 8 == CLASS_RET;
    } else {
      assert pc < 2 || BodyAt(p[pc], pc, n);
      SameClass(p[pc].opcode);
      if !Straight(p[pc]) {
        var d: nat :| 1 <= d <= n - pc - 1 && p[pc].jf == I8(d);
        NarrowingIsModulo(d);
        assert EncodeFilters(p)[pc].jf <= n - pc - 1 && EncodeFilters(p)[pc].jt == 0;
      }
      assert pc + 1 in Successors(EncodeFilters(p), pc);
    }
  }

  /** A generated jump falls through when its condition holds, and goes over the cast draw modulo 256 otherwise. */
  lemma JumpSuccessors(p: seq<Instruction>, pc: nat)
    requires RandomProgram(p) && pc < |p| - 1
    ensures if Straight(p[pc]) then Successors(EncodeFilters(p), pc) == {pc + 1}
            else Successors(EncodeFilters(p), pc) == {pc + 1, pc + 1 + p[pc].jf % 0x100}
  {
    hide NewAlu;
    assert pc < 2 || BodyAt(p[pc], pc, |p| - 1);
    SameClass(p[pc].opcode);
  }

  lemma SameClass(o: int)
    requires 0 <= o < 0x100
    ensures o % 0x1_0000 == o
  {
  }

  /** Every path through the encoded filter program moves forward, stays inside, and can only stop at the final return. */
  lemma {:induction false} FilterPaths(p: seq<Instruction>, path: seq<nat>)
    requires RandomProgram(p) && IsPath(EncodeFilters(p), path)
    ensures forall k | 0 <= k < |path| :: path[k] < |p|
    ensures forall k | 0 <= k < |path| - 1 :: path[k] < path[k + 1]
    ensures |path| - 1 <= path[|path| - 1] && |path| <= |p|
    ensures Successors(EncodeFilters(p), path[|path| - 1]) == {} <==> path[|path| - 1] == |p| - 1
  {
    hide RandomProgram, Successors, EncodeFilters;
    ProgramNotEmpty(p);
    if |path| > 1 {
      var n := |path| - 1;
      var front := path[..n];
      assert forall k | 0 <= k < n :: front[k] == path[k];
      FilterPaths(p, front);
      FilterStep(p, path[n - 1]);
      assert path[n - 1 + 1] in Successors(EncodeFilters(p), path[n - 1]);
    }
    FilterStep(p, path[|path| - 1]);
  }

  lemma ProgramNotEmpty(p: seq<Instruction>)
    requires RandomProgram(p)
    ensures |p| >= 3
  {
  }
}
