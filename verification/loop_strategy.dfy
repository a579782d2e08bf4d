/** The loop strategy: a main function that passes the address of a second, random function to a helper. */
module LoopStrategy {
  import opened Words
  import opened Instructions
  import opened Encoding
  import opened Random
  import opened Generators
  import opened Machine
  import opened ControlFlow
  import opened Oracle
  import opened KernelInterface
  import Protocol
  import Btf

  const BPF_LOOP: int := 181

  function MainBody(fd: int): (b: seq<Instruction>)
    ensures |b| == 21
  {
    [LdMapByFd(R9, fd)] + LookupCode(0) + [ControlStore()] + LookupCode(1) + MainTail()
  }

  /** Adds what the loop left on the stack to the pointer, and stores there. */
  function MainTail(): (t: seq<Instruction>)
    ensures |t| == 5
  {
    [ NewLoad(SIZE_W, R8, R10, -12), Add64(R0, Reg(R8)), NewStore(SIZE_W, R0, Reg(R8), 0), Mov64(R0, Int(0)), Exit() ]
  }

  /** The immediate of the function pointer load counts slots from the one after it. */
  function MainHeader(imm: int): (h: seq<Instruction>)
    ensures |h| == 8
  {
    [ NewStore(SIZE_W, R10, Int(0), -4), NewStore(SIZE_W, R10, Int(0), -12),
      Mov64(R3, Reg(R10)), Add64(R3, Int(-8)),
      NewAlu(ALU_MOV, CLASS_ALU, R1, Int(10)), NewAlu(ALU_MOV, CLASS_ALU, R4, Int(0)),
      LdFunctionPtr(imm), Call(BPF_LOOP) ]
  }

  function MainFunction(fd: int): (m: seq<Instruction>)
    ensures |m| == 29
  {
    MainHeader(I32(|MainBody(fd)| + 3)) + MainBody(fd)
  }

  /** R0, then R2..R9: R1 keeps the iteration number. */
  function InitRegisters(c: seq<int>): (s: seq<Instruction>)
    requires |c| == 9
    ensures |s| == 9
  {
    seq(9, k requires 0 <= k < 9 => Mov64(if k == 0 then 0 else k + 1, Int32(c[k])))
  }

  function LoopFoot(): seq<Instruction> {
    [ NewAlu(ALU_MOV, CLASS_ALU, R0, Int(0)), Exit() ]
  }

  function LoopFunction(c: seq<int>, body: seq<Instruction>): seq<Instruction>
    requires |c| == 9
  {
    [NewStore(SIZE_DW, R10, Reg(R2), -8)] + InitRegisters(c) + body + LoopFoot()
  }

  /** A bounded displacement below the saved context pointer, and one byte written there. */
  function ContextWrite(reg: nat, c: int): (s: seq<Instruction>)
    ensures |s| == 6
  {
    [ NewLoad(SIZE_DW, R2, R10, -8), NewAlu(ALU_AND, CLASS_ALU, reg, Int(0x3f)), NewAlu(ALU_MUL, CLASS_ALU64, reg, Int(-1)),
      Add64(R2, Reg(reg)), NewStore(SIZE_B, R2, Int(16), 0), Mov64(R2, Int32(c)) ]
  }

  /** Narrow, and if a jump, one that goes forward over at most `room` instructions. */
  ghost predicate NarrowWithin(i: Instruction, room: int) {
    && WellFormed(i) && Supported(i) && !IsWide(i) && !IsExit(i)
    && (IsJump(i) ==> 0 <= i.offset <= room)
  }

  /** All narrow; every jump lands inside the body or right behind it, with `more` instructions promised. */
  ghost predicate LoopBody(body: seq<Instruction>, more: nat) {
    forall i | 0 <= i < |body| :: NarrowWithin(body[i], |body| + more - i - 1)
  }

  /** The offsets are those of the source: `len(main)+2` for the loop function. */
  function Functions(fd: int, c: seq<int>, body: seq<Instruction>): seq<Func>
    requires |c| == 9
  {
    [ Func(MainFunction(fd), [FuncInfo(0, 2)]),
      Func(LoopFunction(c, body), [FuncInfo(I32(|MainFunction(fd)| + 2), 7)]) ]
  }

  // ---------------------------------------------------------------- the generator

  lemma ContextWriteIsNarrow(reg: nat, c: int, k: nat)
    requires reg <= 9 && IsI32(c) && k < 6
    ensures var i := ContextWrite(reg, c)[k]; WellFormed(i) && Supported(i) && !IsWide(i) && !IsJump(i) && !IsExit(i)
  {
  }

  lemma RandomNarrowWithin(i: Instruction, maxJmp: nat)
    requires RandomInstruction(i, maxJmp) && maxJmp <= 0x7fff
    ensures NarrowWithin(i, maxJmp)
  {
    hide WellFormed, Supported;
    RandomInstructionsAreNarrow(i, maxJmp);
    if IsJump(i) {
      RandomJmpForward(i, maxJmp);
    }
  }

  /** Appending at least one instruction keeps the promise of one. */
  lemma LoopBodyGrows(body: seq<Instruction>, turn: seq<Instruction>, more: nat)
    requires LoopBody(body, more + 1) && LoopBody(turn, more) && |turn| > 0
    ensures LoopBody(body + turn, more)
  {
    hide WellFormed, Supported, IsJump;
    var all := body + turn;
    forall i | 0 <= i < |all|
      ensures NarrowWithin(all[i], |all| + more - i - 1)
    {
      if i < |body| {
        assert all[i] == body[i] && NarrowWithin(body[i], |body| + (more + 1) - i - 1);
      } else {
        assert all[i] == turn[i - |body|] && NarrowWithin(turn[i - |body|], |turn| + more - (i - |body|) - 1);
      }
    }
  }

  lemma ContextWriteIsBody(reg: nat, c: int, more: nat)
    requires reg <= 9 && IsI32(c)
    ensures LoopBody(ContextWrite(reg, c), more)
  {
    hide WellFormed, Supported, IsJump, IsWide, ContextWrite;
    var s := ContextWrite(reg, c);
    forall k | 0 <= k < 6
      ensures NarrowWithin(s[k], |s| + more - k - 1)
    {
      ContextWriteIsNarrow(reg, c, k);
    }
  }

  // ---------------------------------------------------------------- what the draws decide on

  function OtherRegisterFrom(t: seq<nat>): (d: Drawn<nat>)
    ensures d.Some? ==> d.value.0 <= 9 && d.value.0 != R1 && d.value.0 != R2 && |d.value.1| < |t|
    decreases |t|
  {
    var (reg, u) :- RegisterFrom(t);
    if reg == R2 || reg == R1 then OtherRegisterFrom(u) else Some((reg, u))
  }

  function TurnFrom(t: seq<nat>, left: nat): (d: Drawn<seq<Instruction>>) {
    var (k, t1) :- RandIntFrom(t);
    var (reg, t2) :- OtherRegisterFrom(t1);
    if k % 4 == 0 then
      var (c, t3) :- RandIntFrom(t2);
      Some((ContextWrite(reg, I32(c)), t3))
    else if k % 4 == 1 then
      var (i, t3) :- LoadFrom(t2);
      Some(([i], t3))
    else
      var (p, t3) :- RandRangeFrom(t2, 1, 100);
      var (i, t4) :- if p > 30 || left == 0 then AluFrom(t3) else JmpFrom(t3, left);
      Some(([i], t4))
  }

  function TurnsFrom(t: seq<nat>, left: nat): Drawn<seq<Instruction>>
    decreases left
  {
    if left == 0 then Some(([], t))
    else
      var (turn, u) :- TurnFrom(t, left - 1);
      Behind(turn, TurnsFrom(u, left - 1))
  }

  datatype Parts = Parts(c: seq<int>, body: seq<Instruction>)

  /** First the number of turns, then the constants, then the turns. */
  function LoopPartsFrom(t: seq<nat>): (d: Drawn<Parts>)
    ensures d.Some? ==> |d.value.0.c| == 9
  {
    var (v, u) :- RandIntFrom(t);
    var (c, w) :- ConstantsFrom(u, 9);
    var (body, x) :- TurnsFrom(w, v % 1000);
    ConstantsFit(u, 9);
    Some((Parts(c, body), x))
  }

  /** What one turn can be: a write below the context, a stack load, an ALU instruction, or a jump over turns to come. */
  ghost predicate TurnOf(turn: seq<Instruction>, left: nat) {
    || (exists reg: nat, c: int :: reg <= 9 && reg != R1 && reg != R2 && IsI32(c) && turn == ContextWrite(reg, c))
    || (|turn| == 1 && ((RandomMem(turn[0]) && IsLoad(turn[0])) || RandomAlu(turn[0]) || (left > 0 && RandomJmp(turn[0], left))))
  }

  ghost predicate TurnsOf(body: seq<Instruction>, left: nat)
    decreases left
  {
    if left == 0 then body == []
    else exists n: nat :: n <= |body| && TurnOf(body[..n], left - 1) && TurnsOf(body[n..], left - 1)
  }

  lemma TurnIsOne(t: seq<nat>, left: nat)
    ensures TurnFrom(t, left).Some? ==> TurnOf(TurnFrom(t, left).value.0, left)
  {
    hide ContextWrite, LoadFrom, AluFrom, JmpFrom, RandomMem, RandomAlu, RandomJmp, OtherRegisterFrom, RandRangeFrom;
    if RandIntFrom(t).Some? && OtherRegisterFrom(RandIntFrom(t).value.1).Some? {
      var t2 := OtherRegisterFrom(RandIntFrom(t).value.1).value.1;
      LoadIsRandom(t2);
      if RandRangeFrom(t2, 1, 100).Some? {
        var t3 := RandRangeFrom(t2, 1, 100).value.1;
        AluIsRandom(t3);
        if left > 0 {
          JmpIsRandom(t3, left);
        }
      }
    }
  }

  lemma TurnReached(turn: seq<Instruction>, left: nat, rest: seq<nat>) returns (t: seq<nat>)
    requires TurnOf(turn, left)
    ensures TurnFrom(t, left) == Some((turn, rest))
  {
    hide ContextWrite, LoadFrom, AluFrom, JmpFrom, RandomMem, RandomAlu, RandomJmp, RandRangeFrom, RandIntFrom, I32;
    if reg: nat, c: int :| reg <= 9 && reg != R1 && reg != R2 && IsI32(c) && turn == ContextWrite(reg, c) {
      var v: nat := c % 0x1_0000_0000;
      SameConstant(c);
      IntReached(v, rest);
      OtherReached(reg, [v] + rest);
      IntReached(0, [reg] + ([v] + rest));
      t := [0] + ([reg] + ([v] + rest));
    } else {
      assert [turn[0]] == turn;
      if RandomMem(turn[0]) && IsLoad(turn[0]) {
        var u := LoadReached(turn[0], rest);
        OtherReached(0, u);
        IntReached(1, [0] + u);
        t := [1] + ([0] + u);
      } else {
        var u;
        var p: nat;
        if RandomAlu(turn[0]) {
          u := AluReached(turn[0], rest);
          p := 99;
        } else {
          u := JmpReached(turn[0], left, rest);
          p := 0;
        }
        RangeReached(1, 100, p, u);
        OtherReached(0, [p] + u);
        IntReached(2, [0] + ([p] + u));
        t := [2] + ([0] + ([p] + u));
      }
    }
  }

  lemma SameConstant(c: int)
    requires IsI32(c)
    ensures I32(c % 0x1_0000_0000) == c
  {
  }

  lemma OtherReached(reg: nat, rest: seq<nat>)
    requires reg <= 9 && reg != R1 && reg != R2
    ensures OtherRegisterFrom([reg] + rest) == Some((reg, rest))
  {
    RangeReached(0, 9, reg, rest);
  }

  /** Exactly the sequences of such turns are generated, each on some draws. */
  lemma TurnsExactly(body: seq<Instruction>, left: nat, rest: seq<nat>)
    ensures TurnsOf(body, left) <==> exists t :: TurnsFrom(t, left) == Some((body, rest))
  {
    if TurnsOf(body, left) {
      var t := TurnsReached(body, left, rest);
    }
    forall t | TurnsFrom(t, left) == Some((body, rest))
      ensures TurnsOf(body, left)
    {
      TurnsAreTurns(t, left);
    }
  }

  lemma {:induction false} TurnsReached(body: seq<Instruction>, left: nat, rest: seq<nat>) returns (t: seq<nat>)
    requires TurnsOf(body, left)
    ensures TurnsFrom(t, left) == Some((body, rest))
    decreases left
  {
    hide TurnFrom, TurnOf;
    if left == 0 {
      return rest;
    }
    var n: nat :| n <= |body| && TurnOf(body[..n], left - 1) && TurnsOf(body[n..], left - 1);
    var u := TurnsReached(body[n..], left - 1, rest);
    t := TurnReached(body[..n], left - 1, u);
    assert body[..n] + body[n..] == body;
  }

  lemma {:induction false} TurnsAreTurns(t: seq<nat>, left: nat)
    ensures TurnsFrom(t, left).Some? ==> TurnsOf(TurnsFrom(t, left).value.0, left)
    decreases left
  {
    hide TurnFrom, TurnOf;
    if left > 0 && TurnFrom(t, left - 1).Some? {
      var (turn, u) := TurnFrom(t, left - 1).value;
      TurnIsOne(t, left - 1);
      TurnsAreTurns(u, left - 1);
      if TurnsFrom(u, left - 1).Some? {
        var rest := TurnsFrom(u, left - 1).value.0;
        assert (turn + rest)[..|turn|] == turn && (turn + rest)[|turn|..] == rest;
      }
    }
  }

  lemma TurnIsBody(turn: seq<Instruction>, left: nat)
    requires TurnOf(turn, left) && left < 1000
    ensures |turn| > 0 && LoopBody(turn, left)
  {
    hide NarrowWithin, RandomAlu, RandomMem, RandomJmp, ContextWrite;
    if reg: nat, c: int :| reg <= 9 && reg != R1 && reg != R2 && IsI32(c) && turn == ContextWrite(reg, c) {
      ContextWriteIsBody(reg, c, left);
    } else {
      RandomNarrowWithin(turn[0], left);
    }
  }

  /** Every jump of such a body lands inside it or right behind it, although turns differ in length. */
  lemma {:induction false} TurnsAreBody(body: seq<Instruction>, left: nat)
    requires TurnsOf(body, left) && left <= 1000
    ensures LoopBody(body, 0)
  {
    TurnsBehind([], body, left);
    assert [] + body == body;
  }

  lemma {:induction false} TurnsBehind(front: seq<Instruction>, body: seq<Instruction>, left: nat)
    requires TurnsOf(body, left) && LoopBody(front, left) && left <= 1000
    ensures LoopBody(front + body, 0)
    decreases left
  {
    hide TurnOf, NarrowWithin;
    if left == 0 {
      assert front + body == front;
    } else {
      var n: nat :| n <= |body| && TurnOf(body[..n], left - 1) && TurnsOf(body[n..], left - 1);
      TurnIsBody(body[..n], left - 1);
      LoopBodyGrows(front, body[..n], left - 1);
      TurnsBehind(front + body[..n], body[n..], left - 1);
      assert front + body[..n] + body[n..] == front + body;
    }
  }

  ghost predicate PartsOf(parts: Parts) {
    && |parts.c| == 9 && (forall k | 0 <= k < 9 :: IsI32(parts.c[k]))
    && exists n: nat :: n < 1000 && TurnsOf(parts.body, n)
  }

  /** Exactly nine constants and a body of under 1000 turns are drawn, each choice on some draws. */
  lemma LoopPartsExactly(parts: Parts, rest: seq<nat>)
    ensures PartsOf(parts) <==> exists t :: LoopPartsFrom(t) == Some((parts, rest))
  {
    hide TurnsFrom, ConstantsFrom, TurnsOf, RandIntFrom;
    if PartsOf(parts) {
      var n: nat :| n < 1000 && TurnsOf(parts.body, n);
      var u := TurnsReached(parts.body, n, rest);
      var w := ConstantsReached(parts.c, u);
      IntReached(n, w);
      assert LoopPartsFrom([n] + w) == Some((parts, rest));
    }
    forall t | LoopPartsFrom(t) == Some((parts, rest))
      ensures PartsOf(parts)
    {
      var (v, u) := RandIntFrom(t).value;
      ConstantsFit(u, 9);
      TurnsAreTurns(ConstantsFrom(u, 9).value.1, v % 1000);
      assert v % 1000 < 1000 && TurnsOf(parts.body, v % 1000);
    }
  }

  /** Whatever the draws, the parts are as the program needs them. */
  lemma PartsAreFit(t: seq<nat>)
    ensures LoopPartsFrom(t).Some? ==> LoopParts(LoopPartsFrom(t).value.0.c, LoopPartsFrom(t).value.0.body)
  {
    hide TurnsFrom, ConstantsFrom, TurnsOf, LoopBody;
    if RandIntFrom(t).Some? && ConstantsFrom(RandIntFrom(t).value.1, 9).Some? {
      var (v, u) := RandIntFrom(t).value;
      ConstantsFit(u, 9);
      TurnsAreTurns(ConstantsFrom(u, 9).value.1, v % 1000);
      if TurnsFrom(ConstantsFrom(u, 9).value.1, v % 1000).Some? {
        TurnsAreBody(TurnsFrom(ConstantsFrom(u, 9).value.1, v % 1000).value.0, v % 1000);
      }
    }
  }

  /** Bad on a nonzero second element; None where the code indexes out of range; an unreadable reply passes. */
  function LoopVerdict(reply: Option<seq<nat>>): Option<bool> {
    if reply.None? then Some(true) else if |reply.value| < 2 then None else Some(reply.value[1] == 0)
  }

  class LoopPointerArithmetic {
    var isFinished: bool
    var mapFd: int
    var programCount: nat
    var validProgramCount: nat

    constructor ()
      ensures !isFinished && mapFd == 0 && programCount == 0 && validProgramCount == 0
    {
      isFinished, mapFd, programCount, validProgramCount := false, 0, 0, 0;
    }

    /** Redraws R1 and R2, which the loop function needs. */
    method OtherRegister(rng: Rng) returns (r: Option<nat>)
      modifies rng
      ensures Follows(OtherRegisterFrom(old(rng.tape)), r, rng.tape)
    {
      hide RegisterFrom;
      var reg :- RandomRegister(rng);
      while reg == R2 || reg == R1
        invariant OtherRegisterFrom(old(rng.tape)) == if reg == R2 || reg == R1 then OtherRegisterFrom(rng.tape) else Some((reg, rng.tape))
        decreases |rng.tape|
      {
        reg :- RandomRegister(rng);
      }
      r := Some(reg);
    }

    /** One turn of the loop: six fixed instructions or one random one; a jump is bounded by the turns still to come. */
    method Turn(rng: Rng, turnsLeft: nat) returns (r: Option<seq<Instruction>>)
      modifies rng
      ensures Follows(TurnFrom(old(rng.tape), turnsLeft), r, rng.tape)
    {
      hide OtherRegisterFrom, LoadFrom, AluFrom, JmpFrom, RandRangeFrom, RandIntFrom;
      var t :- rng.RandInt();
      var reg :- OtherRegister(rng);
      var i: Instruction;
      if t % 4 == 0 {
        var c :- rng.RandInt();
        return Some(ContextWrite(reg, I32(c)));
      } else if t % 4 == 1 {
        i :- RandomLoadInstruction(rng);
      } else {
        var p :- rng.RandRange(1, 100);
        if p > 30 || turnsLeft == 0 {
          i :- RandomAluInstruction(rng);
        } else {
          i :- RandomJmpInstruction(rng, turnsLeft);
        }
      }
      r := Some([i]);
    }

    /** The countdown loop. */
    method GenerateBody(rng: Rng, count: nat) returns (r: Option<seq<Instruction>>)
      modifies rng
      ensures Follows(TurnsFrom(old(rng.tape), count), r, rng.tape)
    {
      hide TurnFrom;
      var instructionCount := count;
      var body: seq<Instruction> := [];
      BehindNothing(TurnsFrom(rng.tape, count));
      while instructionCount != 0
        invariant 0 <= instructionCount
        invariant TurnsFrom(old(rng.tape), count) == Behind(body, TurnsFrom(rng.tape, instructionCount))
      {
        instructionCount := instructionCount - 1;
        var turn :- Turn(rng, instructionCount);
        BehindBoth(body, turn, TurnsFrom(rng.tape, instructionCount));
        body := body + turn;
      }
      assert body + [] == body;
      r := Some(body);
    }

    /** The field does not name a descriptor that is not open. */
    predicate NoStrayField(ffi: FFI)
      reads `mapFd, ffi`open
    {
      mapFd < 0 || mapFd in ffi.open
    }

    /** The BTF section, whatever lengths `SetHeaderSection` has put into the header. */
    method BtfSection() returns (b: seq<Byte>)
      ensures exists h :: HeaderOf(h) && Btf.Parse(b) == Some((h, Btf.LoopTypes(), Btf.StringBytes(BUZZER, 6)))
    {
      hide Btf.LoopTypes, Btf.WellFormedType, Btf.Parse, Btf.AllWords, Btf.HeaderBytes, Btf.WordBytes, Btf.StringBytes;
      var a, c, d: int := *, *, *;
      var m := new Btf.BtfMessage(Btf.Header(0xeb9f, 1, 0, 24, 0, I32(a), I32(c), I32(d)), Btf.LoopTypes(), BUZZER);
      LoopTypesFit();
      b := m.GetBuffer();
      assert HeaderOf(m.header);
    }

    /**
     * The new map is made before the old one is closed, and no answer is looked at. A field that names an open
     * descriptor, or none, does so afterwards.
     */
    method GenerateProgram(ffi: FFI, rng: Rng) returns (r: Option<LoopProgram>)
      modifies this, ffi, rng
      ensures programCount == old(programCount) + 1 && isFinished == old(isFinished) && validProgramCount == old(validProgramCount)
      ensures mapFd == Granted(old(ffi.open), ffi.script(old(ffi.calls)).fd) && ffi.calls == old(ffi.calls) + 1
      ensures ffi.log == old(ffi.log) + [Protocol.MapCreated(mapFd), Protocol.Closed(old(mapFd))]
      ensures ffi.open == old(ffi.open) + (if mapFd >= 0 then {mapFd} else {}) - {old(mapFd)}
      ensures old(NoStrayField(ffi)) ==> NoStrayField(ffi)
      ensures match LoopPartsFrom(old(rng.tape))
              case None => r.None? && rng.tape == []
              case Some((parts, rest)) => r.Some? && r.value.functions == Functions(mapFd, parts.c, parts.body) && rng.tape == rest
      ensures r.Some? ==> exists h :: HeaderOf(h) && Btf.Parse(r.value.btf) == Some((h, Btf.LoopTypes(), Btf.StringBytes(BUZZER, 6)))
    {
      hide Btf.Parse, Btf.LoopTypes, Btf.StringBytes, Functions, FFI.Valid, HeaderOf, TurnsFrom, ConstantsFrom, Granted, RandIntFrom;
      programCount := programCount + 1;
      var fd := ffi.CreateMapArray();
      ffi.CloseFD(mapFd);
      mapFd := fd;
      var draw :- rng.RandInt();
      var instructionCount := draw % 1000;
      var c :- RandomConstants(rng, 9);
      ConstantsFit(RandIntFrom(old(rng.tape)).value.1, 9);
      var body :- GenerateBody(rng, instructionCount);
      var btf := BtfSection();
      r := Some(LoopProgram(Functions(fd, c, body), btf));
    }

    /** Counts the valid ones; always asks to go on. */
    method OnVerifyDone(vr: ValidationResult) returns (proceed: bool)
      modifies `validProgramCount
      ensures proceed && validProgramCount == old(validProgramCount) + if vr.IsValid() then 1 else 0
    {
      if vr.IsValid() {
        validProgramCount := validProgramCount + 1;
      }
      proceed := true;
    }

    /** Element 1 must still be zero; an unreadable reply passes, a short one is an index panic. */
    method OnExecuteDone(reply: Option<seq<nat>>) returns (ok: Option<bool>)
      ensures ok == LoopVerdict(reply)
      ensures ok.None? <==> reply.Some? && |reply.value| < 2
      ensures ok == Some(false) <==> reply.Some? && |reply.value| >= 2 && reply.value[1] != 0
    {
      if reply.None? {
        return Some(true);
      }
      if |reply.value| < 2 {
        return None;
      }
      ok := Some(reply.value[1] == 0);
    }
  }

  /**
   * Before the call: whatever free number the kernel gives the new map, the map outlives the close of the field's number,
   * exactly if that number is open or is none. The failing answer is the field's own number, which is free otherwise.
   */
  lemma MapSurvivesExactly(open: set<int>, field: int)
    ensures (forall fd: nat | fd !in open :: fd in open + {fd} - {field}) <==> field < 0 || field in open
  {
    if field >= 0 && field !in open {
      var fd: nat := field;
      assert fd !in open && fd !in open + {fd} - {field};
    }
  }

  datatype LoopProgram = LoopProgram(functions: seq<Func>, btf: seq<Byte>)

  /** The text "buzzer". */
  const BUZZER: seq<Byte> := [0x62, 0x75, 0x7a, 0x7a, 0x65, 0x72]

  ghost predicate HeaderOf(h: Btf.Header) {
    h.magic == 0xeb9f && h.version == 1 && h.flags == 0 && h.hdrLen == 24 && h.typeOff == 0 && h.typeLen == h.strOff == 116 && h.strLen == 13
  }

  lemma LoopTypesFit()
    ensures |Btf.LoopTypes()| == 7 && |BUZZER| == 6 && |Btf.AllWords(Btf.LoopTypes(), 7)| == 29
    ensures forall k | 0 <= k < 7 :: Btf.WellFormedType(Btf.LoopTypes()[k])
  {
    hide Btf.AllWords;
    Btf.LoopTypesWords();
    Btf.LoopTypesAreWellFormed();
  }

  ghost predicate LoopParts(c: seq<int>, body: seq<Instruction>) {
    |c| == 9 && (forall k | 0 <= k < 9 :: IsI32(c[k])) && LoopBody(body, 0)
  }

  // ---------------------------------------------------------------- linking

  lemma MainSlots(fd: int)
    ensures var m := MainFunction(fd);
            SlotOf(m, 6) == 6 && SlotOf(m, 29) == 31 && m[6] == LdFunctionPtr(24)
  {
    hide SlotOf;
    var m := MainFunction(fd);
    assert forall k | 0 <= k < 29 :: IsWide(m[k]) <==> k == 6 || k == 8;
    SlotsBetween(m, 0, 6);
    SlotsBetween(m, 9, 29);
    SlotStepOf(m, 0);
    SlotStepOf(m, 6);
    SlotStepOf(m, 7);
    SlotStepOf(m, 8);
  }

  lemma SlotStepOf(p: seq<Instruction>, i: nat)
    requires i < |p|
    ensures SlotOf(p, 0) == 0 && SlotOf(p, i + 1) == SlotOf(p, i) + Slots(p[i])
  {
  }

  /**
   * Linking is exact for every map descriptor and every loop function: the function pointer load at index 6 and the
   * second func_info entry both name the first slot of the loop function in the encoded program.
   */
  lemma LinkingIsExact(fd: int, c: seq<int>, body: seq<Instruction>, w: World, s: State)
    requires |c| == 9
    ensures var fs, q := Functions(fd, c, body), MainFunction(fd) + LoopFunction(c, body);
            var start := SlotOf(q, 29);
            && Flatten(fs, 2) == q
            && fs[1].info[0].insnOff == start
            && SlotOf(q, 6) + 1 + q[6].imm == start
            && Execute(w, q[6], SlotOf(q, 6), s) == Next(Set(s, R2, w.funcAddr(start)))
  {
    hide MainFunction, LoopFunction, SlotOf, Set;
    var fs := Functions(fd, c, body);
    var m, l := MainFunction(fd), LoopFunction(c, body);
    TwoFunctions(fs[0], fs[1]);
    var q := m + l;
    MainSlots(fd);
    SlotOfPrefix(m, l, 6);
    SlotOfPrefix(m, l, 29);
    assert q[6] == m[6];
  }

  lemma TwoFunctions(f: Func, g: Func)
    ensures Flatten([f, g], 2) == f.instructions + g.instructions
  {
    assert Flatten([f, g], 0) == [] && Flatten([f, g], 1) == f.instructions;
  }

  /** The func_info buffer of the encoded program says (0, 2), (31, 7). */
  lemma FuncInfoNamesBoth(fd: int, c: seq<int>, body: seq<Instruction>)
    requires |c| == 9
    ensures DecodeFuncInfo(FuncInfoBytes(Functions(fd, c, body), 2)) == Ok([FuncInfo(0, 2), FuncInfo(31, 7)])
  {
    hide LoopFunction, FuncInfoBytes, DecodeFuncInfo;
    var fs := Functions(fd, c, body);
    FuncInfoRoundTrip(fs, 2);
    assert Infos(fs, 0) == [] && Infos(fs, 1) == [FuncInfo(0, 2)];
    assert fs[1].info[0] == FuncInfo(31, 7) && Infos(fs, 2) == Infos(fs, 1) + [FuncInfo(31, 7)];
    assert Infos(fs, 2) == [FuncInfo(0, 2), FuncInfo(31, 7)];
  }

  // ---------------------------------------------------------------- no jump leaves its function

  lemma MainHeaderIsSegment(imm: int)
    requires IsI32(imm)
    ensures Segment(MainHeader(imm), 8)
  {
    StraightLine(MainHeader(imm));
  }

  lemma MainTailIsSegment()
    ensures Segment(MainTail(), 4) && IsExit(MainTail()[4])
  {
    var t := MainTail();
    forall i | 0 <= i < 5
      ensures SegmentAt(t, i, 4)
    {
    }
  }

  lemma MapLoadIsSegment(fd: int)
    ensures Segment([LdMapByFd(R9, fd)], 1)
  {
    StraightLine([LdMapByFd(R9, fd)]);
  }

  lemma MainIsSegment(fd: int)
    ensures Segment(MainFunction(fd), 28) && IsExit(MainFunction(fd)[28])
  {
    hide Segment, IsExit, MainHeader, LookupCode, ControlStore, MainTail, LdMapByFd;
    var h := MainHeader(24);
    MainHeaderIsSegment(24);
    MapLoadIsSegment(fd);
    LookupIsSegment(0);
    LookupIsSegment(1);
    ControlIsSegment();
    MainTailIsSegment();
    LookupSizes();
    var b := [LdMapByFd(R9, fd)];
    SegmentsJoin(b, LookupCode(0), 7);
    SegmentsJoin(b + LookupCode(0), [ControlStore()], 1);
    SegmentsJoin(b + LookupCode(0) + [ControlStore()], LookupCode(1), 7);
    SegmentsJoin(b + LookupCode(0) + [ControlStore()] + LookupCode(1), MainTail(), 4);
    SegmentsJoin(h, MainBody(fd), 20);
    assert MainFunction(fd)[28] == MainBody(fd)[20] == MainTail()[4];
  }

  lemma LookupSizes()
    ensures |LookupCode(0)| == 7 && |LookupCode(1)| == 7
  {
  }

  lemma LoopIsSegment(c: seq<int>, body: seq<Instruction>)
    requires LoopParts(c, body)
    ensures var l := LoopFunction(c, body); |l| > 0 && Segment(l, |l| - 1) && IsExit(l[|l| - 1])
  {
    hide Segment, IsExit, InitRegisters, NewStore, LoopFoot;
    var save := [NewStore(SIZE_DW, R10, Reg(R2), -8)];
    SaveIsSegment();
    InitIsSegment(c);
    LoopBodyIsSegment(body);
    FootIsSegment();
    SegmentsJoin(save, InitRegisters(c), 9);
    SegmentsJoin(save + InitRegisters(c), body, |body|);
    SegmentsJoin(save + InitRegisters(c) + body, LoopFoot(), 1);
    assert LoopFunction(c, body)[|LoopFunction(c, body)| - 1] == LoopFoot()[1];
  }

  lemma SaveIsSegment()
    ensures Segment([NewStore(SIZE_DW, R10, Reg(R2), -8)], 1)
  {
    StraightLine([NewStore(SIZE_DW, R10, Reg(R2), -8)]);
  }

  lemma FootIsSegment()
    ensures |LoopFoot()| == 2 && Segment(LoopFoot(), 1) && IsExit(LoopFoot()[1])
  {
    var t := LoopFoot();
    forall i | 0 <= i < 2
      ensures SegmentAt(t, i, 1)
    {
    }
  }

  lemma InitIsSegment(c: seq<int>)
    requires |c| == 9 && forall k | 0 <= k < 9 :: IsI32(c[k])
    ensures Segment(InitRegisters(c), 9)
  {
    var s := InitRegisters(c);
    forall i | 0 <= i < 9
      ensures WellFormed(s[i]) && Supported(s[i]) && !IsJump(s[i])
    {
      assert IsI32(c[i]);
    }
    StraightLine(s);
  }

  lemma LoopBodyIsSegment(body: seq<Instruction>)
    requires LoopBody(body, 0)
    ensures Segment(body, |body|)
  {
    hide WellFormed, Supported, IsJump;
    assert forall k | 0 <= k < |body| :: NarrowWithin(body[k], |body| + 0 - k - 1) ==> !IsWide(body[k]);
    forall i | 0 <= i < |body|
      ensures SegmentAt(body, i, |body|)
    {
      assert NarrowWithin(body[i], |body| + 0 - i - 1);
    }
  }

  /**
   * In the encoded program no path crosses from one function into the other: main ends in Exit, every jump of main lands
   * inside main, every jump of the loop function inside the loop function; index and slot targets agree throughout.
   */
  lemma FunctionsAreSeparate(fd: int, c: seq<int>, body: seq<Instruction>)
    requires LoopParts(c, body)
    ensures var q := MainFunction(fd) + LoopFunction(c, body);
            && AllWellFormed(q) && JumpsAgree(q) && IsExit(q[28]) && IsExit(q[|q| - 1])
            && forall i | 0 <= i < |q| && IsJump(q[i]) ::
                 var t := i + 1 + q[i].offset; i < t < |q| && (i < 29 ==> t < 29)
  {
    hide MainFunction, LoopFunction, WellFormed, Supported, IsJump, IsExit, IsWide;
    var m, l := MainFunction(fd), LoopFunction(c, body);
    var q := m + l;
    MainIsSegment(fd);
    LoopIsSegment(c, body);
    SegmentWeakens(m, 28);
    SegmentsClose(m, l);
    ClosedJumpsAgree(q, 29);
    assert q[28] == m[28];
    forall i | 0 <= i < |q| && IsJump(q[i])
      ensures var t := i + 1 + q[i].offset; i < t < |q| && (i < 29 ==> t < 29)
    {
      assert JumpClosed(q, i, 29);
      if i < 29 {
        assert SegmentAt(m, i, 28) && q[i] == m[i];
      }
    }
  }

  lemma SegmentWeakens(s: seq<Instruction>, limit: nat)
    requires Segment(s, limit)
    ensures Segment(s, |s|)
  {
    hide WellFormed, Supported, IsJump, IsWide;
    forall i | 0 <= i < |s|
      ensures SegmentAt(s, i, |s|)
    {
      assert SegmentAt(s, i, limit);
    }
  }
}
