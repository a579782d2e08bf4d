/** The pointer-arithmetic strategy: a counted random body between register set-up and a two-element oracle. */
module PointerArithmeticStrategy {
  import opened Words
  import opened Instructions
  import opened Encoding
  import opened Random
  import opened Generators
  import opened Machine
  import opened ControlFlow
  import opened InstructionEffects
  import opened Oracle
  import opened CoveragePrograms
  import opened KernelInterface
  import Protocol

  /** Register k gets the int32 constant c[k]. */
  function Header(c: seq<int>): (h: seq<Instruction>)
    ensures |h| == |c|
  {
    seq(|c|, k requires 0 <= k < |c| => Mov64(k, Int32(c[k])))
  }

  ghost predicate HeaderConstants(c: seq<int>) {
    |c| == 10 && forall k | 0 <= k < |c| :: IsI32(c[k])
  }

  function TwoElementFooter(reg: nat, fd: int): (f: seq<Instruction>)
    ensures |f| == 21
  {
    StartCode(reg, fd) + LookupCode(0) + [ControlStore()] + LookupCode(1) + TailCode()
  }

  /** ALU and jump instructions only; every jump stays inside the body or lands right behind it. */
  ghost predicate CountedBody(body: seq<Instruction>) {
    |body| < 1000 && forall i | 0 <= i < |body| :: CountedAt(body[i], i, |body|)
  }

  ghost predicate CountedAt(i: Instruction, at: nat, total: nat) {
    RandomAlu(i) || (at + 1 < total && RandomJmp(i, total - at - 1))
  }

  /** Bad on two different elements; None where the code indexes out of range; an unreadable reply passes. */
  function PointerVerdict(reply: Option<seq<nat>>): Option<bool> {
    if reply.None? then Some(true) else if |reply.value| < 2 then None else Some(reply.value[0] == reply.value[1])
  }

  // ---------------------------------------------------------------- what the draws decide on

  function CountdownFrom(t: seq<nat>, left: nat): Drawn<seq<Instruction>>
    decreases left
  {
    if left == 0 then Some(([], t))
    else
      var (p, u) :- RandRangeFrom(t, 1, 100);
      var (i, w) :- if p > 30 || left == 1 then AluFrom(u) else JmpFrom(u, left - 1);
      Behind([i], CountdownFrom(w, left - 1))
  }

  function BodyFrom(t: seq<nat>): Drawn<seq<Instruction>> {
    var (v, u) :- RandIntFrom(t);
    CountdownFrom(u, v % 1000)
  }

  /** The instructions of a body of `total` from place `at` on. */
  ghost predicate CountedFrom(s: seq<Instruction>, at: nat, total: nat) {
    at + |s| == total && forall i | 0 <= i < |s| :: CountedAt(s[i], at + i, total)
  }

  lemma {:induction false} CountdownIsCounted(t: seq<nat>, left: nat, at: nat)
    ensures CountdownFrom(t, left).Some? ==> CountedFrom(CountdownFrom(t, left).value.0, at, at + left)
    decreases left
  {
    hide AluFrom, JmpFrom, RandomAlu, RandomJmp, RandRangeFrom;
    if left > 0 && RandRangeFrom(t, 1, 100).Some? {
      var (p, u) := RandRangeFrom(t, 1, 100).value;
      AluIsRandom(u);
      if left > 1 {
        JmpIsRandom(u, left - 1);
      }
      var d := if p > 30 || left == 1 then AluFrom(u) else JmpFrom(u, left - 1);
      if d.Some? {
        CountdownIsCounted(d.value.1, left - 1, at + 1);
        if CountdownFrom(d.value.1, left - 1).Some? {
          var rest := CountdownFrom(d.value.1, left - 1).value.0;
          assert CountedAt(d.value.0, at, at + left);
          assert CountdownFrom(t, left).value.0 == [d.value.0] + rest;
          assert forall i | 0 < i < left :: ([d.value.0] + rest)[i] == rest[i - 1];
        }
      }
    }
  }

  lemma {:induction false} CountdownReached(s: seq<Instruction>, at: nat, rest: seq<nat>) returns (t: seq<nat>)
    requires CountedFrom(s, at, at + |s|)
    ensures CountdownFrom(t, |s|) == Some((s, rest))
    decreases |s|
  {
    hide AluFrom, JmpFrom, RandomAlu, RandomJmp, RandRangeFrom;
    if s == [] {
      return rest;
    }
    var total := at + |s|;
    forall i | 0 <= i < |s| - 1
      ensures CountedAt(s[1..][i], at + 1 + i, total)
    {
      assert CountedAt(s[i + 1], at + (i + 1), total);
    }
    var w := CountdownReached(s[1..], at + 1, rest);
    assert CountedAt(s[0], at + 0, total);
    var u;
    if RandomAlu(s[0]) {
      u := AluReached(s[0], w);
      RangeReached(1, 100, 99, u);
      t := [99] + u;
    } else {
      u := JmpReached(s[0], |s| - 1, w);
      RangeReached(1, 100, 0, u);
      t := [0] + u;
    }
    assert [s[0]] + s[1..] == s;
  }

  /** Exactly the counted bodies are generated, each on some draws. */
  lemma BodiesExactly(body: seq<Instruction>, rest: seq<nat>)
    ensures CountedBody(body) <==> exists t :: BodyFrom(t) == Some((body, rest))
  {
    hide CountdownFrom, CountedAt;
    if CountedBody(body) {
      var u := CountdownReached(body, 0, rest);
      IntReached(|body|, u);
      assert BodyFrom([|body|] + u) == Some((body, rest));
    }
    forall t | BodyFrom(t) == Some((body, rest))
      ensures CountedBody(body)
    {
      BodyIsCounted(t);
    }
  }

  lemma BodyIsCounted(t: seq<nat>)
    ensures BodyFrom(t).Some? ==> CountedBody(BodyFrom(t).value.0)
  {
    hide CountdownFrom, CountedAt;
    if RandIntFrom(t).Some? {
      CountdownIsCounted(RandIntFrom(t).value.1, RandIntFrom(t).value.0 % 1000, 0);
    }
  }

  class PointerArithmetic {
    var isFinished: bool
    var mapFd: int
    var programCount: nat
    var validProgramCount: nat

    constructor ()
      ensures !isFinished && mapFd == 0 && programCount == 0 && validProgramCount == 0
    {
      isFinished, mapFd, programCount, validProgramCount := false, 0, 0, 0;
    }

    /** The countdown loop: a jump is bounded by the number of instructions still to come. */
    method GenerateBody(rng: Rng) returns (b: Option<seq<Instruction>>)
      modifies rng
      ensures Follows(BodyFrom(old(rng.tape)), b, rng.tape)
    {
      hide AluFrom, JmpFrom, RandRangeFrom;
      var draw :- rng.RandInt();
      var instructionCount := draw % 1000;
      ghost var tape, total := rng.tape, instructionCount;
      var body: seq<Instruction> := [];
      BehindNothing(CountdownFrom(tape, total));
      while instructionCount != 0
        invariant 0 <= instructionCount
        invariant CountdownFrom(tape, total) == Behind(body, CountdownFrom(rng.tape, instructionCount))
      {
        instructionCount := instructionCount - 1;
        var p :- rng.RandRange(1, 100);
        var instruction;
        if p > 30 || instructionCount == 0 {
          instruction :- RandomAluInstruction(rng);
        } else {
          instruction :- RandomJmpInstruction(rng, instructionCount);
        }
        BehindMore(body, instruction, CountdownFrom(rng.tape, instructionCount));
        body := body + [instruction];
      }
      assert body + [] == body;
      b := Some(body);
    }

    /** Between rounds, the map the strategy thinks it has is the one the fuzzer holds, and nothing else is. */
    ghost predicate AtRest(ffi: FFI)
      reads `mapFd, ffi
    {
      ffi.Valid() && Protocol.Replay(ffi.log) == Protocol.Ownership(mapFd, -1, Protocol.Idle)
    }

    /** Closes the old map, whatever number the field holds, and makes a new one. */
    method NewMap(ffi: FFI)
      modifies `mapFd, ffi
      ensures IsI32(mapFd) && mapFd == Granted(old(ffi.open) - {old(mapFd)}, ffi.script(old(ffi.calls)).fd)
      ensures ffi.log == old(ffi.log) + [Protocol.Closed(old(mapFd)), Protocol.MapCreated(mapFd)] && ffi.calls == old(ffi.calls) + 1
      ensures ffi.open == old(ffi.open) - {old(mapFd)} + if mapFd >= 0 then {mapFd} else {}
      ensures old(AtRest(ffi)) ==> AtRest(ffi)
    {
      hide Protocol.Lawful, Protocol.CodeNames;
      Protocol.ReplayExtends(ffi.log, Protocol.Closed(mapFd));
      ffi.CloseFD(mapFd);
      ghost var log := ffi.log;
      mapFd := ffi.CreateMapArray();
      Protocol.ReplayExtends(log, Protocol.MapCreated(mapFd));
    }

    /** The draws for constants and body come before the map is touched, the one for the register after. */
    method GenerateProgram(ffi: FFI, rng: Rng) returns (r: Generated)
      modifies this, ffi, rng
      ensures programCount == old(programCount) + 1 && validProgramCount == old(validProgramCount) && isFinished == old(isFinished)
      ensures var c := ConstantsFrom(old(rng.tape), 10);
              var b := if c.Some? then BodyFrom(c.value.1) else None;
              if b.None? then
                r == NoDraws && rng.tape == [] && ffi.log == old(ffi.log) && ffi.calls == old(ffi.calls) && ffi.open == old(ffi.open) && mapFd == old(mapFd)
              else
                && mapFd == Granted(old(ffi.open) - {old(mapFd)}, ffi.script(old(ffi.calls)).fd)
                && ffi.log == old(ffi.log) + [Protocol.Closed(old(mapFd)), Protocol.MapCreated(mapFd)] && ffi.calls == old(ffi.calls) + 1
                && ffi.open == old(ffi.open) - {old(mapFd)} + (if mapFd >= 0 then {mapFd} else {})
                && PointerEnds(r, c.value.0, b.value.0, b.value.1, mapFd, rng.tape)
      ensures old(AtRest(ffi)) ==> AtRest(ffi)
    {
      hide Header, BodyFrom, ConstantsFrom, RegisterFrom, TwoElementFooter, AtRest, Granted;
      programCount := programCount + 1;
      var c := RandomConstants(rng, 10);
      if c.None? {
        return NoDraws;
      }
      var body := GenerateBody(rng);
      if body.None? {
        return NoDraws;
      }
      NewMap(ffi);
      if mapFd < 0 {
        return MapCreationFailed;
      }
      var reg := RandomRegister(rng);
      if reg.None? {
        return NoDraws;
      }
      r := Program(Header(c.value) + body.value + TwoElementFooter(reg.value, mapFd));
    }

    /** Counts the valid ones; always asks to go on, refused or not. */
    method OnVerifyDone(vr: ValidationResult) returns (proceed: bool)
      modifies `validProgramCount
      ensures proceed && validProgramCount == old(validProgramCount) + if vr.IsValid() then 1 else 0
    {
      if vr.IsValid() {
        validProgramCount := validProgramCount + 1;
      }
      proceed := true;
    }

    /**
     * The verdict. A reply that could not be read counts as a pass. A reply that could, but has fewer than the two
     * elements, is an index panic: that is what comes back when the kernel refuses the look-up.
     */
    method OnExecuteDone(reply: Option<seq<nat>>) returns (ok: Option<bool>)
      ensures ok == PointerVerdict(reply)
      ensures ok.None? <==> reply.Some? && |reply.value| < 2
      ensures ok == Some(false) <==> reply.Some? && |reply.value| >= 2 && reply.value[0] != reply.value[1]
    {
      if reply.None? {
        return Some(true);
      }
      if |reply.value| < 2 {
        return None;
      }
      ok := Some(reply.value[0] == reply.value[1]);
    }
  }

  /** What the call comes to once constants and body are drawn and the map has been asked for. */
  predicate PointerEnds(r: Generated, c: seq<int>, body: seq<Instruction>, left: seq<nat>, fd: int, tape: seq<nat>) {
    if fd < 0 then r == MapCreationFailed && tape == left
    else match RegisterFrom(left)
      case None => r == NoDraws && tape == []
      case Some((reg, rest)) => r == Program(Header(c) + body + TwoElementFooter(reg, fd)) && tape == rest
  }

  /** What `GenerateProgram` can put together for a map. */
  ghost predicate Generatable(ins: seq<Instruction>, fd: int) {
    exists c, body, reg: nat :: HeaderConstants(c) && CountedBody(body) && reg <= 9 && ins == Header(c) + body + TwoElementFooter(reg, fd)
  }

  // ---------------------------------------------------------------- shape

  lemma HeaderIsSegment(c: seq<int>)
    requires HeaderConstants(c)
    ensures Segment(Header(c), 10) && forall i | 0 <= i < 10 :: Quiet(Header(c)[i])
  {
    var h := Header(c);
    forall i | 0 <= i < 10
      ensures WellFormed(h[i]) && Supported(h[i]) && !IsJump(h[i]) && Quiet(h[i])
    {
      NarrowConstant(i, c[i]);
    }
    StraightLine(h);
  }

  lemma NarrowConstant(r: nat, x: int)
    requires r <= 9 && IsI32(x)
    ensures var i := Mov64(r, Int32(x)); WellFormed(i) && Supported(i) && !IsJump(i) && Quiet(i) && !IsWide(i)
  {
  }

  lemma CountedBodyIsSegment(body: seq<Instruction>)
    requires CountedBody(body)
    ensures Segment(body, |body|) && forall i | 0 <= i < |body| :: Quiet(body[i])
  {
    hide WellFormed, Supported, RandomAlu, RandomJmp, Quiet;
    forall i | 0 <= i < |body|
      ensures WellFormed(body[i]) && Supported(body[i]) && !IsWide(body[i]) && Quiet(body[i])
      ensures IsJump(body[i]) ==> 1 <= body[i].offset <= |body| - i - 1
    {
      assert CountedAt(body[i], i, |body|);
      var m := |body| - i - 1;
      RandomInstructionsAreNarrow(body[i], m);
      RandomIsQuiet(body[i], m);
      if IsJump(body[i]) {
        RandomJmpForward(body[i], m);
      }
    }
    forall i | 0 <= i < |body|
      ensures SegmentAt(body, i, |body|)
    {
    }
  }

  lemma StartIsSegment(reg: nat, fd: int)
    requires reg <= 9
    ensures Segment(StartCode(reg, fd), 2)
  {
    hide Mov64, LdMapByFd;
    RegisterMoveIsPlain(R8, reg);
    MapLoadIsPlain(R9, fd);
    StraightLine(StartCode(reg, fd));
  }

  lemma TailIsSegment()
    ensures Segment(TailCode(), 3) && IsExit(TailCode()[3])
  {
    var t := TailCode();
    forall i | 0 <= i < 4
      ensures SegmentAt(t, i, 3)
    {
    }
  }

  lemma TwoElementFooterIsSegment(reg: nat, fd: int)
    requires reg <= 9
    ensures Segment(TwoElementFooter(reg, fd), 20) && IsExit(TwoElementFooter(reg, fd)[20])
  {
    hide Segment, StartCode, LookupCode, TailCode, ControlStore, IsExit;
    StartIsSegment(reg, fd);
    LookupIsSegment(0);
    LookupIsSegment(1);
    ControlIsSegment();
    TailIsSegment();
    FooterSizes(reg, fd);
    var a := StartCode(reg, fd) + LookupCode(0);
    SegmentsJoin(StartCode(reg, fd), LookupCode(0), 7);
    SegmentsJoin(a, [ControlStore()], 1);
    SegmentsJoin(a + [ControlStore()], LookupCode(1), 7);
    SegmentsJoin(a + [ControlStore()] + LookupCode(1), TailCode(), 3);
    assert TwoElementFooter(reg, fd)[20] == TailCode()[3];
  }

  lemma FooterSizes(reg: nat, fd: int)
    ensures |StartCode(reg, fd)| == 2 && |LookupCode(0)| == 7 && |LookupCode(1)| == 7 && |TailCode()| == 4
  {
  }

  /** Every generated program is closed, with the footer's first instruction as barrier. */
  lemma PointerProgramIsClosed(c: seq<int>, body: seq<Instruction>, reg: nat, fd: int)
    requires HeaderConstants(c) && CountedBody(body) && reg <= 9
    ensures var p := Header(c) + body;
            && Closed(p + TwoElementFooter(reg, fd), |p|) && AllSupported(p + TwoElementFooter(reg, fd))
            && forall i | 0 <= i < |p| :: Quiet(p[i])
  {
    hide Header, CountedBody, TwoElementFooter, Segment, IsExit, Quiet;
    HeaderIsSegment(c);
    CountedBodyIsSegment(body);
    SegmentsJoin(Header(c), body, |body|);
    TwoElementFooterIsSegment(reg, fd);
    SegmentsClose(Header(c) + body, TwoElementFooter(reg, fd));
  }

  lemma EndsGeneratable(r: Generated, t: seq<nat>, fd: int, tape: seq<nat>)
    requires ConstantsFrom(t, 10).Some? && BodyFrom(ConstantsFrom(t, 10).value.1).Some?
    requires var c := ConstantsFrom(t, 10).value; var b := BodyFrom(c.1).value; PointerEnds(r, c.0, b.0, b.1, fd, tape)
    ensures (r.MapCreationFailed? <==> fd < 0) && (r.NoDraws? ==> tape == []) && (r.Program? ==> Generatable(r.ins, fd))
  {
    hide BodyFrom, ConstantsFrom, CountedBody, Header, TwoElementFooter;
    ConstantsFit(t, 10);
    BodyIsCounted(ConstantsFrom(t, 10).value.1);
    var c := ConstantsFrom(t, 10).value;
    var b := BodyFrom(c.1).value;
    if r.Program? {
      var reg := RegisterFrom(b.1).value.0;
      assert HeaderConstants(c.0) && CountedBody(b.0) && reg <= 9 && r.ins == Header(c.0) + b.0 + TwoElementFooter(reg, fd);
    }
  }

  /** It is well formed, and its one map load names the map. */
  lemma PointerNamesMap(ins: seq<Instruction>, fd: int)
    requires Generatable(ins, fd) && IsI32(fd)
    ensures AllWellFormed(ins) && AllEncodable(ins) && Protocol.CodeNames(Encode(ins, |ins|), fd) && Encode(ins, |ins|) != []
  {
    hide Header, CountedBody, TwoElementFooter, HeaderConstants, AllSupported, Quiet, WellFormed, Decode, Encode, Encodable, Protocol.IsMapLoad;
    var c, body, reg: nat :| HeaderConstants(c) && CountedBody(body) && reg <= 9 && ins == Header(c) + body + TwoElementFooter(reg, fd);
    PointerProgramIsClosed(c, body, reg, fd);
    ClosedWellFormed(ins, |Header(c) + body|);
    ProgramRoundTrip(ins);
    PartsNameMap(c, body, reg, fd);
    SlotOfMonotone(ins, 0, |ins|);
  }

  lemma PartsNameMap(c: seq<int>, body: seq<Instruction>, reg: nat, fd: int)
    requires HeaderConstants(c) && CountedBody(body) && IsI32(fd)
    ensures Protocol.MapLoadsName(Header(c) + body + TwoElementFooter(reg, fd), fd)
  {
    hide Header, CountedBody, TwoElementFooter, HeaderConstants, Protocol.IsMapLoad;
    var h, f := Header(c), TwoElementFooter(reg, fd);
    var ins := h + body + f;
    forall i | 0 <= i < |ins| && Protocol.IsMapLoad(ins[i])
      ensures ins[i].imm == fd
    {
      HeaderLoadsNoMap(c);
      if |h| <= i < |h| + |body| {
        BodyLoadsNoMap(body, i - |h|);
      } else if |h| + |body| <= i {
        FooterLoadsOneMap(reg, fd, i - |h| - |body|);
      }
    }
  }

  lemma HeaderLoadsNoMap(c: seq<int>)
    requires HeaderConstants(c)
    ensures forall i | 0 <= i < |Header(c)| :: !Protocol.IsMapLoad(Header(c)[i])
  {
    forall i | 0 <= i < |Header(c)|
      ensures !Protocol.IsMapLoad(Header(c)[i])
    {
      NarrowConstant(i, c[i]);
    }
  }

  lemma BodyLoadsNoMap(body: seq<Instruction>, i: nat)
    requires CountedBody(body) && i < |body|
    ensures !Protocol.IsMapLoad(body[i])
  {
    hide RandomAlu, RandomJmp;
    assert CountedAt(body[i], i, |body|);
    RandomInstructionsAreNarrow(body[i], |body| - i - 1);
  }

  lemma FooterLoadsOneMap(reg: nat, fd: int, i: nat)
    requires i < |TwoElementFooter(reg, fd)| && IsI32(fd) && Protocol.IsMapLoad(TwoElementFooter(reg, fd)[i])
    ensures TwoElementFooter(reg, fd)[i].imm == fd
  {
  }

  // ---------------------------------------------------------------- the oracle

  lemma TwoElementParts(p: seq<Instruction>, reg: nat, fd: int)
    ensures var q, n := p + TwoElementFooter(reg, fd), |p|;
            && CodeAt(q, n, StartCode(reg, fd)) && CodeAt(q, n + 2, LookupCode(0)) && CodeAt(q, n + 9, [ControlStore()])
            && CodeAt(q, n + 10, LookupCode(1)) && CodeAt(q, n + 17, TailCode())
  {
    hide CodeAt, StartCode, LookupCode, TailCode, ControlStore;
    FooterSizes(reg, fd);
    var f := TwoElementFooter(reg, fd);
    assert f[0..2] == StartCode(reg, fd) && f[2..9] == LookupCode(0) && f[9..10] == [ControlStore()];
    assert f[10..17] == LookupCode(1) && f[17..21] == TailCode();
    PartAt(p, f, 0, StartCode(reg, fd));
    PartAt(p, f, 2, LookupCode(0));
    PartAt(p, f, 9, [ControlStore()]);
    PartAt(p, f, 10, LookupCode(1));
    PartAt(p, f, 17, TailCode());
  }

  lemma RunControlStore(w: World, q: seq<Instruction>, at: nat, s: State) returns (t: State)
    requires CodeAt(q, at, [ControlStore()])
    ensures IndexRun(w, q, 1, Running(at, s)) == Running(at + 1, t)
    ensures t == s.(mem := Store(s.mem, Get(s, R0), 0xCAFE, 8))
  {
    hide Execute, SlotOf, NewStore, Store;
    assert q[at + 0] == [ControlStore()][0];
    t := s.(mem := Store(s.mem, Get(s, R0) + 0, 0xCAFE, 8));
    ExecuteStoreConstant(w, SIZE_DW, R0, 0xCAFE, 0, SlotOf(q, at), s);
    StepNext(w, q, at, 0, Running(at, s), s, t);
  }

  lemma RunTwoElementFooter(w: World, p: seq<Instruction>, reg: nat, fd: int, base: int, s: State) returns (t: State)
    requires reg <= 9 && LookupWorks(w, fd, base, 2) && MapAt(base, 2, Get(s, R10)) && Element(s.mem, base, 1) == 0
    ensures IndexRun(w, p + TwoElementFooter(reg, fd), 19, Running(|p|, s)) == Halted(t)
    ensures (Element(t.mem, base, 0) == Element(t.mem, base, 1) <==> Undetected(I64(Get(s, reg)))) && Get(t, R0) == 0
  {
    hide TwoElementFooter, StartCode, LookupCode, TailCode, ControlStore, Store, Load, IndexRun, CodeAt, InStack, I64, LookupWorks;
    var q, n := p + TwoElementFooter(reg, fd), |p|;
    TwoElementParts(p, reg, fd);
    var s1 := RunStart(w, q, n, reg, fd, s);
    var s2 := RunLookup(w, q, n + 2, 0, fd, base, 2, s1);
    var s3 := RunControlStore(w, q, n + 9, s2);
    var s4 := RunLookup(w, q, n + 10, 1, fd, base, 2, s3);
    t := RunTail(w, q, n + 17, s4);
    RunAdds(w, q, 2, 6, Running(n, s));
    RunAdds(w, q, 8, 1, Running(n, s));
    RunAdds(w, q, 9, 6, Running(n, s));
    RunAdds(w, q, 15, 4, Running(n, s));
    TwoElementVerdict(s.mem, base, Get(s, R10), Get(s, reg));
  }

  /**
   * Every run of a generated program whose map starts zeroed and whose lookups work reaches the footer in some state s
   * and halts 19 steps later; the two elements then agree exactly when the tested register, read as a signed number,
   * was 0 or one of -14..-10 in s. The program returns 0.
   */
  lemma PointerOracleIsExact(w: World, c: seq<int>, body: seq<Instruction>, reg: nat, fd: int, base: int, s0: State)
    returns (k: nat, s: State, t: State)
    requires HeaderConstants(c) && CountedBody(body) && reg <= 9
    requires LookupWorks(w, fd, base, 2) && MapAt(base, 2, Get(s0, R10)) && Element(s0.mem, base, 1) == 0
    requires AllEncodable(Header(c) + body + TwoElementFooter(reg, fd))
    ensures var p := Header(c) + body;
            var q := p + TwoElementFooter(reg, fd);
            var code := Encode(q, |q|);
            && SlotRun(w, code, k, Running(0, s0)) == Running(SlotOf(q, |p|), s)
            && SlotRun(w, code, k + 19, Running(0, s0)) == Halted(t)
            && (Element(t.mem, base, 0) == Element(t.mem, base, 1) <==> Undetected(I64(Get(s, reg)))) && Get(t, R0) == 0
  {
    hide Header, CountedBody, TwoElementFooter, Encode, AllEncodable, Closed, AllSupported, SlotRun, IndexRun, Quiet, LookupWorks;
    hide OutsideStackSame, InStack, Load, I64;
    var p := Header(c) + body;
    var q := p + TwoElementFooter(reg, fd);
    PointerProgramIsClosed(c, body, reg, fd);
    assert forall i | 0 <= i < |p| :: q[i] == p[i];
    k, s := ReachesBarrier(w, q, |p|, 0, s0);
    MapSurvives(s0.mem, s.mem, base, 2, Get(s0, R10), 1);
    t := RunTwoElementFooter(w, p, reg, fd, base, s);
    RunAdds(w, q, k, 19, Running(0, s0));
    ClosedJumpsAgree(q, |p|);
    ClosedWellFormed(q, |p|);
    SlotExecutionSimulates(w, q, k, Running(0, s0));
    SlotExecutionSimulates(w, q, k + 19, Running(0, s0));
  }

  /** Whenever the lookups fail, the run halts 9 steps behind the start of the footer, with 0 in R0 and the map as it was. */
  lemma FailedLookupStops(w: World, c: seq<int>, body: seq<Instruction>, reg: nat, fd: int, s0: State)
    returns (k: nat, t: State)
    requires HeaderConstants(c) && CountedBody(body) && reg <= 9 && LookupFails(w, fd)
    requires AllEncodable(Header(c) + body + TwoElementFooter(reg, fd))
    ensures var q := Header(c) + body + TwoElementFooter(reg, fd); SlotRun(w, Encode(q, |q|), k + 9, Running(0, s0)) == Halted(t)
    ensures Get(t, R0) == 0 && OutsideStackSame(s0.mem, t.mem, Get(s0, R10))
  {
    hide Header, CountedBody, TwoElementFooter, Encode, AllEncodable, Closed, AllSupported, SlotRun, IndexRun, Quiet, LookupFails;
    hide StartCode, LookupCode, TailCode, CodeAt, Store, InStack;
    var p := Header(c) + body;
    var q := p + TwoElementFooter(reg, fd);
    PointerProgramIsClosed(c, body, reg, fd);
    TwoElementParts(p, reg, fd);
    assert forall i | 0 <= i < |p| :: q[i] == p[i];
    var s;
    k, s := ReachesBarrier(w, q, |p|, 0, s0);
    var s1 := RunStart(w, q, |p|, reg, fd, s);
    t := RunFailedLookup(w, q, |p| + 2, 0, fd, s1);
    StackStore(s.mem, Get(s, R10), -4, 0, 4);
    RunAdds(w, q, 2, 7, Running(|p|, s));
    RunAdds(w, q, k, 9, Running(0, s0));
    ClosedJumpsAgree(q, |p|);
    ClosedWellFormed(q, |p|);
    SlotExecutionSimulates(w, q, k + 9, Running(0, s0));
  }
}
